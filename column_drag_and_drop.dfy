/**
  Reordering and removing the columns of a list being edited
  (app/components/board/hooks/useDragAndDrop.ts): the dragged index, the
  splice-move of a copied array, and the renumbering of orders from an
  offset (the number of columns the board already has).
*/
module ColumnDragAndDrop {
  import opened Wrappers
  import opened BoardTypes

  /** The list without the element at `i` (`filter((_, k) => k !== i)`); unchanged when `i` is no index. */
  function RemoveAt<T>(s: seq<T>, i: int): (r: seq<T>)
    ensures 0 <= i < |s| ==> |r| == |s| - 1 && forall k :: 0 <= k < |r| ==> r[k] == if k < i then s[k] else s[k + 1]
    ensures !(0 <= i < |s|) ==> r == s
  {
    if 0 <= i < |s| then s[..i] + s[i + 1..] else s
  }

  lemma RemoveAtMultiset<T>(s: seq<T>, i: nat)
    requires i < |s|
    ensures multiset(RemoveAt(s, i)) + multiset{s[i]} == multiset(s)
  {
    assert s == s[..i] + [s[i]] + s[i + 1..];
  }

  /** `splice(from, 1)` followed by `splice(to, 0, s[from])`. */
  function MoveElement<T>(s: seq<T>, from: nat, to: nat): (r: seq<T>)
    requires from < |s| && to < |s|
    ensures |r| == |s|
    ensures multiset(r) == multiset(s)
    ensures r[to] == s[from]
    ensures RemoveAt(r, to) == RemoveAt(s, from)
  {
    var rest := RemoveAt(s, from);
    RemoveAtMultiset(s, from);
    InsertAtFacts(rest, to, s[from]);
    rest[..to] + [s[from]] + rest[to..]
  }

  /** Inserting `x` at `i` and removing position `i` again gives the list back. */
  lemma InsertAtFacts<T>(rest: seq<T>, i: nat, x: T)
    requires i <= |rest|
    ensures var r := rest[..i] + [x] + rest[i..];
      && |r| == |rest| + 1 && r[i] == x && RemoveAt(r, i) == rest
      && multiset(r) == multiset(rest) + multiset{x}
  {
    var r := rest[..i] + [x] + rest[i..];
    assert r[..i] == rest[..i] && r[i + 1..] == rest[i..];
    assert rest == rest[..i] + rest[i..];
  }

  /** Where the element at `j` of a move comes from: the slots between the two positions shift by one toward `from`. */
  function MovedAt<T>(s: seq<T>, from: nat, to: nat, j: nat): T
    requires from < |s| && to < |s| && j < |s|
  {
    if j == to then s[from]
    else if from <= j < to then s[j + 1]
    else if to < j <= from then s[j - 1]
    else s[j]
  }

  lemma MoveElementAt<T>(s: seq<T>, from: nat, to: nat, j: nat)
    requires from < |s| && to < |s| && j < |s|
    ensures MoveElement(s, from, to)[j] == MovedAt(s, from, to, j)
  {
    var r := MoveElement(s, from, to);
    if j < to {
      assert r[j] == RemoveAt(r, to)[j];
    } else if j > to {
      assert r[j] == RemoveAt(r, to)[j - 1];
    }
  }

  /** A list that places every element as MovedAt says is the move. */
  lemma AgreesWithMove<T>(s: seq<T>, from: nat, to: nat, r: seq<T>)
    requires from < |s| && to < |s| && |r| == |s|
    requires forall j :: 0 <= j < |r| ==> r[j] == MovedAt(s, from, to, j)
    ensures r == MoveElement(s, from, to)
  {
    forall j | 0 <= j < |r| ensures r[j] == MoveElement(s, from, to)[j] {
      MoveElementAt(s, from, to, j);
    }
  }

  /** Moving back undoes a move. */
  lemma MoveElementRoundTrip<T>(s: seq<T>, from: nat, to: nat)
    requires from < |s| && to < |s|
    ensures MoveElement(MoveElement(s, from, to), to, from) == s
  {
    var r := MoveElement(s, from, to);
    var back := MoveElement(r, to, from);
    forall j | 0 <= j < |s| ensures back[j] == s[j] {
      MoveElementAt(r, to, from, j);
      if j != from {
        if to <= j < from { MoveElementAt(s, from, to, j + 1); }
        else if from < j <= to { MoveElementAt(s, from, to, j - 1); }
        else { MoveElementAt(s, from, to, j); }
      }
    }
  }

  /** Orders are `offset`, `offset + 1`, … in list order. */
  predicate ConsecutiveFrom(cols: seq<OrderedColumn>, offset: int) {
    forall k :: 0 <= k < |cols| ==> cols[k].order == offset + k
  }

  /** The columns as they were apart from their orders. */
  predicate SameButOrder(a: seq<OrderedColumn>, b: seq<OrderedColumn>) {
    |a| == |b| && forall k :: 0 <= k < |a| ==> a[k].id == b[k].id && a[k].name == b[k].name
  }

  /** `map((col, index) => ({ ...col, order: offset + index }))`. */
  function Renumber(cols: seq<OrderedColumn>, offset: int): (r: seq<OrderedColumn>)
    ensures ConsecutiveFrom(r, offset)
    ensures SameButOrder(r, cols)
  {
    seq(|cols|, k requires 0 <= k < |cols| => cols[k].(order := offset + k))
  }

  /** Renumbering a list that is already consecutive from the offset changes nothing. */
  lemma RenumberConsecutive(cols: seq<OrderedColumn>, offset: int)
    requires ConsecutiveFrom(cols, offset)
    ensures Renumber(cols, offset) == cols
  {
  }

  /** The slots `from .. to - 1` take the element to their right. */
  method ShiftTowardFront(a: array<OrderedColumn>, from: nat, to: nat)
    requires from <= to < a.Length
    modifies a
    ensures forall j :: 0 <= j < a.Length ==> a[j] == if from <= j < to then old(a[j + 1]) else old(a[j])
  {
    var i := from;
    while i < to
      invariant from <= i <= to
      invariant forall j :: 0 <= j < a.Length ==> a[j] == if from <= j < i then old(a[j + 1]) else old(a[j])
    {
      a[i] := a[i + 1];
      i := i + 1;
    }
  }

  /** The slots `to + 1 .. from` take the element to their left. */
  method ShiftTowardBack(a: array<OrderedColumn>, to: nat, from: nat)
    requires to <= from < a.Length
    modifies a
    ensures forall j :: 0 <= j < a.Length ==> a[j] == if to < j <= from then old(a[j - 1]) else old(a[j])
  {
    var i := from;
    while i > to
      invariant to <= i <= from
      invariant forall j :: 0 <= j < a.Length ==> a[j] == if i < j <= from then old(a[j - 1]) else old(a[j])
    {
      a[i] := a[i - 1];
      i := i - 1;
    }
  }

  /**
    The splice-move of handleDrop: copies the list into a fresh array and
    shifts the elements between the two positions in place.
  */
  method SpliceMove(columns: seq<OrderedColumn>, from: nat, to: nat) returns (r: seq<OrderedColumn>)
    requires from < |columns| && to < |columns|
    ensures r == MoveElement(columns, from, to)
  {
    var a := new OrderedColumn[|columns|](k requires 0 <= k < |columns| => columns[k]);
    assert a[..] == columns;
    var dragged := a[from];
    if from < to {
      ShiftTowardFront(a, from, to);
    } else {
      ShiftTowardBack(a, to, from);
    }
    a[to] := dragged;
    assert forall j :: 0 <= j < a.Length ==> a[j] == MovedAt(columns, from, to, j);
    r := a[..];
    AgreesWithMove(columns, from, to, r);
  }

  /** handleRemoveColumn: the element at `index` goes, the rest keep their order and are renumbered from `offset`. */
  function RemoveAndRenumber(columns: seq<OrderedColumn>, index: int, offset: int): (r: seq<OrderedColumn>)
    ensures ConsecutiveFrom(r, offset)
    ensures SameButOrder(r, RemoveAt(columns, index))
  {
    Renumber(RemoveAt(columns, index), offset)
  }

  class ColumnDragState {
    var draggedIndex: Option<nat>

    constructor()
      ensures draggedIndex.None?
    {
      draggedIndex := None;
    }

    /** handleDragStart: records the index. */
    method HandleDragStart(index: nat)
      modifies this
      ensures draggedIndex == Some(index)
    {
      draggedIndex := Some(index);
    }

    /**
      handleDrop: nothing when no index is recorded or it equals `dropIndex`;
      otherwise the list to hand to `setColumns`, the move renumbered from
      `existingCount`, and the recorded index is cleared.
    */
    method HandleDrop(dropIndex: nat, columns: seq<OrderedColumn>, existingCount: nat) returns (update: Option<seq<OrderedColumn>>)
      requires draggedIndex.Some? && draggedIndex.value != dropIndex ==> draggedIndex.value < |columns| && dropIndex < |columns|
      modifies this
      ensures old(draggedIndex).None? || old(draggedIndex) == Some(dropIndex) ==>
        update.None? && draggedIndex == old(draggedIndex)
      ensures old(draggedIndex).Some? && old(draggedIndex) != Some(dropIndex) ==>
        update == Some(Renumber(MoveElement(columns, old(draggedIndex).value, dropIndex), existingCount))
        && draggedIndex.None?
    {
      if draggedIndex.None? || draggedIndex.value == dropIndex {
        return None;
      }
      var updatedColumns := SpliceMove(columns, draggedIndex.value, dropIndex);
      var reorderedColumns := Renumber(updatedColumns, existingCount);
      update := Some(reorderedColumns);
      draggedIndex := None;
    }
  }
}
