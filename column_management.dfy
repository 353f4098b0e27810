/**
  The draft of new columns in the column modal
  (app/components/board/hooks/useColumnManagement.ts): the name being typed
  and the list of columns to add, numbered after the board's existing
  columns. `existing` is the hook's `existingColumns` argument.
*/
module ColumnManagement {
  import opened BoardTypes
  import Text
  import ColumnDragAndDrop

  /** `Math.max(...ids)` of a non-empty list; 0 for an empty one, as the hook guards it. */
  function MaxIdOr0(cols: seq<OrderedColumn>): (m: int)
    ensures forall k :: 0 <= k < |cols| ==> cols[k].id <= m
    ensures cols == [] ==> m == 0
    ensures cols != [] ==> exists k :: 0 <= k < |cols| && cols[k].id == m
  {
    if |cols| == 0 then 0
    else if |cols| == 1 then cols[0].id
    else
      var rest := MaxIdOr0(cols[1..]);
      assert forall k :: 1 <= k < |cols| ==> cols[k] == cols[1..][k - 1];
      if cols[0].id >= rest then cols[0].id
      else
        var k :| 0 <= k < |cols[1..]| && cols[1..][k].id == rest;
        assert cols[k + 1].id == rest;
        rest
  }

  /** generateNextId: one more than the largest id of both lists, where an empty list counts as 0. */
  function GenerateNextId(existing: seq<OrderedColumn>, newColumns: seq<OrderedColumn>): (id: int)
    ensures existing == [] || newColumns == [] ==> id >= 1
    ensures forall k :: 0 <= k < |existing| ==> existing[k].id < id
    ensures forall k :: 0 <= k < |newColumns| ==> newColumns[k].id < id
    ensures existing == [] && newColumns == [] ==> id == 1
    ensures id == 1
      || (exists k :: 0 <= k < |existing| && existing[k].id == id - 1)
      || (exists k :: 0 <= k < |newColumns| && newColumns[k].id == id - 1)
  {
    var a := MaxIdOr0(existing);
    var b := MaxIdOr0(newColumns);
    (if a >= b then a else b) + 1
  }

  /** The draft after addColumn with name `name`: unchanged for a blank name, else one column appended. */
  function AppendColumn(existing: seq<OrderedColumn>, newColumns: seq<OrderedColumn>, name: string): (r: seq<OrderedColumn>)
    ensures Text.Trim(name) == "" ==> r == newColumns
    ensures Text.Trim(name) != "" ==>
      r == newColumns + [OrderedColumn(GenerateNextId(existing, newColumns), Text.Trim(name), |existing| + |newColumns|)]
  {
    if Text.Trim(name) != "" then
      newColumns + [OrderedColumn(GenerateNextId(existing, newColumns), Text.Trim(name), |existing| + |newColumns|)]
    else newColumns
  }

  /** The draft after removeColumn(index). */
  function RemoveColumnAt(existing: seq<OrderedColumn>, newColumns: seq<OrderedColumn>, index: int): seq<OrderedColumn> {
    ColumnDragAndDrop.RemoveAndRenumber(newColumns, index, |existing|)
  }

  /** True when no id occurs twice, in either list or across them. */
  predicate DistinctIds(existing: seq<OrderedColumn>, newColumns: seq<OrderedColumn>) {
    var all := existing + newColumns;
    forall i, j :: 0 <= i < j < |all| ==> all[i].id != all[j].id
  }

  /** addColumn keeps the orders consecutive from |existing| and the ids distinct. */
  lemma AppendKeepsInvariant(existing: seq<OrderedColumn>, newColumns: seq<OrderedColumn>, name: string)
    requires ColumnDragAndDrop.ConsecutiveFrom(newColumns, |existing|) && DistinctIds(existing, newColumns)
    ensures var r := AppendColumn(existing, newColumns, name);
      ColumnDragAndDrop.ConsecutiveFrom(r, |existing|) && DistinctIds(existing, r)
  {
    var r := AppendColumn(existing, newColumns, name);
    if Text.Trim(name) != "" {
      var id := GenerateNextId(existing, newColumns);
      var all := existing + r;
      assert all == (existing + newColumns) + [OrderedColumn(id, Text.Trim(name), |existing| + |newColumns|)];
      forall i | 0 <= i < |all| - 1 ensures all[i].id < id {
        if i < |existing| { assert all[i] == existing[i]; }
        else { assert all[i] == newColumns[i - |existing|]; }
      }
    }
  }

  /** removeColumn keeps the orders consecutive from |existing| and the ids distinct. */
  lemma RemoveKeepsInvariant(existing: seq<OrderedColumn>, newColumns: seq<OrderedColumn>, index: int)
    requires DistinctIds(existing, newColumns)
    ensures var r := RemoveColumnAt(existing, newColumns, index);
      ColumnDragAndDrop.ConsecutiveFrom(r, |existing|) && DistinctIds(existing, r)
  {
    var r := RemoveColumnAt(existing, newColumns, index);
    var rest := ColumnDragAndDrop.RemoveAt(newColumns, index);
    var all := existing + r;
    var before := existing + newColumns;
    // each entry of `all` is an entry of `before`, at a strictly increasing position
    forall i | 0 <= i < |all| ensures all[i].id == before[if i < |existing| || !(0 <= index < |newColumns|) || i - |existing| < index then i else i + 1].id {
      if i >= |existing| {
        assert r[i - |existing|].id == rest[i - |existing|].id;
      }
    }
  }

  /** An edit of the draft list. */
  datatype DraftEdit = Add(name: string) | Remove(index: int)

  function ApplyEdit(existing: seq<OrderedColumn>, newColumns: seq<OrderedColumn>, e: DraftEdit): seq<OrderedColumn> {
    match e
    case Add(name) => AppendColumn(existing, newColumns, name)
    case Remove(index) => RemoveColumnAt(existing, newColumns, index)
  }

  function ApplyEdits(existing: seq<OrderedColumn>, newColumns: seq<OrderedColumn>, edits: seq<DraftEdit>): seq<OrderedColumn>
    decreases |edits|
  {
    if edits == [] then newColumns
    else ApplyEdits(existing, ApplyEdit(existing, newColumns, edits[0]), edits[1..])
  }

  /**
    Starting from an empty draft over columns with distinct ids, any sequence
    of additions and removals leaves orders |existing|, |existing| + 1, … and
    no repeated id.
  */
  lemma {:induction false} EditsKeepInvariant(existing: seq<OrderedColumn>, newColumns: seq<OrderedColumn>, edits: seq<DraftEdit>)
    requires ColumnDragAndDrop.ConsecutiveFrom(newColumns, |existing|) && DistinctIds(existing, newColumns)
    ensures var r := ApplyEdits(existing, newColumns, edits);
      ColumnDragAndDrop.ConsecutiveFrom(r, |existing|) && DistinctIds(existing, r)
    decreases |edits|
  {
    if edits != [] {
      var next := ApplyEdit(existing, newColumns, edits[0]);
      match edits[0] {
        case Add(name) => AppendKeepsInvariant(existing, newColumns, name);
        case Remove(index) => RemoveKeepsInvariant(existing, newColumns, index);
      }
      EditsKeepInvariant(existing, next, edits[1..]);
    }
  }

  class ColumnDraft {
    var columnName: string
    var newColumns: seq<OrderedColumn>

    constructor()
      ensures columnName == "" && newColumns == []
    {
      columnName := "";
      newColumns := [];
    }

    /** setColumnName: the text field's change handler. */
    method SetColumnName(name: string)
      modifies this
      ensures columnName == name && newColumns == old(newColumns)
    {
      columnName := name;
    }

    /** addColumn: a blank name changes nothing; otherwise appends the column and clears the name. */
    method AddColumn(existing: seq<OrderedColumn>)
      modifies this
      ensures newColumns == AppendColumn(existing, old(newColumns), old(columnName))
      ensures columnName == if Text.Trim(old(columnName)) != "" then "" else old(columnName)
    {
      if Text.Trim(columnName) != "" {
        var newColumn := OrderedColumn(GenerateNextId(existing, newColumns), Text.Trim(columnName), |existing| + |newColumns|);
        newColumns := newColumns + [newColumn];
        columnName := "";
      }
    }

    /** removeColumn: drops the column at `index` and renumbers the rest. */
    method RemoveColumn(existing: seq<OrderedColumn>, index: int)
      modifies this
      ensures newColumns == RemoveColumnAt(existing, old(newColumns), index)
      ensures columnName == old(columnName)
    {
      newColumns := ColumnDragAndDrop.RemoveAndRenumber(newColumns, index, |existing|);
    }

    /** updateColumns: replaces the list verbatim. */
    method UpdateColumns(columns: seq<OrderedColumn>)
      modifies this
      ensures newColumns == columns && columnName == old(columnName)
    {
      newColumns := columns;
    }

    /** reset: empties the name and the list. */
    method Reset()
      modifies this
      ensures columnName == "" && newColumns == []
    {
      columnName := "";
      newColumns := [];
    }
  }
}
