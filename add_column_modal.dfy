/**
  The column modal (app/components/board/AddColumnModal.tsx): the draft of
  new columns, the editing of one existing column, and a local copy of the
  existing columns that renames, deletions and reorders change before the
  board does. Optional callback props are `has…` flags; the callbacks the
  handlers invoke are returned.
*/
module AddColumnModal {
  import opened Wrappers
  import opened BoardTypes
  import Text
  import ColumnDragAndDrop
  import ColumnManagement
  import Seqs

  /** `onUpdateColumn(columnId, name, order)`. */
  datatype UpdateColumnCall = UpdateColumnCall(columnId: int, name: string, order: int)

  /** The first column with the id, as `find` returns it. */
  function FindColumn(cols: seq<OrderedColumn>, id: int): (r: Option<OrderedColumn>)
    ensures r.None? <==> forall k :: 0 <= k < |cols| ==> cols[k].id != id
    ensures r.Some? ==> r.value.id == id && exists k :: (0 <= k < |cols| && cols[k] == r.value
      && forall j :: 0 <= j < k ==> cols[j].id != id)
    decreases |cols|
  {
    if cols == [] then None
    else if cols[0].id == id then Some(cols[0])
    else
      var r := FindColumn(cols[1..], id);
      assert forall k :: 1 <= k < |cols| ==> cols[k] == cols[1..][k - 1];
      if r.Some? then
        var k :| 0 <= k < |cols[1..]| && cols[1..][k] == r.value
          && forall j :: 0 <= j < k ==> cols[1..][j].id != id;
        assert cols[k + 1] == r.value && forall j :: 0 <= j < k + 1 ==> cols[j].id != id;
        r
      else
        r
  }

  /** The local rename of handleSaveEdit: every column with the id takes the name. */
  function Rename(cols: seq<OrderedColumn>, id: int, name: string): (r: seq<OrderedColumn>)
    ensures |r| == |cols|
    ensures forall k :: 0 <= k < |cols| ==>
      r[k] == if cols[k].id == id then cols[k].(name := name) else cols[k]
  {
    seq(|cols|, k requires 0 <= k < |cols| => if cols[k].id == id then cols[k].(name := name) else cols[k])
  }

  /** A rename touches only names: ids and orders stay, so an order-consecutive list stays one. */
  lemma RenameKeepsOrders(cols: seq<OrderedColumn>, id: int, name: string, offset: int)
    ensures ColumnDragAndDrop.ConsecutiveFrom(cols, offset) ==> ColumnDragAndDrop.ConsecutiveFrom(Rename(cols, id, name), offset)
    ensures forall k :: 0 <= k < |cols| ==> Rename(cols, id, name)[k].id == cols[k].id
  {
  }

  /** handleDeleteExisting's `filter(col => col.id !== columnId)`. */
  function OtherThan(id: int): OrderedColumn -> bool {
    (c: OrderedColumn) => c.id != id
  }

  /** The local list after deleting the column with the id: `Array.prototype.filter`, so the rest keep their order. */
  function WithoutColumn(cols: seq<OrderedColumn>, id: int): (r: seq<OrderedColumn>)
    ensures forall k :: 0 <= k < |r| ==> r[k].id != id && r[k] in cols
    ensures forall c :: c in cols && c.id != id ==> c in r
  {
    Seqs.Filter(cols, OtherThan(id))
  }

  /** Deleting keeps every other column as often as it was there, and no column with the id. */
  lemma WithoutColumnMultiplicity(cols: seq<OrderedColumn>, id: int, c: OrderedColumn)
    ensures multiset(WithoutColumn(cols, id))[c] == if c.id != id then multiset(cols)[c] else 0
  {
    Seqs.FilterMultiplicity(cols, OtherThan(id), c);
  }

  /** A column number that counts as an edit in progress: `editingColumnId &&` treats 0 like null. */
  predicate Truthy(id: Option<int>) {
    id.Some? && id.value != 0
  }

  class ColumnModal {
    const draft: ColumnManagement.ColumnDraft
    const drag: ColumnDragAndDrop.ColumnDragState
    var editingColumnId: Option<int>
    var editingName: string
    var localExistingColumns: seq<OrderedColumn>

    constructor(existingColumns: seq<OrderedColumn>)
      ensures fresh(draft) && fresh(drag)
      ensures draft.columnName == "" && draft.newColumns == [] && drag.draggedIndex.None?
      ensures editingColumnId.None? && editingName == "" && localExistingColumns == existingColumns
    {
      draft := new ColumnManagement.ColumnDraft();
      drag := new ColumnDragAndDrop.ColumnDragState();
      editingColumnId := None;
      editingName := "";
      localExistingColumns := existingColumns;
    }

    /** The effect on `existingColumns`: the local copy is replaced by the new prop. */
    method SyncExisting(existingColumns: seq<OrderedColumn>)
      modifies this
      ensures localExistingColumns == existingColumns
      ensures editingColumnId == old(editingColumnId) && editingName == old(editingName)
    {
      localExistingColumns := existingColumns;
    }

    /** handleSubmit: hands the draft to onAddColumns and resets it, only when it is not empty. */
    method HandleSubmit() returns (added: Option<seq<OrderedColumn>>)
      modifies draft
      ensures old(draft.newColumns) == [] ==>
        added.None? && draft.newColumns == old(draft.newColumns) && draft.columnName == old(draft.columnName)
      ensures old(draft.newColumns) != [] ==>
        added == Some(old(draft.newColumns)) && draft.newColumns == [] && draft.columnName == ""
    {
      if |draft.newColumns| > 0 {
        added := Some(draft.newColumns);
        draft.Reset();
      } else {
        added := None;
      }
    }

    /** handleClose: resets the draft before closing. */
    method HandleClose()
      modifies draft
      ensures draft.newColumns == [] && draft.columnName == ""
    {
      draft.Reset();
    }

    /** handleDropWithUpdate: the draft list's drop, renumbered after the existing columns. */
    method HandleDropWithUpdate(existingColumns: seq<OrderedColumn>, dropIndex: nat)
      requires drag.draggedIndex.Some? && drag.draggedIndex.value != dropIndex ==>
        drag.draggedIndex.value < |draft.newColumns| && dropIndex < |draft.newColumns|
      modifies drag, draft
      ensures old(drag.draggedIndex).None? || old(drag.draggedIndex) == Some(dropIndex) ==>
        draft.newColumns == old(draft.newColumns) && drag.draggedIndex == old(drag.draggedIndex)
      ensures old(drag.draggedIndex).Some? && old(drag.draggedIndex) != Some(dropIndex) ==>
        draft.newColumns == ColumnDragAndDrop.Renumber(
          ColumnDragAndDrop.MoveElement(old(draft.newColumns), old(drag.draggedIndex).value, dropIndex), |existingColumns|)
        && drag.draggedIndex.None?
      ensures draft.columnName == old(draft.columnName)
    {
      var update := drag.HandleDrop(dropIndex, draft.newColumns, |existingColumns|);
      if update.Some? {
        draft.UpdateColumns(update.value);
      }
    }

    /** handleRemoveWithUpdate: the draft without the column at `index`, renumbered after the existing columns. */
    method HandleRemoveWithUpdate(existingColumns: seq<OrderedColumn>, index: int)
      modifies draft
      ensures draft.newColumns == ColumnDragAndDrop.RemoveAndRenumber(old(draft.newColumns), index, |existingColumns|)
      ensures draft.columnName == old(draft.columnName)
    {
      var updated := ColumnDragAndDrop.RemoveAndRenumber(draft.newColumns, index, |existingColumns|);
      draft.UpdateColumns(updated);
    }

    /** handleEditExisting: starts editing a column with its current name. */
    method HandleEditExisting(column: OrderedColumn)
      modifies this
      ensures editingColumnId == Some(column.id) && editingName == column.name
      ensures localExistingColumns == old(localExistingColumns)
    {
      editingColumnId := Some(column.id);
      editingName := column.name;
    }

    /** The edit field's change handler. */
    method SetEditingName(name: string)
      modifies this
      ensures editingName == name && editingColumnId == old(editingColumnId)
      ensures localExistingColumns == old(localExistingColumns)
    {
      editingName := name;
    }

    /**
      handleSaveEdit: with a truthy column id, a non-blank name, the callback
      and the column found locally, calls onUpdateColumn with the trimmed
      name and the column's order and renames the column locally; in every
      case editing ends.
    */
    method HandleSaveEdit(hasUpdateHandler: bool) returns (call: Option<UpdateColumnCall>)
      modifies this
      ensures var applies := Truthy(old(editingColumnId)) && Text.Trim(old(editingName)) != "" && hasUpdateHandler
                             && FindColumn(old(localExistingColumns), old(editingColumnId).value).Some?;
        && (applies ==>
              && call == Some(UpdateColumnCall(old(editingColumnId).value, Text.Trim(old(editingName)),
                                               FindColumn(old(localExistingColumns), old(editingColumnId).value).value.order))
              && localExistingColumns == Rename(old(localExistingColumns), old(editingColumnId).value, Text.Trim(old(editingName))))
        && (!applies ==> call.None? && localExistingColumns == old(localExistingColumns))
      ensures editingColumnId.None? && editingName == ""
    {
      call := None;
      if Truthy(editingColumnId) && Text.Trim(editingName) != "" && hasUpdateHandler {
        var column := FindColumn(localExistingColumns, editingColumnId.value);
        if column.Some? {
          call := Some(UpdateColumnCall(editingColumnId.value, Text.Trim(editingName), column.value.order));
          localExistingColumns := Rename(localExistingColumns, editingColumnId.value, Text.Trim(editingName));
        }
      }
      editingColumnId := None;
      editingName := "";
    }

    /** handleCancelEdit: ends editing, nothing else. */
    method HandleCancelEdit()
      modifies this
      ensures editingColumnId.None? && editingName == ""
      ensures localExistingColumns == old(localExistingColumns)
    {
      editingColumnId := None;
      editingName := "";
    }

    /** handleDeleteExisting: with the callback, calls it and drops the column locally; without it, nothing. */
    method HandleDeleteExisting(columnId: int, hasDeleteHandler: bool) returns (call: Option<int>)
      modifies this
      ensures hasDeleteHandler ==> call == Some(columnId) && localExistingColumns == WithoutColumn(old(localExistingColumns), columnId)
      ensures !hasDeleteHandler ==> call.None? && localExistingColumns == old(localExistingColumns)
      ensures editingColumnId == old(editingColumnId) && editingName == old(editingName)
    {
      if hasDeleteHandler {
        call := Some(columnId);
        localExistingColumns := WithoutColumn(localExistingColumns, columnId);
      } else {
        call := None;
      }
    }

    /**
      handleReorderExisting: with a recorded index other than `dropIndex`,
      moves the column, numbers the orders 0, 1, … and passes that list to
      onReorderColumns when given. The recorded index is not cleared.
    */
    method HandleReorderExisting(dropIndex: nat, hasReorderHandler: bool) returns (call: Option<seq<OrderedColumn>>)
      requires drag.draggedIndex.Some? && drag.draggedIndex.value != dropIndex ==>
        drag.draggedIndex.value < |localExistingColumns| && dropIndex < |localExistingColumns|
      modifies this
      ensures var d := drag.draggedIndex;
        && (d.Some? && d.value != dropIndex ==>
              && localExistingColumns == ColumnDragAndDrop.Renumber(ColumnDragAndDrop.MoveElement(old(localExistingColumns), d.value, dropIndex), 0)
              && call == (if hasReorderHandler then Some(localExistingColumns) else None))
        && (!(d.Some? && d.value != dropIndex) ==> call.None? && localExistingColumns == old(localExistingColumns))
      ensures editingColumnId == old(editingColumnId) && editingName == old(editingName)
    {
      call := None;
      var d := drag.draggedIndex;
      if d.Some? && d.value != dropIndex {
        var moved := ColumnDragAndDrop.SpliceMove(localExistingColumns, d.value, dropIndex);
        var reorderedColumns := ColumnDragAndDrop.Renumber(moved, 0);
        localExistingColumns := reorderedColumns;
        if hasReorderHandler {
          call := Some(reorderedColumns);
        }
      }
    }
  }
}
