/**
  The column request handlers (app/hooks/useColumns.ts). Each one makes
  one call and ends in exactly one of its two callbacks; the model returns
  which one, with its argument, when neither callback throws. The column
  transforms the two board hooks apply on success are here as well, since
  both hooks use them.
*/
module Columns {
  import opened Wrappers
  import opened BoardTypes
  import opened ApiUtils
  import Boards
  import Seqs

  /** The callback a handler ends in, with its argument. */
  datatype Callback<T> = OnSuccess(data: T) | OnError(message: string)

  const AddFailed := "Failed to add columns"
  const AddThrew := "An error occurred while adding columns"
  const UpdateFailed := "Failed to update column"
  const UpdateThrew := "An error occurred while updating column"
  const DeleteFailed := "Failed to delete column"
  const DeleteThrew := "An error occurred while deleting column"
  const ReorderFailed := "Failed to reorder columns"
  const ReorderThrew := "An error occurred while reordering columns"

  /** The error callback's argument for a call that failed or threw. */
  function FailureMessage<T>(call: Call<T>, failed: string, threw: string): (m: string)
    ensures call.Threw? ==> m == threw
    ensures call.Returned? ==> m == OrElse(call.response.error, failed)
  {
    match call
    case Returned(response) => OrElse(response.error, failed)
    case Threw => threw
  }

  /** handleAddColumns: success needs the flag and data; the data is passed as a list, one column wrapped. */
  function HandleAddColumns(call: Call<Boards.OneOrMany<Column>>): (r: Callback<seq<Column>>)
    ensures r.OnSuccess? <==> call.Returned? && call.response.success && call.response.data.Some?
    ensures r.OnSuccess? ==> r.data == Boards.AsList(call.response.data.value)
    ensures r.OnError? ==> r.message == FailureMessage(call, AddFailed, AddThrew)
  {
    if call.Returned? && call.response.success && call.response.data.Some? then OnSuccess(Boards.AsList(call.response.data.value))
    else OnError(FailureMessage(call, AddFailed, AddThrew))
  }

  /** The body of updateColumn's request. */
  datatype ColumnChange = ColumnChange(name: string, order: int)

  /** handleUpdateColumn: success needs the flag and data. */
  function HandleUpdateColumn<T>(call: Call<T>): (r: Callback<()>)
    ensures r.OnSuccess? <==> call.Returned? && call.response.success && call.response.data.Some?
    ensures r.OnError? ==> r.message == FailureMessage(call, UpdateFailed, UpdateThrew)
  {
    if call.Returned? && call.response.success && call.response.data.Some? then OnSuccess(())
    else OnError(FailureMessage(call, UpdateFailed, UpdateThrew))
  }

  /** handleDeleteColumn: success needs only the flag; data is not required. */
  function HandleDeleteColumn<T>(call: Call<T>): (r: Callback<()>)
    ensures r.OnSuccess? <==> call.Returned? && call.response.success
    ensures r.OnError? ==> r.message == FailureMessage(call, DeleteFailed, DeleteThrew)
  {
    if call.Returned? && call.response.success then OnSuccess(())
    else OnError(FailureMessage(call, DeleteFailed, DeleteThrew))
  }

  /** Deleting succeeds on a response without data where updating fails. */
  lemma DeleteNeedsNoData(error: string)
    ensures var call: Call<Column> := Returned(ApiResponse(true, None, error));
      HandleDeleteColumn(call).OnSuccess? && HandleUpdateColumn(call) == OnError(OrElse(error, UpdateFailed))
  {
  }

  /** One entry of the reorder request. */
  datatype ColumnPosition = ColumnPosition(id: int, order: int)

  /** handleReorderColumns' payload: each column's id with its position as order; its own order is not read. */
  function ReorderPayload(columns: seq<Column>): (r: seq<ColumnPosition>)
    ensures |r| == |columns|
    ensures forall k :: 0 <= k < |columns| ==> r[k] == ColumnPosition(columns[k].id, k)
  {
    seq(|columns|, k requires 0 <= k < |columns| => ColumnPosition(columns[k].id, k))
  }

  /** The payload depends only on the ids in list order: changing orders or names does not change it. */
  lemma PayloadIgnoresOrders(a: seq<Column>, b: seq<Column>)
    requires |a| == |b| && forall k :: 0 <= k < |a| ==> a[k].id == b[k].id
    ensures ReorderPayload(a) == ReorderPayload(b)
  {
  }

  /** handleReorderColumns: success needs the flag and data; the server's list is passed on. */
  function HandleReorderColumns(call: Call<seq<Column>>): (r: Callback<seq<Column>>)
    ensures r.OnSuccess? <==> call.Returned? && call.response.success && call.response.data.Some?
    ensures r.OnSuccess? ==> r.data == call.response.data.value
    ensures r.OnError? ==> r.message == FailureMessage(call, ReorderFailed, ReorderThrew)
  {
    if call.Returned? && call.response.success && call.response.data.Some? then OnSuccess(call.response.data.value)
    else OnError(FailureMessage(call, ReorderFailed, ReorderThrew))
  }

  /** `col.id === columnId ? { ...col, name, order } : col` over the list. */
  function RenameColumn(columns: seq<Column>, columnId: int, name: string, order: int): (r: seq<Column>)
    ensures |r| == |columns|
    ensures forall k :: 0 <= k < |columns| ==>
      r[k] == if columns[k].id == columnId then Column(columnId, name, Some(order)) else columns[k]
  {
    seq(|columns|, k requires 0 <= k < |columns| =>
      if columns[k].id == columnId then columns[k].(name := name, order := Some(order)) else columns[k])
  }

  /** The predicate of the delete filters: `col => col.id !== columnId`. */
  function OtherThan(columnId: int): Column -> bool {
    (c: Column) => c.id != columnId
  }

  /**
    `filter(col => col.id !== columnId)`, built from the back. It is the
    front-to-back `Array.prototype.filter` of Seqs, so the kept columns stay
    in their order.
  */
  function RemoveColumn(columns: seq<Column>, columnId: int): (r: seq<Column>)
    ensures r == Seqs.Filter(columns, OtherThan(columnId))
    ensures forall k :: 0 <= k < |r| ==> r[k].id != columnId
    ensures forall c :: c in columns && c.id != columnId ==> c in r
    ensures forall c :: c in r ==> c in columns
    decreases |columns|
  {
    if columns == [] then []
    else
      var init := columns[..|columns| - 1];
      var rest := RemoveColumn(init, columnId);
      var last := columns[|columns| - 1];
      assert columns == init + [last];
      Seqs.FilterAppend(init, [last], OtherThan(columnId));
      assert Seqs.Filter([last], OtherThan(columnId)) == if last.id != columnId then [last] else [] by {
        Seqs.FilterStep([last], OtherThan(columnId));
      }
      if last.id != columnId then rest + [last] else rest
  }

  /** Removing keeps every other column as often as it was there. */
  lemma {:induction false} RemoveColumnKeepsOthers(columns: seq<Column>, columnId: int, c: Column)
    requires c.id != columnId
    ensures multiset(RemoveColumn(columns, columnId))[c] == multiset(columns)[c]
    decreases |columns|
  {
    if columns != [] {
      var init := columns[..|columns| - 1];
      assert columns == init + [columns[|columns| - 1]];
      RemoveColumnKeepsOthers(init, columnId, c);
    }
  }
}
