/**
  The column operations of the board view
  (app/hooks/useBoardColumnManagement.ts): each one calls its useColumns
  handler and, on success, hands the board's new column list to the boards
  hook's updateBoard; on failure it reports the error through its `onError`
  prop.

  As written, the failure path calls `setError` on the boards hook, which
  useBoards does not return: the call throws a TypeError before `onError`
  is reached, the handler's `catch` calls the same callback again, and the
  operation's promise rejects with no message shown. The model exhibits
  that (`RunAsWritten`), and the class models the evidently intended
  handler, which records the error and notifies (`RunCorrected`).
*/
module BoardColumnManagement {
  import opened Wrappers
  import opened BoardTypes
  import ApiUtils
  import Boards
  import Columns
  import Seqs

  /** `board?.columns || []`: an array is truthy even when empty. */
  function CurrentColumns(board: Option<Board>): (r: seq<Column>)
    ensures board.Some? ==> r == board.value.columns
    ensures board.None? ==> r == []
  {
    if board.Some? then board.value.columns else []
  }

  /** addColumns' new list: the board's columns, then the server's new ones. */
  function ColumnsAfterAdd(board: Option<Board>, newColumns: seq<Column>): (r: seq<Column>)
    ensures |r| == |CurrentColumns(board)| + |newColumns|
    ensures r[..|CurrentColumns(board)|] == CurrentColumns(board) && r[|CurrentColumns(board)|..] == newColumns
  {
    CurrentColumns(board) + newColumns
  }

  /** updateColumn's new list: the matching column takes the name and the order, 0 when none was given. */
  function ColumnsAfterUpdate(board: Option<Board>, columnId: int, name: string, order: Option<int>): (r: seq<Column>)
    ensures |r| == |CurrentColumns(board)|
    ensures forall k :: 0 <= k < |r| ==>
      var c := CurrentColumns(board)[k];
      r[k] == if c.id == columnId then Column(columnId, name, Some(order.GetOr(0))) else c
  {
    Columns.RenameColumn(CurrentColumns(board), columnId, name, order.GetOr(0))
  }

  /** deleteColumn's new list: the board's columns without the matching one, the others in their order. */
  function ColumnsAfterDelete(board: Option<Board>, columnId: int): (r: seq<Column>)
    ensures r == Seqs.Filter(CurrentColumns(board), Columns.OtherThan(columnId))
    ensures forall c :: c in r <==> c in CurrentColumns(board) && c.id != columnId
  {
    Columns.RemoveColumn(CurrentColumns(board), columnId)
  }

  /** reorderColumns' `order: col.order ?? index`: a present order, 0 included, is kept. */
  function ColumnsWithOrder(columns: seq<Column>): (r: seq<Column>)
    ensures |r| == |columns|
    ensures forall k :: 0 <= k < |columns| ==>
      r[k] == Column(columns[k].id, columns[k].name, Some(columns[k].order.GetOr(k)))
  {
    seq(|columns|, k requires 0 <= k < |columns| => columns[k].(order := Some(columns[k].order.GetOr(k))))
  }

  /** The orders filled in by reorderColumns never reach the server: the request numbers columns by position anyway. */
  lemma FilledOrdersAreNotSent(columns: seq<Column>)
    ensures Columns.ReorderPayload(ColumnsWithOrder(columns)) == Columns.ReorderPayload(columns)
  {
    Columns.PayloadIgnoresOrders(ColumnsWithOrder(columns), columns);
  }

  /** How one operation ends: the messages its `onError` prop received, and whether its promise rejects. */
  datatype Settlement = Settlement(notified: seq<string>, rejected: bool)

  /** Whether the boards hook offers `setError`. */
  predicate SetErrorProvided() {
    "setError" in Boards.Members
  }

  /**
    The error handler as written: `clearError()`, then `setError(error)`,
    then `onError(error || fallback)`. It returns the message it notified,
    or None when it threw before notifying.
  */
  function ErrorHandlerAsWritten(error: string, fallback: string): (r: Option<string>)
    ensures r.None?
  {
    if SetErrorProvided() then Some(OrElse(error, fallback)) else None
  }

  /**
    An operation as written, given the callback its useColumns handler
    calls first. A callback that throws inside the handler's `try` sends
    it to the `catch`, which calls the error callback with the fixed
    message; a throw there leaves the handler.
  */
  function RunAsWritten<T>(first: Columns.Callback<T>, callReturned: bool, threwMessage: string, fallback: string): (s: Settlement)
  {
    match first
    case OnSuccess(_) => Settlement([], false)
    case OnError(message) =>
      var run := ErrorHandlerAsWritten(message, fallback);
      if run.Some? then Settlement([run.value], false)
      else if callReturned then
        var retry := ErrorHandlerAsWritten(threwMessage, fallback);
        if retry.Some? then Settlement([retry.value], false) else Settlement([], true)
      else Settlement([], true)
  }

  /** As written, no failure is ever shown: the operation rejects and `onError` receives nothing. */
  lemma FailureIsNeverReported<T>(first: Columns.Callback<T>, callReturned: bool, threwMessage: string, fallback: string)
    requires first.OnError?
    ensures RunAsWritten(first, callReturned, threwMessage, fallback) == Settlement([], true)
  {
    var r1 := ErrorHandlerAsWritten(first.message, fallback);
    var r2 := ErrorHandlerAsWritten(threwMessage, fallback);
    assert r1.None? && r2.None?;
  }

  /** A concrete failed addColumns: the server answers `{ success: false, error: "Board not found" }`. */
  lemma RejectedAddExample()
    ensures var call: ApiUtils.Call<Boards.OneOrMany<Column>> := ApiUtils.Returned(ApiUtils.ApiResponse(false, None, "Board not found"));
      RunAsWritten(Columns.HandleAddColumns(call), true, Columns.AddThrew, Columns.AddFailed) == Settlement([], true)
  {
    var call: ApiUtils.Call<Boards.OneOrMany<Column>> := ApiUtils.Returned(ApiUtils.ApiResponse(false, None, "Board not found"));
    FailureIsNeverReported(Columns.HandleAddColumns(call), true, Columns.AddThrew, Columns.AddFailed);
  }

  /** The evidently intended handler: it records the error on the boards hook and notifies once, so the promise resolves. */
  function RunCorrected<T>(first: Columns.Callback<T>, fallback: string): (s: Settlement)
    ensures first.OnSuccess? ==> s == Settlement([], false)
    ensures first.OnError? ==> s == Settlement([OrElse(first.message, fallback)], false)
  {
    match first
    case OnSuccess(_) => Settlement([], false)
    case OnError(message) => Settlement([OrElse(message, fallback)], false)
  }

  /** Corrected, every operation resolves and reports exactly its failures, each once. */
  lemma CorrectedReportsEachFailure<T>(first: Columns.Callback<T>, fallback: string)
    ensures !RunCorrected(first, fallback).rejected
    ensures |RunCorrected(first, fallback).notified| == if first.OnError? then 1 else 0
  {
  }

  /**
    The hook over its own boards hook (`store`) and the board it was given.
    Each operation takes the outcome of its call and returns the message
    passed to `onError`, if any.
  */
  class ColumnManager {
    const boardId: int
    const board: Option<Board>
    const store: Boards.BoardStore

    constructor(boardId: int, board: Option<Board>, store: Boards.BoardStore)
      ensures this.boardId == boardId && this.board == board && this.store == store
    {
      this.boardId := boardId;
      this.board := board;
      this.store := store;
    }

    /** The failure path, as intended: clearError, record the error, notify with it or the fallback. */
    method Fail(error: string, fallback: string) returns (notice: Option<string>)
      modifies store
      ensures store.error == Some(error) && notice == Some(OrElse(error, fallback))
      ensures store.boards == old(store.boards) && store.isLoading == old(store.isLoading)
      ensures store.isCreating == old(store.isCreating) && store.hasFetched == old(store.hasFetched)
    {
      store.ClearError();
      store.error := Some(error);
      notice := Some(OrElse(error, fallback));
    }

    /** addColumns: success appends the server's columns to the board's; failure reports. */
    method AddColumns(call: ApiUtils.Call<Boards.OneOrMany<Column>>) returns (notice: Option<string>)
      modifies store
      ensures var cb := Columns.HandleAddColumns(call);
        && (cb.OnSuccess? ==>
              store.boards == Boards.UpdatedBoards(old(store.boards), boardId, Boards.BoardUpdate(None, Some(ColumnsAfterAdd(board, cb.data))))
              && notice.None? && store.error == old(store.error))
        && (cb.OnError? ==>
              store.boards == old(store.boards) && store.error == Some(cb.message)
              && notice == Some(OrElse(cb.message, Columns.AddFailed)))
        && RunCorrected(cb, Columns.AddFailed).notified == (if notice.Some? then [notice.value] else [])
    {
      match Columns.HandleAddColumns(call) {
        case OnSuccess(newColumnsData) =>
          store.UpdateBoard(boardId, Boards.BoardUpdate(None, Some(ColumnsAfterAdd(board, newColumnsData))));
          notice := None;
        case OnError(error) =>
          notice := Fail(error, Columns.AddFailed);
      }
    }

    /** updateColumn: success renames the matching column and sets its order (0 when none was given); failure reports. */
    method UpdateColumn(columnId: int, name: string, order: Option<int>, call: ApiUtils.Call<Column>)
      returns (request: Columns.ColumnChange, notice: Option<string>)
      modifies store
      ensures request == Columns.ColumnChange(name, order.GetOr(0))
      ensures var cb := Columns.HandleUpdateColumn(call);
        && (cb.OnSuccess? ==>
              store.boards == Boards.UpdatedBoards(old(store.boards), boardId,
                                Boards.BoardUpdate(None, Some(ColumnsAfterUpdate(board, columnId, name, order))))
              && notice.None? && store.error == old(store.error))
        && (cb.OnError? ==>
              store.boards == old(store.boards) && store.error == Some(cb.message)
              && notice == Some(OrElse(cb.message, Columns.UpdateFailed)))
        && RunCorrected(cb, Columns.UpdateFailed).notified == (if notice.Some? then [notice.value] else [])
    {
      var columnOrder := order.GetOr(0);
      request := Columns.ColumnChange(name, columnOrder);
      match Columns.HandleUpdateColumn(call) {
        case OnSuccess(_) =>
          store.UpdateBoard(boardId, Boards.BoardUpdate(None, Some(Columns.RenameColumn(CurrentColumns(board), columnId, name, columnOrder))));
          notice := None;
        case OnError(error) =>
          notice := Fail(error, Columns.UpdateFailed);
      }
    }

    /** deleteColumn: success drops the matching column; failure reports. */
    method DeleteColumn(columnId: int, call: ApiUtils.Call<Column>) returns (notice: Option<string>)
      modifies store
      ensures var cb := Columns.HandleDeleteColumn(call);
        && (cb.OnSuccess? ==>
              store.boards == Boards.UpdatedBoards(old(store.boards), boardId,
                                Boards.BoardUpdate(None, Some(ColumnsAfterDelete(board, columnId))))
              && notice.None? && store.error == old(store.error))
        && (cb.OnError? ==>
              store.boards == old(store.boards) && store.error == Some(cb.message)
              && notice == Some(OrElse(cb.message, Columns.DeleteFailed)))
        && RunCorrected(cb, Columns.DeleteFailed).notified == (if notice.Some? then [notice.value] else [])
    {
      match Columns.HandleDeleteColumn(call) {
        case OnSuccess(_) =>
          store.UpdateBoard(boardId, Boards.BoardUpdate(None, Some(ColumnsAfterDelete(board, columnId))));
          notice := None;
        case OnError(error) =>
          notice := Fail(error, Columns.DeleteFailed);
      }
    }

    /** reorderColumns: sends the ids by position; success replaces the columns by the server's list; failure reports. */
    method ReorderColumns(reorderedColumns: seq<Column>, call: ApiUtils.Call<seq<Column>>)
      returns (request: seq<Columns.ColumnPosition>, notice: Option<string>)
      modifies store
      ensures request == Columns.ReorderPayload(reorderedColumns)
      ensures var cb := Columns.HandleReorderColumns(call);
        && (cb.OnSuccess? ==>
              store.boards == Boards.UpdatedBoards(old(store.boards), boardId, Boards.BoardUpdate(None, Some(cb.data)))
              && notice.None? && store.error == old(store.error))
        && (cb.OnError? ==>
              store.boards == old(store.boards) && store.error == Some(cb.message)
              && notice == Some(OrElse(cb.message, Columns.ReorderFailed)))
        && RunCorrected(cb, Columns.ReorderFailed).notified == (if notice.Some? then [notice.value] else [])
    {
      var columnsWithOrder := ColumnsWithOrder(reorderedColumns);
      request := Columns.ReorderPayload(columnsWithOrder);
      FilledOrdersAreNotSent(reorderedColumns);
      match Columns.HandleReorderColumns(call) {
        case OnSuccess(reorderedColumnsData) =>
          store.UpdateBoard(boardId, Boards.BoardUpdate(None, Some(reorderedColumnsData)));
          notice := None;
        case OnError(error) =>
          notice := Fail(error, Columns.ReorderFailed);
      }
    }
  }
}
