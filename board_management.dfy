/**
  The board dashboard's hook (app/hooks/useBoardManagement.ts): the boards
  hook paginated four to a page, board creation that returns to the first
  page, and the column operations applied to the board found by id in the
  boards hook's own list.

  As in the board view's hook, the failure path calls the missing
  `setError`: as written, `clearError` has already emptied the error, the
  TypeError leaves the handler through its `catch`, and the operation
  rejects. The class models the intended handler, which records the error.
*/
module BoardManagement {
  import opened Wrappers
  import opened BoardTypes
  import ApiUtils
  import Boards
  import Columns
  import Pagination
  import BoardColumnManagement

  /** ITEMS_PER_PAGE. */
  const ItemsPerPage: nat := 4

  /** `boards.find(b => b.id === boardId)?.columns`. */
  function ColumnsOf(boards: seq<Board>, boardId: int): (r: Option<seq<Column>>)
    ensures r.None? <==> Boards.FindBoard(boards, boardId).None?
    ensures r.Some? ==> r.value == Boards.FindBoard(boards, boardId).value.columns
  {
    var b := Boards.FindBoard(boards, boardId);
    if b.Some? then Some(b.value.columns) else None
  }

  /** handleAddColumns' new list: `[...(columns || []), ...newColumns]`. */
  function ColumnsAfterAdd(boards: seq<Board>, boardId: int, newColumns: seq<Column>): (r: seq<Column>)
    ensures r == BoardColumnManagement.ColumnsAfterAdd(Boards.FindBoard(boards, boardId), newColumns)
  {
    ColumnsOf(boards, boardId).GetOr([]) + newColumns
  }

  /** handleUpdateColumn's new list: the found board's columns renamed, or [] when there is no such board. */
  function ColumnsAfterUpdate(boards: seq<Board>, boardId: int, columnId: int, name: string, order: int): (r: seq<Column>)
    ensures r == BoardColumnManagement.ColumnsAfterUpdate(Boards.FindBoard(boards, boardId), columnId, name, Some(order))
  {
    var cols := ColumnsOf(boards, boardId);
    if cols.Some? then Columns.RenameColumn(cols.value, columnId, name, order) else []
  }

  /** handleDeleteColumn's new list: the found board's columns without the column, or []. */
  function ColumnsAfterDelete(boards: seq<Board>, boardId: int, columnId: int): (r: seq<Column>)
    ensures r == BoardColumnManagement.ColumnsAfterDelete(Boards.FindBoard(boards, boardId), columnId)
  {
    var cols := ColumnsOf(boards, boardId);
    if cols.Some? then Columns.RemoveColumn(cols.value, columnId) else []
  }

  /** The error state a failure leaves as written: clearError ran, then setError threw. */
  function ErrorAfterFailureAsWritten(before: Option<string>, error: string): (r: Option<string>)
    ensures r.None?
  {
    if BoardColumnManagement.SetErrorProvided() then Some(error) else None
  }

  /** As written, a failed column operation erases the error message instead of showing it. */
  lemma FailureErasesError(before: Option<string>, error: string)
    ensures ErrorAfterFailureAsWritten(before, error) != Some(error)
  {
  }

  class BoardManager {
    const store: Boards.BoardStore
    const pagination: Pagination.Paginator

    constructor(store: Boards.BoardStore, pagination: Pagination.Paginator)
      requires pagination.currentPage == 1
      ensures this.store == store && this.pagination == pagination
    {
      this.store := store;
      this.pagination := pagination;
    }

    /** paginatedBoards: the current page of the boards, at most four of them. */
    function PaginatedBoards(): (r: seq<Board>)
      reads this, store, pagination
      ensures pagination.currentPage >= 1 ==> |r| <= ItemsPerPage
      ensures pagination.currentPage == 1 ==> r == store.boards[..if |store.boards| < ItemsPerPage then |store.boards| else ItemsPerPage]
    {
      Pagination.PageItems(store.boards, pagination.currentPage, ItemsPerPage)
    }

    /** handleCreateBoard: creates, returns to page 1 only on success, and returns the result unchanged. */
    method HandleCreateBoard(call: ApiUtils.Call<Boards.OneOrMany<Board>>) returns (result: Boards.CreateResult)
      requires call.Returned? && call.response.success && call.response.data.Some? ==> Boards.FirstOf(call.response.data.value).Some?
      modifies store, pagination
      ensures result.Created? ==> pagination.currentPage == 1
      ensures result.NotCreated? ==> pagination.currentPage == old(pagination.currentPage)
      ensures call.Returned? && call.response.success && call.response.data.Some? ==>
        result == Boards.Created(Boards.FirstOf(call.response.data.value).value)
        && store.boards == old(store.boards) + [result.board]
      ensures !(call.Returned? && call.response.success && call.response.data.Some?) ==>
        result.NotCreated? && store.boards == old(store.boards)
    {
      result := store.CreateNewBoard(call);
      if result.Created? {
        pagination.ResetToFirstPage();
      }
    }

    /** The failure path, as intended: clearError, then record the error. */
    method Fail(error: string)
      modifies store
      ensures store.error == Some(error) && store.boards == old(store.boards)
      ensures store.isLoading == old(store.isLoading) && store.isCreating == old(store.isCreating)
      ensures store.hasFetched == old(store.hasFetched)
    {
      store.ClearError();
      store.error := Some(error);
    }

    /** handleAddColumns: the server's columns go after the found board's current ones. */
    method HandleAddColumns(boardId: int, call: ApiUtils.Call<Boards.OneOrMany<Column>>)
      modifies store
      ensures var cb := Columns.HandleAddColumns(call);
        && (cb.OnSuccess? ==>
              store.boards == Boards.UpdatedBoards(old(store.boards), boardId,
                                Boards.BoardUpdate(None, Some(ColumnsAfterAdd(old(store.boards), boardId, cb.data))))
              && store.error == old(store.error))
        && (cb.OnError? ==> store.boards == old(store.boards) && store.error == Some(cb.message))
    {
      match Columns.HandleAddColumns(call) {
        case OnSuccess(newColumns) =>
          store.UpdateBoard(boardId, Boards.BoardUpdate(None, Some(ColumnsOf(store.boards, boardId).GetOr([]) + newColumns)));
        case OnError(error) =>
          Fail(error);
      }
    }

    /** handleUpdateColumn: only the matching column of the found board takes the name and order. */
    method HandleUpdateColumn(boardId: int, columnId: int, name: string, order: int, call: ApiUtils.Call<Column>)
      modifies store
      ensures var cb := Columns.HandleUpdateColumn(call);
        && (cb.OnSuccess? ==>
              store.boards == Boards.UpdatedBoards(old(store.boards), boardId,
                                Boards.BoardUpdate(None, Some(ColumnsAfterUpdate(old(store.boards), boardId, columnId, name, order))))
              && store.error == old(store.error))
        && (cb.OnError? ==> store.boards == old(store.boards) && store.error == Some(cb.message))
    {
      match Columns.HandleUpdateColumn(call) {
        case OnSuccess(_) =>
          store.UpdateBoard(boardId, Boards.BoardUpdate(None, Some(ColumnsAfterUpdate(store.boards, boardId, columnId, name, order))));
        case OnError(error) =>
          Fail(error);
      }
    }

    /** handleDeleteColumn: only the matching column of the found board goes. */
    method HandleDeleteColumn(boardId: int, columnId: int, call: ApiUtils.Call<Column>)
      modifies store
      ensures var cb := Columns.HandleDeleteColumn(call);
        && (cb.OnSuccess? ==>
              store.boards == Boards.UpdatedBoards(old(store.boards), boardId,
                                Boards.BoardUpdate(None, Some(ColumnsAfterDelete(old(store.boards), boardId, columnId))))
              && store.error == old(store.error))
        && (cb.OnError? ==> store.boards == old(store.boards) && store.error == Some(cb.message))
    {
      match Columns.HandleDeleteColumn(call) {
        case OnSuccess(_) =>
          store.UpdateBoard(boardId, Boards.BoardUpdate(None, Some(ColumnsAfterDelete(store.boards, boardId, columnId))));
        case OnError(error) =>
          Fail(error);
      }
    }

    /** handleReorderColumns: the board's columns become the server's list. */
    method HandleReorderColumns(boardId: int, columns: seq<Column>, call: ApiUtils.Call<seq<Column>>)
      returns (request: seq<Columns.ColumnPosition>)
      modifies store
      ensures request == Columns.ReorderPayload(columns)
      ensures var cb := Columns.HandleReorderColumns(call);
        && (cb.OnSuccess? ==>
              store.boards == Boards.UpdatedBoards(old(store.boards), boardId, Boards.BoardUpdate(None, Some(cb.data)))
              && store.error == old(store.error))
        && (cb.OnError? ==> store.boards == old(store.boards) && store.error == Some(cb.message))
    {
      request := Columns.ReorderPayload(columns);
      match Columns.HandleReorderColumns(call) {
        case OnSuccess(reorderedColumns) =>
          store.UpdateBoard(boardId, Boards.BoardUpdate(None, Some(reorderedColumns)));
        case OnError(error) =>
          Fail(error);
      }
    }
  }

  /** A column operation on a board changes that board's columns only: every other board, and every board's name and id, stay. */
  lemma ColumnUpdateTouchesOneBoard(boards: seq<Board>, boardId: int, columns: seq<Column>, k: nat)
    requires k < |boards|
    ensures var r := Boards.UpdatedBoards(boards, boardId, Boards.BoardUpdate(None, Some(columns)));
      && r[k].id == boards[k].id && r[k].name == boards[k].name
      && (boards[k].id != boardId ==> r[k] == boards[k])
      && (boards[k].id == boardId ==> r[k].columns == columns)
  {
  }
}
