/**
  The boards hook (app/hooks/useBoards.ts): the list of boards, the loading
  and creating flags, the error message, and the operations that set them
  around a remote call. Each operation is taken as one step, given the
  call's outcome.
*/
module Boards {
  import opened Wrappers
  import opened BoardTypes
  import opened ApiUtils

  /** A payload that may be one object or an array of them (`Array.isArray`). */
  datatype OneOrMany<T> = One(item: T) | Many(items: seq<T>)

  /** `Array.isArray(data) ? data : [data]`. */
  function AsList<T>(data: OneOrMany<T>): (r: seq<T>)
    ensures data.One? ==> r == [data.item]
    ensures data.Many? ==> r == data.items
  {
    match data
    case One(item) => [item]
    case Many(items) => items
  }

  /** `Array.isArray(data) ? data[0] : data`; index 0 of an empty array is `undefined`. */
  function FirstOf<T>(data: OneOrMany<T>): (r: Option<T>)
    ensures data.One? ==> r == Some(data.item)
    ensures data.Many? && data.items != [] ==> r == Some(data.items[0])
    ensures data.Many? && data.items == [] ==> r.None?
  {
    match data
    case One(item) => Some(item)
    case Many(items) => if items != [] then Some(items[0]) else None
  }

  /** The properties a `Partial<Board>` may carry; an absent one is left as it is. */
  datatype BoardUpdate = BoardUpdate(name: Option<string>, columns: Option<seq<Column>>)

  /** `{ ...board, ...updates }`. */
  function MergeBoard(board: Board, updates: BoardUpdate): (r: Board)
    ensures r.id == board.id
    ensures r.name == updates.name.GetOr(board.name)
    ensures r.columns == updates.columns.GetOr(board.columns)
  {
    Board(board.id, updates.name.GetOr(board.name), updates.columns.GetOr(board.columns))
  }

  /** updateBoard's map: every board with the id takes the updates, the others stay as they are. */
  function UpdatedBoards(boards: seq<Board>, boardId: int, updates: BoardUpdate): (r: seq<Board>)
    ensures |r| == |boards|
    ensures forall k :: 0 <= k < |boards| ==>
      r[k] == if boards[k].id == boardId then MergeBoard(boards[k], updates) else boards[k]
  {
    seq(|boards|, k requires 0 <= k < |boards| => if boards[k].id == boardId then MergeBoard(boards[k], updates) else boards[k])
  }

  /** An update keeps every id in its place, and one for an id no board has changes nothing. */
  lemma UpdateKeepsIds(boards: seq<Board>, boardId: int, updates: BoardUpdate)
    ensures forall k :: 0 <= k < |boards| ==> UpdatedBoards(boards, boardId, updates)[k].id == boards[k].id
    ensures (forall k :: 0 <= k < |boards| ==> boards[k].id != boardId) ==> UpdatedBoards(boards, boardId, updates) == boards
  {
  }

  /** The first board with the id (`find`). */
  function FindBoard(boards: seq<Board>, boardId: int): (r: Option<Board>)
    ensures r.None? <==> forall k :: 0 <= k < |boards| ==> boards[k].id != boardId
    ensures r.Some? ==> r.value.id == boardId && exists k :: (0 <= k < |boards| && boards[k] == r.value
      && forall j :: 0 <= j < k ==> boards[j].id != boardId)
    decreases |boards|
  {
    if boards == [] then None
    else if boards[0].id == boardId then Some(boards[0])
    else
      var r := FindBoard(boards[1..], boardId);
      assert forall k :: 1 <= k < |boards| ==> boards[k] == boards[1..][k - 1];
      if r.Some? then
        var k :| 0 <= k < |boards[1..]| && boards[1..][k] == r.value
          && forall j :: 0 <= j < k ==> boards[1..][j].id != boardId;
        assert forall j :: 0 <= j < k + 1 ==> boards[j].id != boardId by {
          forall j | 0 <= j < k + 1 ensures boards[j].id != boardId {
            if j > 0 { assert boards[j] == boards[1..][j - 1]; }
          }
        }
        r
      else r
  }

  /** createNewBoard's result: `{ success: true, board }` or `{ success: false, error }`. */
  datatype CreateResult = Created(board: Board) | NotCreated(error: string)

  const FetchFailed := "Failed to fetch boards"
  const FetchThrew := "An error occurred while fetching boards"
  const CreateFailed := "Failed to create board"
  const CreateThrew := "An error occurred while creating the board"

  /**
    The names of what useBoards returns. `setError`, `fetchAllBoards` and
    `fetchSpecificBoard`, which callers use, are not among them.
  */
  const Members: set<string> := {"boards", "isLoading", "isCreating", "error", "hasFetched", "setHasFetched",
                                 "fetchBoards", "createNewBoard", "updateBoard", "clearError"}

  class BoardStore {
    var boards: seq<Board>
    var isLoading: bool
    var isCreating: bool
    var error: Option<string>
    var hasFetched: bool

    constructor()
      ensures boards == [] && !isLoading && !isCreating && error.None? && !hasFetched
    {
      boards := [];
      isLoading := false;
      isCreating := false;
      error := None;
      hasFetched := false;
    }

    /**
      fetchBoards: a success with data replaces the list by the data,
      wrapped in a list when it is one board; otherwise the list stays and
      the error is set. Loading ends false.
    */
    method FetchBoards(call: Call<OneOrMany<Board>>)
      modifies this
      ensures !isLoading && isCreating == old(isCreating) && hasFetched == old(hasFetched)
      ensures call.Returned? && call.response.success && call.response.data.Some? ==>
        boards == AsList(call.response.data.value) && error.None?
      ensures call.Returned? && !(call.response.success && call.response.data.Some?) ==>
        boards == old(boards) && error == Some(OrElse(call.response.error, FetchFailed))
      ensures call.Threw? ==> boards == old(boards) && error == Some(FetchThrew)
    {
      isLoading := true;
      error := None;
      match call {
        case Returned(response) =>
          if response.success && response.data.Some? {
            var boardsArray := AsList(response.data.value);
            boards := boardsArray;
          } else {
            error := Some(OrElse(response.error, FetchFailed));
          }
        case Threw =>
          error := Some(FetchThrew);
      }
      isLoading := false;
    }

    /**
      createNewBoard: a success with data appends exactly one entry, the
      board or the first of the array, and reports it; otherwise the list
      stays, the error is set and the response's error is returned.
      Creating ends false.
    */
    method CreateNewBoard(call: Call<OneOrMany<Board>>) returns (result: CreateResult)
      requires call.Returned? && call.response.success && call.response.data.Some? ==> FirstOf(call.response.data.value).Some?
      modifies this
      ensures !isCreating && isLoading == old(isLoading) && hasFetched == old(hasFetched)
      ensures call.Returned? && call.response.success && call.response.data.Some? ==>
        var newBoard := FirstOf(call.response.data.value).value;
        boards == old(boards) + [newBoard] && result == Created(newBoard) && error.None?
      ensures call.Returned? && !(call.response.success && call.response.data.Some?) ==>
        boards == old(boards) && error == Some(OrElse(call.response.error, CreateFailed))
        && result == NotCreated(call.response.error)
      ensures call.Threw? ==> boards == old(boards) && error == Some(CreateThrew) && result == NotCreated(CreateThrew)
    {
      isCreating := true;
      error := None;
      match call {
        case Returned(response) =>
          if response.success && response.data.Some? {
            var newBoard := FirstOf(response.data.value).value;
            boards := boards + [newBoard];
            result := Created(newBoard);
          } else {
            error := Some(OrElse(response.error, CreateFailed));
            result := NotCreated(response.error);
          }
        case Threw =>
          error := Some(CreateThrew);
          result := NotCreated(CreateThrew);
      }
      isCreating := false;
    }

    /** updateBoard: merges the updates into every board with the id; nothing else changes. */
    method UpdateBoard(boardId: int, updates: BoardUpdate)
      modifies this
      ensures boards == UpdatedBoards(old(boards), boardId, updates)
      ensures isLoading == old(isLoading) && isCreating == old(isCreating)
      ensures error == old(error) && hasFetched == old(hasFetched)
    {
      boards := UpdatedBoards(boards, boardId, updates);
    }

    /** clearError. */
    method ClearError()
      modifies this
      ensures error.None?
      ensures boards == old(boards) && isLoading == old(isLoading) && isCreating == old(isCreating)
      ensures hasFetched == old(hasFetched)
    {
      error := None;
    }

    /** setHasFetched: writes the ref. */
    method SetHasFetched(value: bool)
      modifies this
      ensures hasFetched == value
      ensures boards == old(boards) && isLoading == old(isLoading) && isCreating == old(isCreating)
      ensures error == old(error)
    {
      hasFetched := value;
    }
  }
}
