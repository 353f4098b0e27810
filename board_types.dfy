/**
  The board entities as the front end holds them (app/components/board/types.ts).
  JavaScript's optional properties become `Option` values; an optional string
  that the code only ever tests for truthiness is a `string` with "" for absent.
*/
module BoardTypes {
  import opened Wrappers

  /** A task card; `order` is optional in the source and may be `undefined`. */
  datatype Task = Task(id: string, title: string, description: Option<string>, columnId: int, order: Option<int>)

  /** A board column as the boards hooks hold it (order optional). */
  datatype Column = Column(id: int, name: string, order: Option<int>)

  /** A column in the column modal and its hooks, where `order` is always present. */
  datatype OrderedColumn = OrderedColumn(id: int, name: string, order: int)

  /** A board with its columns; other properties of a board play no part in the core. */
  datatype Board = Board(id: int, name: string, columns: seq<Column>)

  /**
    The update payload of a task (TaskUpdateData). Its column key is spelled
    `column_id` as in the request body, not `columnId` as in Task.
  */
  datatype TaskUpdateData = TaskUpdateData(title: Option<string>, description: Option<string>, column_id: Option<int>, order: Option<int>)

  /** `x || fallback` for a string: the empty string counts as absent. */
  function OrElse(x: string, fallback: string): (r: string)
    ensures x != "" ==> r == x
    ensures x == "" ==> r == fallback
  {
    if x != "" then x else fallback
  }

  /** `order || fallback`: an order that is `undefined` or 0 gives the fallback. */
  function OrderOr(order: Option<int>, fallback: int): (r: int)
    ensures order.Some? && order.value != 0 ==> r == order.value
    ensures order.None? || order == Some(0) ==> r == fallback
  {
    if order.Some? && order.value != 0 then order.value else fallback
  }
}
