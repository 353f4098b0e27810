/**
  The task drag session (app/components/board/hooks/useTaskDragAndDrop.ts):
  the dragged task and the hovered column, set and cleared by five event
  handlers. A drop is answered by at most one callback, returned here as a
  `DropCall` instead of being invoked.
*/
module TaskDragAndDrop {
  import opened Wrappers

  /** `{ taskId, columnId }` of the task being dragged. */
  datatype DraggedTask = DraggedTask(taskId: string, columnId: int)

  /** A rectangle in client coordinates, as getBoundingClientRect reports it. */
  datatype Rect = Rect(left: int, top: int, right: int, bottom: int)

  /** The callback a drop invokes, if any. */
  datatype DropCall =
    | NoCall
    | MoveCall(taskId: string, fromColumnId: int, toColumnId: int)
    | ReorderCall(taskId: string, fromOrder: int, toOrder: int, columnId: int)

  /** The pointer is strictly outside the rectangle; a point on its border is inside. */
  predicate Outside(x: int, y: int, rect: Rect) {
    x < rect.left || x > rect.right || y < rect.top || y > rect.bottom
  }

  /**
    The callback a drop on `columnId` invokes. `orderData` is the number in
    the 'text/order' drag data, None when that data is empty; `hasReorder`
    tells whether an onTaskReorder prop was given.
  */
  function DropDecision(dragged: Option<DraggedTask>, columnId: int, targetOrder: Option<int>,
                        orderData: Option<int>, hasReorder: bool): (call: DropCall)
    ensures dragged.None? ==> call == NoCall
    ensures call.MoveCall? <==> dragged.Some? && dragged.value.columnId != columnId
    ensures call.MoveCall? ==> call == MoveCall(dragged.value.taskId, dragged.value.columnId, columnId)
    ensures call.ReorderCall? <==>
      dragged.Some? && dragged.value.columnId == columnId && hasReorder && targetOrder.Some?
    ensures call.ReorderCall? ==>
      call == ReorderCall(dragged.value.taskId, orderData.GetOr(1), targetOrder.value, columnId)
  {
    if dragged.None? then NoCall
    else if dragged.value.columnId != columnId then MoveCall(dragged.value.taskId, dragged.value.columnId, columnId)
    else if hasReorder && targetOrder.Some? then ReorderCall(dragged.value.taskId, orderData.GetOr(1), targetOrder.value, columnId)
    else NoCall
  }

  /** A move always goes from the column the drag started in to another one. */
  lemma MoveChangesColumn(dragged: Option<DraggedTask>, columnId: int, targetOrder: Option<int>, orderData: Option<int>, hasReorder: bool)
    ensures var call := DropDecision(dragged, columnId, targetOrder, orderData, hasReorder);
      call.MoveCall? ==> call.fromColumnId != call.toColumnId
  {
  }

  /** A reorder never crosses columns: it stays in the column the drag started in. */
  lemma ReorderStaysInColumn(dragged: Option<DraggedTask>, columnId: int, targetOrder: Option<int>, orderData: Option<int>, hasReorder: bool)
    ensures var call := DropDecision(dragged, columnId, targetOrder, orderData, hasReorder);
      call.ReorderCall? ==> dragged.Some? && call.columnId == dragged.value.columnId
  {
  }

  class TaskDragSession {
    var draggedTask: Option<DraggedTask>
    var dragOverColumn: Option<int>

    constructor()
      ensures draggedTask.None? && dragOverColumn.None?
    {
      draggedTask := None;
      dragOverColumn := None;
    }

    /** handleDragStart: records the task; the hovered column stays. */
    method HandleDragStart(taskId: string, columnId: int)
      modifies this
      ensures draggedTask == Some(DraggedTask(taskId, columnId))
      ensures dragOverColumn == old(dragOverColumn)
    {
      draggedTask := Some(DraggedTask(taskId, columnId));
    }

    /** handleDragEnd: clears both fields unconditionally. */
    method HandleDragEnd()
      modifies this
      ensures draggedTask.None? && dragOverColumn.None?
    {
      draggedTask := None;
      dragOverColumn := None;
    }

    /** handleDragOver: the given column becomes the hovered one. */
    method HandleDragOver(columnId: int)
      modifies this
      ensures dragOverColumn == Some(columnId)
      ensures draggedTask == old(draggedTask)
    {
      dragOverColumn := Some(columnId);
    }

    /** handleDragLeave: clears the hovered column only when the pointer left the rectangle. */
    method HandleDragLeave(x: int, y: int, rect: Rect)
      modifies this
      ensures Outside(x, y, rect) ==> dragOverColumn.None?
      ensures !Outside(x, y, rect) ==> dragOverColumn == old(dragOverColumn)
      ensures draggedTask == old(draggedTask)
    {
      if x < rect.left || x > rect.right || y < rect.top || y > rect.bottom {
        dragOverColumn := None;
      }
    }

    /**
      handleDrop: without a dragged task nothing happens; otherwise the
      callback DropDecision names is invoked and both fields are cleared.
    */
    method HandleDrop(columnId: int, targetOrder: Option<int>, orderData: Option<int>, hasReorder: bool)
      returns (call: DropCall)
      modifies this
      ensures call == DropDecision(old(draggedTask), columnId, targetOrder, orderData, hasReorder)
      ensures old(draggedTask).None? ==> draggedTask == old(draggedTask) && dragOverColumn == old(dragOverColumn)
      ensures old(draggedTask).Some? ==> draggedTask.None? && dragOverColumn.None?
    {
      if draggedTask.None? {
        return NoCall;
      }
      var taskId := draggedTask.value.taskId;
      var fromColumnId := draggedTask.value.columnId;
      if fromColumnId != columnId {
        call := MoveCall(taskId, fromColumnId, columnId);
      } else if hasReorder && targetOrder.Some? {
        var fromOrder := orderData.GetOr(1);
        call := ReorderCall(taskId, fromOrder, targetOrder.value, columnId);
      } else {
        call := NoCall;
      }
      draggedTask := None;
      dragOverColumn := None;
    }

    /** isTaskBeingDragged: the dragged task has this id. */
    function IsTaskBeingDragged(taskId: string): (r: bool)
      reads this
      ensures r ==> draggedTask.Some?
      ensures draggedTask.Some? ==> (r <==> draggedTask.value.taskId == taskId)
    {
      draggedTask.Some? && draggedTask.value.taskId == taskId
    }

    /** isColumnBeingDraggedOver: the hovered column is this one. */
    function IsColumnBeingDraggedOver(columnId: int): (r: bool)
      reads this
      ensures r <==> dragOverColumn == Some(columnId)
    {
      dragOverColumn == Some(columnId)
    }
  }
}
