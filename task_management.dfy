/**
  The task-list hook (app/hooks/useTaskManagement.ts): a list of tasks that
  every mutating operation changes optimistically and restores from a
  snapshot when the remote call fails. The remote calls are the `Outcome`
  parameters; a reorder's per-task calls are answered by `respond`.

  The hook's own `calculateNewOrder` (lines 81-104) and `updateUI`
  (lines 125-141) are the same code as taskUtils' `calculateNewOrder` and
  `createOptimisticTaskReorder`, so the model uses TaskUtils' definitions.
*/
module TaskManagement {
  import opened Wrappers
  import opened BoardTypes
  import opened Outcomes
  import Text
  import Seqs
  import TaskUtils

  /** `{ ...task, ...updates }` for a TaskUpdateData: its `column_id` key is not `columnId`, so the column stays. */
  function UpdatePatch(updates: TaskUpdateData): (p: TaskUtils.TaskPatch)
    ensures p.id.None? && p.columnId.None?
    ensures p.title == updates.title
  {
    TaskUtils.TaskPatch(None, updates.title,
                        if updates.description.Some? then Some(updates.description) else None,
                        None,
                        if updates.order.Some? then Some(updates.order) else None)
  }

  /** updateTask's optimistic list: only tasks with the id change, and none changes column or id. */
  lemma UpdateKeepsColumnsAndIds(tasks: seq<Task>, taskId: string, updates: TaskUpdateData)
    ensures var r := TaskUtils.CreateOptimisticTaskUpdate(tasks, taskId, UpdatePatch(updates));
      |r| == |tasks| &&
      forall k :: 0 <= k < |r| ==>
        && r[k].columnId == tasks[k].columnId && r[k].id == tasks[k].id
        && (tasks[k].id != taskId ==> r[k] == tasks[k])
        && (tasks[k].id == taskId && updates.title.Some? ==> r[k].title == updates.title.value)
        && (tasks[k].id == taskId && updates.order.Some? ==> r[k].order == updates.order)
        && (tasks[k].id == taskId && updates.description.Some? ==> r[k].description == updates.description)
  {
    var r := TaskUtils.CreateOptimisticTaskUpdate(tasks, taskId, UpdatePatch(updates));
    forall k | 0 <= k < |r| && tasks[k].id == taskId
      ensures r[k].columnId == tasks[k].columnId && r[k].id == tasks[k].id
    {
      TaskUtils.OptimisticUpdateFields(tasks, taskId, UpdatePatch(updates), k);
    }
  }

  /** The first task with the id, as `tasks.find` returns it. */
  function FindTask(tasks: seq<Task>, taskId: string): (r: Option<Task>)
    ensures r.None? <==> forall k :: 0 <= k < |tasks| ==> tasks[k].id != taskId
    ensures r.Some? ==> exists k :: 0 <= k < |tasks| && tasks[k] == r.value && r.value.id == taskId
                                    && forall j :: 0 <= j < k ==> tasks[j].id != taskId
  {
    if tasks == [] then None
    else if tasks[0].id == taskId then Some(tasks[0])
    else
      var r := FindTask(tasks[1..], taskId);
      assert r.Some? ==> exists k :: 0 <= k < |tasks| && tasks[k] == r.value && r.value.id == taskId
                                     && forall j :: 0 <= j < k ==> tasks[j].id != taskId by {
        if r.Some? {
          var k :| 0 <= k < |tasks[1..]| && tasks[1..][k] == r.value && r.value.id == taskId
                   && forall j :: 0 <= j < k ==> tasks[1..][j].id != taskId;
          assert tasks[k + 1] == r.value;
          assert forall j :: 0 <= j < k + 1 ==> tasks[j].id != taskId by {
            forall j | 0 <= j < k + 1 ensures tasks[j].id != taskId {
              if j > 0 { assert tasks[j] == tasks[1..][j - 1]; }
            }
          }
        }
      }
      assert r.None? <==> forall k :: 0 <= k < |tasks| ==> tasks[k].id != taskId by {
        if r.None? {
          forall k | 0 <= k < |tasks| ensures tasks[k].id != taskId {
            if k > 0 { assert tasks[k] == tasks[1..][k - 1]; }
          }
        }
      }
      r
  }

  /** shouldUpdateTask, branch by branch as the source writes it. */
  function ShouldUpdateTask(task: Task, taskId: string, fromOrder: int, toOrder: int): bool {
    if task.id == taskId then true
    else if task.order.None? then false
    else if fromOrder < toOrder then fromOrder < task.order.value <= toOrder
    else if fromOrder > toOrder then toOrder <= task.order.value < fromOrder
    else false
  }

  /** A task is selected for a database update exactly when it is the moved task or calculateNewOrder changes its order. */
  lemma ShouldUpdateIffOrderChanges(task: Task, taskId: string, fromOrder: int, toOrder: int)
    ensures ShouldUpdateTask(task, taskId, fromOrder, toOrder) <==>
      task.id == taskId || TaskUtils.CalculateNewOrder(task, taskId, fromOrder, toOrder) != task.order
  {
  }

  /** With equal positions only the moved task is selected. */
  lemma ShouldUpdateSamePosition(task: Task, taskId: string, order: int)
    ensures ShouldUpdateTask(task, taskId, order, order) <==> task.id == taskId
  {
  }

  /** A selected task always has a new order, so updateDatabase never skips one. */
  lemma ShouldUpdateHasNewOrder(task: Task, taskId: string, fromOrder: int, toOrder: int)
    requires ShouldUpdateTask(task, taskId, fromOrder, toOrder)
    ensures TaskUtils.CalculateNewOrder(task, taskId, fromOrder, toOrder).Some?
  {
  }

  function Selected(taskId: string, fromOrder: int, toOrder: int): Task -> bool {
    (t: Task) => ShouldUpdateTask(t, taskId, fromOrder, toOrder)
  }

  /** The tasks updateDatabase sends an update for: the column's tasks that shouldUpdateTask selects. */
  function TasksToUpdate(tasks: seq<Task>, taskId: string, fromOrder: int, toOrder: int, columnId: int): seq<Task> {
    Seqs.Filter(Seqs.Filter(tasks, TaskUtils.InColumn(columnId)), Selected(taskId, fromOrder, toOrder))
  }

  /** One `{ order }` update request for one task. */
  datatype OrderUpdate = OrderUpdate(taskId: string, order: int)

  /** The requests for a list of tasks, skipping any whose new order is undefined. */
  function UpdatesFor(ts: seq<Task>, taskId: string, fromOrder: int, toOrder: int): seq<OrderUpdate> {
    if ts == [] then []
    else
      var init := UpdatesFor(ts[..|ts| - 1], taskId, fromOrder, toOrder);
      var newOrder := TaskUtils.CalculateNewOrder(ts[|ts| - 1], taskId, fromOrder, toOrder);
      if newOrder.Some? then init + [OrderUpdate(ts[|ts| - 1].id, newOrder.value)] else init
  }

  function PlannedUpdates(tasks: seq<Task>, taskId: string, fromOrder: int, toOrder: int, columnId: int): seq<OrderUpdate> {
    UpdatesFor(TasksToUpdate(tasks, taskId, fromOrder, toOrder, columnId), taskId, fromOrder, toOrder)
  }

  /** For selected tasks the requests are one per task, in list order, carrying calculateNewOrder's value. */
  lemma {:induction false} UpdatesForSelected(ts: seq<Task>, taskId: string, fromOrder: int, toOrder: int)
    requires forall k :: 0 <= k < |ts| ==> ShouldUpdateTask(ts[k], taskId, fromOrder, toOrder)
    ensures var us := UpdatesFor(ts, taskId, fromOrder, toOrder);
      |us| == |ts| && forall k :: 0 <= k < |ts| ==>
        us[k].taskId == ts[k].id && Some(us[k].order) == TaskUtils.CalculateNewOrder(ts[k], taskId, fromOrder, toOrder)
    decreases |ts|
  {
    if ts != [] {
      var init := ts[..|ts| - 1];
      UpdatesForSelected(init, taskId, fromOrder, toOrder);
      ShouldUpdateHasNewOrder(ts[|ts| - 1], taskId, fromOrder, toOrder);
    }
  }

  /**
    updateDatabase issues exactly one request per column task that
    shouldUpdateTask selects, in list order, with calculateNewOrder's value.
  */
  lemma PlannedUpdatesAreSelection(tasks: seq<Task>, taskId: string, fromOrder: int, toOrder: int, columnId: int)
    ensures var sel := TasksToUpdate(tasks, taskId, fromOrder, toOrder, columnId);
      var us := PlannedUpdates(tasks, taskId, fromOrder, toOrder, columnId);
      |us| == |sel| && forall k :: 0 <= k < |sel| ==>
        && sel[k].columnId == columnId && ShouldUpdateTask(sel[k], taskId, fromOrder, toOrder)
        && us[k].taskId == sel[k].id && Some(us[k].order) == TaskUtils.CalculateNewOrder(sel[k], taskId, fromOrder, toOrder)
  {
    var sel := TasksToUpdate(tasks, taskId, fromOrder, toOrder, columnId);
    var column := Seqs.Filter(tasks, TaskUtils.InColumn(columnId));
    assert forall k :: 0 <= k < |sel| ==> sel[k] in column;
    UpdatesForSelected(sel, taskId, fromOrder, toOrder);
  }

  /** The rejection message of one failed request. */
  function RejectMessage(u: OrderUpdate, error: string): string {
    OrElse(error, "Failed to reorder task " + u.taskId)
  }

  /** The message `Promise.all` rejects with, taken as the first failing request in list order; None when all succeed. */
  function FirstFailure(us: seq<OrderUpdate>, respond: OrderUpdate -> Outcome<()>): Option<string> {
    if us == [] then None
    else
      var f := FirstFailure(us[..|us| - 1], respond);
      var last := us[|us| - 1];
      if f.Some? then f
      else if respond(last).Failed? then Some(RejectMessage(last, respond(last).error))
      else None
  }

  /** FirstFailure reports failure exactly when some request fails, and then the first one's message. */
  lemma {:induction false} FirstFailureIsFirst(us: seq<OrderUpdate>, respond: OrderUpdate -> Outcome<()>)
    ensures FirstFailure(us, respond).None? <==> forall k :: 0 <= k < |us| ==> respond(us[k]).Succeeded?
    ensures FirstFailure(us, respond).Some? ==>
      exists k :: 0 <= k < |us| && respond(us[k]).Failed?
        && FirstFailure(us, respond) == Some(RejectMessage(us[k], respond(us[k]).error))
        && forall j :: 0 <= j < k ==> respond(us[j]).Succeeded?
    decreases |us|
  {
    if us != [] {
      var init := us[..|us| - 1];
      FirstFailureIsFirst(init, respond);
      assert forall k :: 0 <= k < |init| ==> init[k] == us[k];
      if FirstFailure(init, respond).Some? {
        var k :| 0 <= k < |init| && respond(init[k]).Failed?
          && FirstFailure(init, respond) == Some(RejectMessage(init[k], respond(init[k]).error))
          && forall j :: 0 <= j < k ==> respond(init[j]).Succeeded?;
        assert respond(us[k]).Failed?;
      }
    }
  }

  /**
    updateDatabase: sends the planned requests one after another and reports
    the first failure; it changes no state.
  */
  method UpdateDatabase(tasks: seq<Task>, taskId: string, fromOrder: int, toOrder: int, columnId: int,
                        respond: OrderUpdate -> Outcome<()>)
    returns (issued: seq<OrderUpdate>, failure: Option<string>)
    ensures issued == PlannedUpdates(tasks, taskId, fromOrder, toOrder, columnId)
    ensures failure == FirstFailure(issued, respond)
  {
    var columnTasks := Seqs.Filter(tasks, TaskUtils.InColumn(columnId));
    var tasksToUpdate := Seqs.Filter(columnTasks, Selected(taskId, fromOrder, toOrder));
    issued := [];
    failure := None;
    var i := 0;
    while i < |tasksToUpdate|
      invariant 0 <= i <= |tasksToUpdate|
      invariant issued == UpdatesFor(tasksToUpdate[..i], taskId, fromOrder, toOrder)
      invariant failure == FirstFailure(issued, respond)
    {
      var task := tasksToUpdate[i];
      assert tasksToUpdate[..i + 1][..i] == tasksToUpdate[..i];
      var newOrder := TaskUtils.CalculateNewOrder(task, taskId, fromOrder, toOrder);
      if newOrder.Some? {
        var u := OrderUpdate(task.id, newOrder.value);
        assert (issued + [u])[..|issued|] == issued;
        issued := issued + [u];
        var reply := respond(u);
        if failure.None? && reply.Failed? {
          failure := Some(RejectMessage(u, reply.error));
        }
      }
      i := i + 1;
    }
    assert tasksToUpdate[..i] == tasksToUpdate;
  }

  /** The task addTask appends, from the created record (taskData.data, else taskData). */
  datatype TaskRecord = TaskRecord(id: int, title: string, description: string, column_id: int, order: Option<int>)

  /** The created task's payload: either wrapped in a further `data` property or bare. */
  datatype CreatedPayload = Wrapped(data: TaskRecord) | Bare(record: TaskRecord)

  function CreatedTask(payload: CreatedPayload): (t: Task)
    ensures var rec := if payload.Wrapped? then payload.data else payload.record;
      && t.id == Text.IntToDecimal(rec.id) && t.title == rec.title && t.columnId == rec.column_id
      && t.description == Some(rec.description)
      && t.order == Some(if rec.order.Some? && rec.order.value != 0 then rec.order.value else 1)
  {
    var rec := if payload.Wrapped? then payload.data else payload.record;
    Task(Text.IntToDecimal(rec.id), rec.title, Some(OrElse(rec.description, "")), rec.column_id, Some(OrderOr(rec.order, 1)))
  }

  function NotId(taskId: string): Task -> bool {
    (t: Task) => t.id != taskId
  }

  /** deleteTask's optimistic list keeps every other task, each as often as before, and no task with the id. */
  lemma DeleteRemovesOnlyId(tasks: seq<Task>, taskId: string)
    ensures forall t :: multiset(Seqs.Filter(tasks, NotId(taskId)))[t] == if t.id == taskId then 0 else multiset(tasks)[t]
  {
    forall t ensures multiset(Seqs.Filter(tasks, NotId(taskId)))[t] == if t.id == taskId then 0 else multiset(tasks)[t] {
      Seqs.FilterMultiplicity(tasks, NotId(taskId), t);
    }
  }

  class TaskManager {
    var tasks: seq<Task>

    constructor()
      ensures tasks == []
    {
      tasks := [];
    }

    /** setTasks, as the hook hands it out: replaces the list. */
    method SetTasks(ts: seq<Task>)
      modifies this
      ensures tasks == ts
    {
      tasks := ts;
    }

    /** updateTask: merge into the matching tasks; on failure restore `originalTasks` when given, else the list as it was. */
    method UpdateTask(taskId: string, updates: TaskUpdateData, originalTasks: Option<seq<Task>>, outcome: Outcome<()>)
      returns (notice: Notice)
      modifies this
      ensures outcome.Succeeded? ==>
        tasks == TaskUtils.CreateOptimisticTaskUpdate(old(tasks), taskId, UpdatePatch(updates))
        && notice == SuccessNotice("Task updated successfully")
      ensures outcome.Failed? ==>
        tasks == (if originalTasks.Some? then originalTasks.value else old(tasks))
        && notice == ErrorNotice(OrElse(outcome.error, "Failed to update task"))
    {
      var previousTasks := if originalTasks.Some? then originalTasks.value else tasks;
      tasks := TaskUtils.CreateOptimisticTaskUpdate(tasks, taskId, UpdatePatch(updates));
      if outcome.Succeeded? {
        notice := SuccessNotice("Task updated successfully");
      } else {
        tasks := previousTasks;
        notice := ErrorNotice(OrElse(outcome.error, "Failed to update task"));
      }
    }

    /**
      moveTask: refuses an unknown task or one outside `fromColumnId` without
      a request; otherwise changes that task's column, sends `{ column_id }`,
      and restores the snapshot on failure.
    */
    method MoveTask(taskId: string, fromColumnId: int, toColumnId: int, outcome: Outcome<()>)
      returns (request: Option<TaskUpdateData>, notice: Notice)
      modifies this
      ensures FindTask(old(tasks), taskId).None? ==>
        tasks == old(tasks) && request.None? && notice == ErrorNotice("Task not found")
      ensures FindTask(old(tasks), taskId).Some? && FindTask(old(tasks), taskId).value.columnId != fromColumnId ==>
        tasks == old(tasks) && request.None? && notice == ErrorNotice("Task is not in the expected column")
      ensures FindTask(old(tasks), taskId).Some? && FindTask(old(tasks), taskId).value.columnId == fromColumnId ==>
        && request == Some(TaskUpdateData(None, None, Some(toColumnId), None))
        && (outcome.Succeeded? ==>
              (tasks == TaskUtils.CreateOptimisticTaskMove(old(tasks), taskId, toColumnId)
               && notice == SuccessNotice("Task moved from column " + Text.IntToDecimal(fromColumnId)
                                          + " to column " + Text.IntToDecimal(toColumnId))))
        && (outcome.Failed? ==> tasks == old(tasks) && notice == ErrorNotice(OrElse(outcome.error, "Failed to move task")))
    {
      var previousTasks := tasks;
      var taskToMove := FindTask(tasks, taskId);
      if taskToMove.None? {
        return None, ErrorNotice("Task not found");
      }
      if taskToMove.value.columnId != fromColumnId {
        return None, ErrorNotice("Task is not in the expected column");
      }
      tasks := TaskUtils.CreateOptimisticTaskMove(tasks, taskId, toColumnId);
      request := Some(TaskUpdateData(None, None, Some(toColumnId), None));
      if outcome.Succeeded? {
        notice := SuccessNotice("Task moved from column " + Text.IntToDecimal(fromColumnId)
                                + " to column " + Text.IntToDecimal(toColumnId));
      } else {
        tasks := previousTasks;
        notice := ErrorNotice(OrElse(outcome.error, "Failed to move task"));
      }
    }

    /**
      reorderTask: applies the shift optimistically and sends the order
      updates; when any fails it restores the exact snapshot and reports that
      one error. Success raises no notice.
    */
    method ReorderTask(taskId: string, fromOrder: int, toOrder: int, columnId: int, respond: OrderUpdate -> Outcome<()>)
      returns (issued: seq<OrderUpdate>, notice: Notice)
      modifies this
      ensures issued == PlannedUpdates(old(tasks), taskId, fromOrder, toOrder, columnId)
      ensures FirstFailure(issued, respond).None? ==>
        tasks == TaskUtils.CreateOptimisticTaskReorder(old(tasks), taskId, fromOrder, toOrder, columnId) && notice == NoNotice
      ensures FirstFailure(issued, respond).Some? ==>
        tasks == old(tasks) && notice == ErrorNotice(FirstFailure(issued, respond).value)
    {
      var previousTasks := tasks;
      tasks := TaskUtils.CreateOptimisticTaskReorder(tasks, taskId, fromOrder, toOrder, columnId);
      var failure;
      issued, failure := UpdateDatabase(previousTasks, taskId, fromOrder, toOrder, columnId, respond);
      if failure.Some? {
        tasks := previousTasks;
        notice := ErrorNotice(failure.value);
      } else {
        notice := NoNotice;
      }
    }

    /** deleteTask: drops every task with the id; on failure restores the original list. */
    method DeleteTask(taskId: string, outcome: Outcome<string>) returns (notice: Notice)
      modifies this
      ensures outcome.Succeeded? ==>
        tasks == Seqs.Filter(old(tasks), NotId(taskId))
        && notice == SuccessNotice(OrElse(outcome.data, "Task deleted successfully"))
      ensures outcome.Failed? ==>
        tasks == old(tasks) && notice == ErrorNotice(OrElse(outcome.error, "Failed to delete task"))
    {
      var originalTasks := tasks;
      tasks := Seqs.Filter(tasks, NotId(taskId));
      if outcome.Succeeded? {
        notice := SuccessNotice(OrElse(outcome.data, "Task deleted successfully"));
      } else {
        tasks := originalTasks;
        notice := ErrorNotice(OrElse(outcome.error, "Failed to delete task"));
      }
    }

    /** addTask: appends the created task only on success; a failure rejects with the error and leaves the list. */
    method AddTask(outcome: Outcome<CreatedPayload>) returns (notice: Notice, rejection: Option<string>)
      modifies this
      ensures outcome.Succeeded? ==>
        tasks == old(tasks) + [CreatedTask(outcome.data)]
        && notice == SuccessNotice("Task created successfully") && rejection.None?
      ensures outcome.Failed? ==>
        tasks == old(tasks) && notice == ErrorNotice(OrElse(outcome.error, "Failed to create task"))
        && rejection == Some(outcome.error)
    {
      if outcome.Succeeded? {
        tasks := tasks + [CreatedTask(outcome.data)];
        notice := SuccessNotice("Task created successfully");
        rejection := None;
      } else {
        notice := ErrorNotice(OrElse(outcome.error, "Failed to create task"));
        rejection := Some(outcome.error);
      }
    }
  }
}
