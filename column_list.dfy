/**
  The render-time arithmetic of the board's column list
  (app/components/board/ColumnList.tsx): each column's tasks sorted by order
  with a missing order counted as 0, the 1-based target order each drop site
  computes, and the wrapper's minimum width.
*/
module ColumnList {
  import opened Wrappers
  import opened BoardTypes
  import Seqs

  /** The sort key of this component: `order || 0`. */
  function DisplayOrderKey(t: Task): int {
    OrderOr(t.order, 0)
  }

  /** getTasksForColumn: the column's tasks, each as often as in `tasks`, sorted by DisplayOrderKey. */
  function GetTasksForColumn(tasks: seq<Task>, columnId: int): (r: seq<Task>)
    ensures forall t :: multiset(r)[t] == if t.columnId == columnId then multiset(tasks)[t] else 0
    ensures Seqs.SortedBy(r, DisplayOrderKey)
  {
    var inColumn := Seqs.Filter(tasks, (t: Task) => t.columnId == columnId);
    var r := Seqs.SortByKey(inColumn, DisplayOrderKey);
    assert forall t :: multiset(r)[t] == if t.columnId == columnId then multiset(tasks)[t] else 0 by {
      forall t ensures multiset(r)[t] == if t.columnId == columnId then multiset(tasks)[t] else 0 {
        Seqs.FilterMultiplicity(tasks, (t: Task) => t.columnId == columnId, t);
      }
    }
    r
  }

  /** Tasks without an order sort before every task with a positive order. */
  lemma UnorderedFirst(tasks: seq<Task>, columnId: int, i: int, j: int)
    requires var r := GetTasksForColumn(tasks, columnId);
      0 <= i < |r| && 0 <= j < |r| && r[i].order.None? && r[j].order.Some? && r[j].order.value > 0
    ensures i < j
  {
  }

  /** Where on a column a drop lands. */
  datatype DropSite =
    | OnColumn               // the column itself, outside any task
    | OnTask(index: nat)     // the task at this index of the sorted column tasks
    | OnAddZone              // the add-task drop zone shown to administrators

  /**
    The target orders the column list passes to onDrop for one drop event,
    in the order its handlers run while the event bubbles up to the column.
    `preventedBefore` says whether an element below handled the event first.
  */
  function DropTargets(site: DropSite, columnTaskCount: nat, preventedBefore: bool): (targets: seq<int>)
    ensures |targets| <= 1
    ensures site.OnTask? ==> targets == [site.index + 1]
    ensures site.OnAddZone? ==> targets == [columnTaskCount + 1]
    ensures site.OnColumn? ==> targets == if preventedBefore then [] else [columnTaskCount + 1]
  {
    match site
    case OnTask(index) =>
      // the task's handler prevents the default and stops propagation,
      // so the column's handler does not run
      [index + 1]
    case OnAddZone =>
      [columnTaskCount + 1]
    case OnColumn =>
      if preventedBefore then [] else [columnTaskCount + 1]
  }

  /** Drop targets are 1-based: a task's slot is its position counted from 1, the end slot one past the last task. */
  lemma DropTargetsInRange(site: DropSite, columnTaskCount: nat, preventedBefore: bool)
    requires site.OnTask? ==> site.index < columnTaskCount
    ensures forall k :: 0 <= k < |DropTargets(site, columnTaskCount, preventedBefore)| ==>
      1 <= DropTargets(site, columnTaskCount, preventedBefore)[k] <= columnTaskCount + 1
  {
  }

  /** The wrapper's minimum width in pixels: 288 per column, and at least one column's worth. */
  function MinWidth(columnCount: nat): (w: nat)
    ensures w >= 288
    ensures columnCount >= 1 ==> w == 288 * columnCount
    ensures columnCount == 0 ==> w == 288
  {
    (if columnCount > 1 then columnCount else 1) * 288
  }
}
