/**
  Task list utilities (app/lib/taskUtils.ts): building the task list from a
  fetched board, selecting a column's tasks, and the optimistic update, move
  and reorder transforms, including the order shift of a same-column move.
*/
module TaskUtils {
  import opened Wrappers
  import opened BoardTypes
  import Text
  import Seqs

  /**
    A card as the board endpoint returns it. `title`, `name` and `description`
    are "" when absent or empty; `order` is None when absent.
  */
  datatype Card = Card(id: int, title: string, name: string, description: string, order: Option<int>)

  /** A column of the fetched board; `cards` is None when it is missing or not an array. */
  datatype BoardColumn = BoardColumn(id: int, cards: Option<seq<Card>>)

  datatype FetchedBoard = FetchedBoard(columns: seq<BoardColumn>)

  /** The task one card becomes (taskUtils.ts:9-15). */
  function CardToTask(card: Card, columnId: int): (t: Task)
    ensures t.id == Text.IntToDecimal(card.id) && t.columnId == columnId
    ensures t.title == if card.title != "" then card.title else if card.name != "" then card.name else "Untitled Card"
    ensures t.description == Some(card.description)
    ensures t.order == Some(if card.order.Some? && card.order.value != 0 then card.order.value else 1)
  {
    Task(Text.IntToDecimal(card.id), OrElse(card.title, OrElse(card.name, "Untitled Card")),
         Some(OrElse(card.description, "")), columnId, Some(OrderOr(card.order, 1)))
  }

  /** The tasks a list of cards becomes in column `columnId`, in card order. */
  function CardsToTasks(cards: seq<Card>, columnId: int): (r: seq<Task>)
    ensures |r| == |cards|
  {
    Seqs.Map(cards, (c: Card) => CardToTask(c, columnId))
  }

  /** The tasks one column contributes: one per card, none when `cards` is not an array. */
  function ColumnCards(column: BoardColumn): seq<Task> {
    match column.cards
    case None => []
    case Some(cards) => CardsToTasks(cards, column.id)
  }

  /** The list the nested loops build, column after column. */
  function CollectedTasks(columns: seq<BoardColumn>): seq<Task> {
    Seqs.ConcatMap(columns, ColumnCards)
  }

  function CardCount(columns: seq<BoardColumn>): nat {
    if columns == [] then 0
    else CardCount(columns[..|columns| - 1])
         + (match columns[|columns| - 1].cards case None => 0 case Some(cards) => |cards|)
  }

  /** The comparator of taskUtils.ts:20-23: 0 across columns, order difference within one. */
  function BoardSortComparator(a: Task, b: Task): int {
    if a.columnId != b.columnId then 0 else OrderOr(a.order, 1) - OrderOr(b.order, 1)
  }

  /** The inner loop: appends the tasks of one column's cards. */
  method AppendColumnCards(allTasks: seq<Task>, column: BoardColumn) returns (r: seq<Task>)
    ensures r == allTasks + ColumnCards(column)
  {
    r := allTasks;
    if column.cards.Some? {
      var cards := column.cards.value;
      var j := 0;
      while j < |cards|
        invariant 0 <= j <= |cards|
        invariant r == allTasks + CardsToTasks(cards[..j], column.id)
      {
        Seqs.MapSnoc(cards, j, (c: Card) => CardToTask(c, column.id));
        r := r + [CardToTask(cards[j], column.id)];
        j := j + 1;
      }
      assert cards[..j] == cards;
    }
  }

  /**
    transformBoardTasksToTasks: collects one task per card with nested loops,
    then sorts with a comparator that is not a consistent order, so the result
    is promised only as a permutation of the collected tasks.
  */
  method TransformBoardTasksToTasks(board: FetchedBoard) returns (tasks: seq<Task>)
    ensures multiset(tasks) == multiset(CollectedTasks(board.columns))
    ensures |tasks| == CardCount(board.columns)
  {
    var allTasks: seq<Task> := [];
    var i := 0;
    while i < |board.columns|
      invariant 0 <= i <= |board.columns|
      invariant allTasks == CollectedTasks(board.columns[..i])
    {
      Seqs.ConcatMapSnoc(board.columns, i, ColumnCards);
      allTasks := AppendColumnCards(allTasks, board.columns[i]);
      i := i + 1;
    }
    assert board.columns[..i] == board.columns;
    tasks := Seqs.SortByComparator(allTasks, BoardSortComparator);
    CollectedCount(board.columns);
    assert |multiset(tasks)| == |multiset(allTasks)|;
  }

  lemma {:induction false} CollectedCount(columns: seq<BoardColumn>)
    ensures |CollectedTasks(columns)| == CardCount(columns)
  {
    if columns != [] { CollectedCount(columns[..|columns| - 1]); }
  }

  /** A task comes from a list of cards exactly when it is the task of one of them. */
  lemma CardsToTasksMembers(cards: seq<Card>, columnId: int, t: Task)
    ensures t in CardsToTasks(cards, columnId) <==> exists j :: 0 <= j < |cards| && t == CardToTask(cards[j], columnId)
  {
    Seqs.MappedMembers(cards, CardsToTasks(cards, columnId), (c: Card) => CardToTask(c, columnId), t);
  }

  /** Every collected task comes from a column whose cards are an array, and every such column contributes all of its tasks. */
  lemma CollectedTasksMembers(columns: seq<BoardColumn>, t: Task)
    ensures t in CollectedTasks(columns) <==> exists i :: 0 <= i < |columns| && t in ColumnCards(columns[i])
  {
    Seqs.ConcatMapMembers(columns, ColumnCards, t);
  }

  /** The key getTasksForColumn sorts by: a missing or zero order counts as 1. */
  function TaskOrderKey(t: Task): int {
    OrderOr(t.order, 1)
  }

  /**
    getTasksForColumn: exactly the tasks of the column, each as often as in
    `tasks`, in non-decreasing order of TaskOrderKey.
  */
  function GetTasksForColumn(tasks: seq<Task>, columnId: int): (r: seq<Task>)
    ensures forall t :: multiset(r)[t] == if t.columnId == columnId then multiset(tasks)[t] else 0
    ensures Seqs.SortedBy(r, TaskOrderKey)
  {
    var inColumn := Seqs.Filter(tasks, (t: Task) => t.columnId == columnId);
    var r := Seqs.SortByKey(inColumn, TaskOrderKey);
    assert forall t :: multiset(r)[t] == if t.columnId == columnId then multiset(tasks)[t] else 0 by {
      forall t ensures multiset(r)[t] == if t.columnId == columnId then multiset(tasks)[t] else 0 {
        Seqs.FilterMultiplicity(tasks, (t: Task) => t.columnId == columnId, t);
      }
    }
    r
  }

  /** A partial task for createOptimisticTaskUpdate: present fields overwrite. */
  datatype TaskPatch = TaskPatch(id: Option<string>, title: Option<string>, description: Option<Option<string>>,
                                 columnId: Option<int>, order: Option<Option<int>>)

  /** `{ ...task, ...updates }`. */
  function Merge(t: Task, p: TaskPatch): Task {
    Task(p.id.GetOr(t.id), p.title.GetOr(t.title), p.description.GetOr(t.description),
         p.columnId.GetOr(t.columnId), p.order.GetOr(t.order))
  }

  /** createOptimisticTaskUpdate: the matching tasks get the patch merged in. */
  function CreateOptimisticTaskUpdate(tasks: seq<Task>, taskId: string, updates: TaskPatch): (r: seq<Task>)
    ensures |r| == |tasks|
    ensures forall k :: 0 <= k < |r| && tasks[k].id != taskId ==> r[k] == tasks[k]
  {
    seq(|tasks|, k requires 0 <= k < |tasks| => if tasks[k].id == taskId then Merge(tasks[k], updates) else tasks[k])
  }

  /** A matching task keeps each field the patch leaves out and takes each field it carries. */
  lemma OptimisticUpdateFields(tasks: seq<Task>, taskId: string, updates: TaskPatch, k: int)
    requires 0 <= k < |tasks| && tasks[k].id == taskId
    ensures var t := CreateOptimisticTaskUpdate(tasks, taskId, updates)[k];
      && (updates.title.None? ==> t.title == tasks[k].title)
      && (updates.title.Some? ==> t.title == updates.title.value)
      && (updates.columnId.None? ==> t.columnId == tasks[k].columnId)
      && (updates.columnId.Some? ==> t.columnId == updates.columnId.value)
      && (updates.order.None? ==> t.order == tasks[k].order)
      && (updates.order.Some? ==> t.order == updates.order.value)
      && (updates.description.None? ==> t.description == tasks[k].description)
      && (updates.description.Some? ==> t.description == updates.description.value)
      && (updates.id.None? ==> t.id == tasks[k].id)
      && (updates.id.Some? ==> t.id == updates.id.value)
  {
  }

  /** createOptimisticTaskMove: the matching tasks change column, every other field stays. */
  function CreateOptimisticTaskMove(tasks: seq<Task>, taskId: string, toColumnId: int): (r: seq<Task>)
    ensures |r| == |tasks|
    ensures forall k :: 0 <= k < |r| ==>
      r[k].id == tasks[k].id && r[k].title == tasks[k].title && r[k].description == tasks[k].description
      && r[k].order == tasks[k].order
      && r[k].columnId == (if tasks[k].id == taskId then toColumnId else tasks[k].columnId)
  {
    seq(|tasks|, k requires 0 <= k < |tasks| => if tasks[k].id == taskId then tasks[k].(columnId := toColumnId) else tasks[k])
  }

  /**
    The order a same-column move from `fromOrder` to `toOrder` gives an order
    `o` (taskUtils.ts:68-78 for a task other than the moved one).
  */
  function ShiftedOrder(o: int, fromOrder: int, toOrder: int): int {
    if fromOrder < toOrder && fromOrder < o <= toOrder then o - 1
    else if fromOrder > toOrder && toOrder <= o < fromOrder then o + 1
    else o
  }

  /**
    calculateNewOrder: the moved task gets `toOrder`; a task without an order
    keeps none; the others move one step toward the vacated slot when they lie
    between the two positions.
  */
  function CalculateNewOrder(task: Task, taskId: string, fromOrder: int, toOrder: int): (r: Option<int>)
    ensures task.id == taskId ==> r == Some(toOrder)
    ensures task.id != taskId && task.order.None? ==> r.None?
    ensures task.id != taskId && task.order.Some? ==>
      (r.Some? &&
       var o := task.order.value;
       && (fromOrder < toOrder && fromOrder < o <= toOrder ==> r.value == o - 1)
       && (fromOrder > toOrder && toOrder <= o < fromOrder ==> r.value == o + 1)
       && (!(fromOrder < toOrder && fromOrder < o <= toOrder) && !(fromOrder > toOrder && toOrder <= o < fromOrder) ==> r.value == o))
  {
    if task.id == taskId then Some(toOrder)
    else if task.order.None? then None
    else Some(ShiftedOrder(task.order.value, fromOrder, toOrder))
  }

  /** The task with its recalculated order, or unchanged when there is none. */
  function Reordered(task: Task, taskId: string, fromOrder: int, toOrder: int): (r: Task)
    ensures r.id == task.id && r.title == task.title && r.description == task.description && r.columnId == task.columnId
  {
    var newOrder := CalculateNewOrder(task, taskId, fromOrder, toOrder);
    if newOrder.Some? then task.(order := newOrder) else task
  }

  function InColumn(columnId: int): Task -> bool {
    (t: Task) => t.columnId == columnId
  }

  function NotInColumn(columnId: int): Task -> bool {
    (t: Task) => t.columnId != columnId
  }

  function ReorderAll(ts: seq<Task>, taskId: string, fromOrder: int, toOrder: int): (r: seq<Task>)
    ensures |r| == |ts| && forall k :: 0 <= k < |ts| ==> r[k] == Reordered(ts[k], taskId, fromOrder, toOrder)
  {
    seq(|ts|, k requires 0 <= k < |ts| => Reordered(ts[k], taskId, fromOrder, toOrder))
  }

  /**
    createOptimisticTaskReorder: the other columns' tasks unchanged and first,
    then the column's tasks with recalculated orders.
  */
  function CreateOptimisticTaskReorder(tasks: seq<Task>, taskId: string, fromOrder: int, toOrder: int, columnId: int): (r: seq<Task>)
    ensures |r| == |tasks|
    ensures var others := Seqs.Filter(tasks, NotInColumn(columnId));
      r[..|others|] == others && r[|others|..] == ReorderAll(Seqs.Filter(tasks, InColumn(columnId)), taskId, fromOrder, toOrder)
  {
    var others := Seqs.Filter(tasks, NotInColumn(columnId));
    var column := Seqs.Filter(tasks, InColumn(columnId));
    Seqs.FilterPartition(tasks, InColumn(columnId), NotInColumn(columnId));
    assert |multiset(others)| + |multiset(column)| == |multiset(tasks)|;
    others + ReorderAll(column, taskId, fromOrder, toOrder)
  }

  function Ids(ts: seq<Task>): (r: seq<string>)
    ensures |r| == |ts| && forall k :: 0 <= k < |ts| ==> r[k] == ts[k].id
  {
    seq(|ts|, k requires 0 <= k < |ts| => ts[k].id)
  }

  lemma {:induction false} IdsAppend(a: seq<Task>, b: seq<Task>)
    ensures Ids(a + b) == Ids(a) + Ids(b)
  {
  }

  lemma {:induction false} IdsMultiset(a: seq<Task>, b: seq<Task>)
    requires multiset(a) == multiset(b)
    ensures multiset(Ids(a)) == multiset(Ids(b))
    decreases |a|
  {
    if a != [] {
      var x := a[0];
      assert x in multiset(b);
      var j :| 0 <= j < |b| && b[j] == x;
      var b' := b[..j] + b[j + 1..];
      assert b == b[..j] + [x] + b[j + 1..];
      assert a == [x] + a[1..];
      assert multiset(b) == multiset(b[..j]) + multiset{x} + multiset(b[j + 1..]);
      assert multiset(a) == multiset{x} + multiset(a[1..]);
      assert multiset(b') == multiset(b[..j]) + multiset(b[j + 1..]);
      assert multiset(a[1..]) == multiset(a) - multiset{x};
      assert multiset(b') == multiset(b) - multiset{x};
      IdsMultiset(a[1..], b');
      IdsAppend([x], a[1..]);
      IdsAppend(b[..j] + [x], b[j + 1..]);
      IdsAppend(b[..j], [x]);
      IdsAppend(b[..j], b[j + 1..]);
    }
  }

  /** The reorder neither loses nor duplicates a task: the multiset of ids is unchanged. */
  lemma ReorderPreservesIds(tasks: seq<Task>, taskId: string, fromOrder: int, toOrder: int, columnId: int)
    ensures multiset(Ids(CreateOptimisticTaskReorder(tasks, taskId, fromOrder, toOrder, columnId))) == multiset(Ids(tasks))
  {
    var others := Seqs.Filter(tasks, NotInColumn(columnId));
    var column := Seqs.Filter(tasks, InColumn(columnId));
    var r := CreateOptimisticTaskReorder(tasks, taskId, fromOrder, toOrder, columnId);
    assert r == others + ReorderAll(column, taskId, fromOrder, toOrder);
    assert Ids(ReorderAll(column, taskId, fromOrder, toOrder)) == Ids(column);
    IdsAppend(others, ReorderAll(column, taskId, fromOrder, toOrder));
    IdsAppend(column, others);
    Seqs.FilterPartition(tasks, InColumn(columnId), NotInColumn(columnId));
    assert multiset(column + others) == multiset(tasks);
    IdsMultiset(column + others, tasks);
  }

  /** The orders present among the tasks. */
  function OrderSet(ts: seq<Task>): set<int> {
    set k | 0 <= k < |ts| && ts[k].order.Some? :: ts[k].order.value
  }

  predicate DistinctOrders(ts: seq<Task>) {
    forall i, j :: 0 <= i < j < |ts| ==> ts[i].order != ts[j].order
  }

  /** The position function of a same-column move, the moved slot included. */
  function MovePosition(o: int, fromOrder: int, toOrder: int): int {
    if o == fromOrder then toOrder else ShiftedOrder(o, fromOrder, toOrder)
  }

  /** Moving back undoes a move: the two position functions are inverse on any range holding both ends. */
  lemma MoveRoundTrip(o: int, fromOrder: int, toOrder: int)
    ensures MovePosition(MovePosition(o, fromOrder, toOrder), toOrder, fromOrder) == o
  {
  }

  lemma MoveStaysInRange(o: int, lo: int, hi: int, fromOrder: int, toOrder: int)
    requires lo <= o <= hi && lo <= fromOrder <= hi && lo <= toOrder <= hi
    ensures lo <= MovePosition(o, fromOrder, toOrder) <= hi
  {
  }

  /** The column tasks the reorder can be trusted on: orders distinct and exactly lo..hi, both ends in range, and the moved task at `fromOrder`. */
  ghost predicate WellNumbered(column: seq<Task>, taskId: string, fromOrder: int, toOrder: int, lo: int, hi: int) {
    && (forall k :: 0 <= k < |column| ==> column[k].order.Some?)
    && DistinctOrders(column)
    && (forall x :: x in OrderSet(column) <==> lo <= x <= hi)
    && lo <= fromOrder <= hi && lo <= toOrder <= hi
    && (forall k :: 0 <= k < |column| ==> (column[k].id == taskId <==> column[k].order == Some(fromOrder)))
  }

  lemma ReorderedIsMovePosition(column: seq<Task>, taskId: string, fromOrder: int, toOrder: int, lo: int, hi: int, k: int)
    requires WellNumbered(column, taskId, fromOrder, toOrder, lo, hi) && 0 <= k < |column|
    ensures ReorderAll(column, taskId, fromOrder, toOrder)[k].order == Some(MovePosition(column[k].order.value, fromOrder, toOrder))
  {
  }

  /**
    On a well-numbered column the reorder permutes the orders: the set of
    orders is unchanged and they stay distinct.
  */
  lemma ReorderPermutesOrders(column: seq<Task>, taskId: string, fromOrder: int, toOrder: int, lo: int, hi: int)
    requires WellNumbered(column, taskId, fromOrder, toOrder, lo, hi)
    ensures var after := ReorderAll(column, taskId, fromOrder, toOrder);
      OrderSet(after) == OrderSet(column) && DistinctOrders(after)
      && forall k :: 0 <= k < |after| ==> after[k].order.Some?
  {
    var after := ReorderAll(column, taskId, fromOrder, toOrder);
    forall k | 0 <= k < |column| ensures after[k].order == Some(MovePosition(column[k].order.value, fromOrder, toOrder)) {
      ReorderedIsMovePosition(column, taskId, fromOrder, toOrder, lo, hi, k);
    }
    forall y | y in OrderSet(after) ensures y in OrderSet(column) {
      var k :| 0 <= k < |after| && after[k].order.Some? && after[k].order.value == y;
      assert column[k].order.value in OrderSet(column);
      MoveStaysInRange(column[k].order.value, lo, hi, fromOrder, toOrder);
    }
    forall y | y in OrderSet(column) ensures y in OrderSet(after) {
      var x := MovePosition(y, toOrder, fromOrder);
      MoveStaysInRange(y, lo, hi, toOrder, fromOrder);
      assert x in OrderSet(column);
      var k :| 0 <= k < |column| && column[k].order.Some? && column[k].order.value == x;
      MoveRoundTrip(y, toOrder, fromOrder);
      assert after[k].order.value == y;
    }
    forall i, j | 0 <= i < j < |after| ensures after[i].order != after[j].order {
      MoveRoundTrip(column[i].order.value, fromOrder, toOrder);
      MoveRoundTrip(column[j].order.value, fromOrder, toOrder);
    }
  }

  /** A move onto its own position changes no task of the column when the moved task holds that position. */
  lemma ReorderToSameOrderIsIdentity(column: seq<Task>, taskId: string, order: int)
    requires forall k :: 0 <= k < |column| && column[k].id == taskId ==> column[k].order == Some(order)
    ensures ReorderAll(column, taskId, order, order) == column
  {
  }
}
