/** The task list component: its own filter-and-sort pipeline over the `tasks`
    state, and the handlers that update the store and then the local copy. The
    date filter here has its own "this week" rule: today through today + 7 days. */
module TaskList {
  import opened Wrappers
  import opened Seqs
  import opened Text
  import opened Records
  import opened TaskApi
  import opened DateUtils
  import opened PriorityUtils
  import opened TaskFilters

  /** The date test of the list: as `filterTasksByDate`, except that "thisWeek"
      compares calendar days with [today, today + 7]. */
  function ListKeepsByDate(filter: string, clock: Clock): Task -> bool {
    (task: Task) =>
      if task.dueDate.None? then filter == "noDueDate"
      else
        var day := DayOf(task.dueDate.value);
        if filter == "today" then day == clock.Today()
        else if filter == "tomorrow" then day == clock.Today() + 1
        else if filter == "thisWeek" then clock.Today() <= day <= clock.Today() + 7
        else if filter == "overdue" then day < clock.Today() && !task.completed
        else true
  }

  /** Outside "thisWeek" the two date tests agree. */
  lemma ListDateTestAgrees(filter: string, clock: Clock, t: Task)
    requires filter != "thisWeek"
    ensures ListKeepsByDate(filter, clock)(t) == KeepsByDate(filter, clock)(t)
  {
  }

  /** The two "this week" rules differ: with a week that ends before day 7, a task
      due on day 7 is this week's for the list and not for `filterTasksByDate`. */
  lemma WeekRulesDiffer()
    ensures var clock := Clock(0, 0, 7 * MsPerDay - 1);
      var t := Task(1, "", false, "medium", Some(7 * MsPerDay), "1", 0, 1, None);
      ListKeepsByDate("thisWeek", clock)(t) && !KeepsByDate("thisWeek", clock)(t)
  {
  }

  /** The comparator of the list: ascending `order`, then newest `createdAt` first. */
  function CompareForList(a: Task, b: Task): int {
    if a.order != b.order then a.order - b.order else b.createdAt - a.createdAt
  }

  lemma CompareForListIsPreorder()
    ensures IsTotalPreorder(CompareForList)
  {
  }

  /** The list's own steps; the category, search and status steps are those of
      `applyTaskFilters`. */
  function ListByPriority(tasks: seq<Task>, f: Filters): seq<Task> {
    if f.priority != "" && f.priority != "all" then Filter(tasks, HasPriority(f.priority)) else tasks
  }

  function ListByDueDate(tasks: seq<Task>, f: Filters, clock: Clock): seq<Task> {
    if f.dueDate != "" && f.dueDate != "all" then Filter(tasks, ListKeepsByDate(f.dueDate, clock)) else tasks
  }

  /** The tasks the list filters keep, before sorting: category, search, priority,
      status, due date. `f.categoryId` and `f.searchTerm` are the `categoryId` and
      `searchTerm` props, the rest come from the `filters` prop. */
  function ListSelection(tasks: seq<Task>, f: Filters, clock: Clock): seq<Task> {
    ListByDueDate(ByStatus(ListByPriority(BySearch(ByCategory(tasks, f), f), f), f), f, clock)
  }

  /** `getFilteredTasks()`: the selection, sorted; the `tasks` state is not touched. */
  function GetFilteredTasks(tasks: seq<Task>, f: Filters, clock: Clock): (r: seq<Task>)
    ensures multiset(r) == multiset(ListSelection(tasks, f, clock))
  {
    Sort(ListSelection(tasks, f, clock), CompareForList)
  }

  /** The list's date criterion, true when absent. */
  function ListDueDateTest(f: Filters, clock: Clock): Task -> bool {
    (t: Task) => f.dueDate == "" || f.dueDate == "all" || ListKeepsByDate(f.dueDate, clock)(t)
  }

  /** A task is listed when it passes every criterion. */
  predicate ListMatches(f: Filters, clock: Clock, t: Task) {
    && CategoryTest(f)(t) && SearchTest(f)(t) && PriorityTest(f)(t) && StatusTest(f)(t)
    && ListDueDateTest(f, clock)(t)
  }

  /** The selection keeps exactly the tasks that pass every criterion, in order. */
  lemma ListSelectionIsConjunction(tasks: seq<Task>, f: Filters, clock: Clock)
    ensures ListSelection(tasks, f, clock) == Filter(tasks, t => ListMatches(f, clock, t))
  {
    var p1, p2, p3, p4, p5 := CategoryTest(f), SearchTest(f), PriorityTest(f), StatusTest(f), ListDueDateTest(f, clock);
    var s1 := ByCategory(tasks, f);
    var s2 := BySearch(s1, f);
    var s3 := ListByPriority(s2, f);
    var s4 := ByStatus(s3, f);
    var s5 := ListByDueDate(s4, f, clock);
    assert s1 == Filter(tasks, p1) by {
      StepIsFilter(tasks, s1, p1, f.categoryId != "", InCategory(f.categoryId));
    }
    assert s2 == Filter(s1, p2) by {
      StepIsFilter(s1, s2, p2, f.searchTerm != "", MatchesSearch(f.searchTerm));
    }
    assert s3 == Filter(s2, p3) by {
      StepIsFilter(s2, s3, p3, f.priority != "" && f.priority != "all", HasPriority(f.priority));
    }
    assert s4 == Filter(s3, p4) by {
      var statusActive := f.status == "completed" || f.status == "pending";
      var statusTest := if f.status == "completed" then IsCompleted() else IsPending();
      StepIsFilter(s3, s4, p4, statusActive, statusTest);
    }
    assert s5 == Filter(s4, p5) by {
      StepIsFilter(s4, s5, p5, f.dueDate != "" && f.dueDate != "all", ListKeepsByDate(f.dueDate, clock));
    }
    var q2 := Both(p1, p2);
    var q3 := Both(q2, p3);
    var q4 := Both(q3, p4);
    var q5 := Both(q4, p5);
    FilterFilter(tasks, p1, p2);
    FilterFilter(tasks, q2, p3);
    FilterFilter(tasks, q3, p4);
    FilterFilter(tasks, q4, p5);
    assert s5 == Filter(tasks, q5);
    FilterExt(tasks, q5, t => ListMatches(f, clock, t));
  }

  /** The list shows a permutation of the tasks that pass every criterion, in
      ascending `order`, ties newest first. */
  lemma GetFilteredTasksSortedSelection(tasks: seq<Task>, f: Filters, clock: Clock)
    ensures multiset(GetFilteredTasks(tasks, f, clock)) == multiset(Filter(tasks, t => ListMatches(f, clock, t)))
    ensures forall i, j | 0 <= i < j < |GetFilteredTasks(tasks, f, clock)| ::
      var a, b := GetFilteredTasks(tasks, f, clock)[i], GetFilteredTasks(tasks, f, clock)[j];
      a.order < b.order || (a.order == b.order && a.createdAt >= b.createdAt)
  {
    ListSelectionIsConjunction(tasks, f, clock);
    CompareForListIsPreorder();
    SortSorted(ListSelection(tasks, f, clock), CompareForList);
  }

  /** Outside the "thisWeek" date filter the list shows exactly what
      `applyTaskFilters` keeps, sorted. */
  lemma {:induction false} AgreesWithApplyTaskFilters(tasks: seq<Task>, f: Filters, clock: Clock)
    requires f.dueDate != "thisWeek"
    ensures GetFilteredTasks(tasks, f, clock) == Sort(ApplyTaskFilters(tasks, f, clock), CompareForList)
  {
    ListSelectionIsConjunction(tasks, f, clock);
    ApplyTaskFiltersIsConjunction(tasks, f, clock);
    forall t | t in tasks
      ensures ListMatches(f, clock, t) == Matches(f, clock, t)
    {
      ListDateTestAgrees(f.dueDate, clock, t);
    }
    FilterExt(tasks, t => ListMatches(f, clock, t), t => Matches(f, clock, t));
  }

  // ---------------------------------------------------------------------------
  // The local updates.

  /** `prev.map(task => task.Id === id ? { ...task, completed } : task)` */
  function WithCompleted(ts: seq<Task>, id: int, completed: bool): (r: seq<Task>)
    ensures |r| == |ts| && TaskIds(r) == TaskIds(ts)
  {
    seq(|ts|, i requires 0 <= i < |ts| => if ts[i].id == id then ts[i].(completed := completed) else ts[i])
  }

  /** `prev.filter(task => task.Id !== id)` */
  function IdIsNot(id: int): Task -> bool {
    (t: Task) => t.id != id
  }

  /** The swap `handleDrop` applies to the local list. */
  function Reordered(ts: seq<Task>, draggedId: int, targetId: int, draggedOrder: int, targetOrder: int): (r: seq<Task>)
    ensures |r| == |ts| && TaskIds(r) == TaskIds(ts)
  {
    seq(|ts|, i requires 0 <= i < |ts| =>
      if ts[i].id == draggedId then ts[i].(order := targetOrder)
      else if ts[i].id == targetId then ts[i].(order := draggedOrder)
      else ts[i])
  }

  /** The `order` values of a list. */
  function Orders(ts: seq<Task>): (r: seq<int>)
    ensures |r| == |ts| && forall i | 0 <= i < |ts| :: r[i] == ts[i].order
  {
    seq(|ts|, i requires 0 <= i < |ts| => ts[i].order)
  }

  /** With distinct ids and the two tasks' current orders, the drop swaps two
      `order` values: the list keeps the same multiset of orders. */
  lemma ReorderedSwapsOrders(ts: seq<Task>, a: nat, b: nat)
    requires a < |ts| && b < |ts| && a != b && UniqueIds(TaskIds(ts))
    ensures var r := Reordered(ts, ts[a].id, ts[b].id, ts[a].order, ts[b].order);
      && r[a].order == ts[b].order && r[b].order == ts[a].order
      && (forall i | 0 <= i < |ts| && i != a && i != b :: r[i] == ts[i])
      && multiset(Orders(r)) == multiset(Orders(ts))
  {
    var r := Reordered(ts, ts[a].id, ts[b].id, ts[a].order, ts[b].order);
    var o := Orders(ts);
    assert ts[a].id != ts[b].id by {
      assert TaskIds(ts)[a] == ts[a].id && TaskIds(ts)[b] == ts[b].id;
    }
    forall i | 0 <= i < |ts| && i != a && i != b
      ensures r[i] == ts[i]
    {
      assert TaskIds(ts)[i] == ts[i].id;
    }
    assert Orders(r) == o[a := o[b]][b := o[a]];
  }

  /** With distinct ids, dropping the records with one id removes the one record
      at that id's position. */
  lemma RemoveUniqueId(ts: seq<Task>, i: nat)
    requires i < |ts| && UniqueIds(TaskIds(ts))
    ensures Filter(ts, IdIsNot(ts[i].id)) == ts[..i] + ts[i + 1..]
  {
    forall j | 0 <= j < |ts| && j != i
      ensures IdIsNot(ts[i].id)(ts[j])
    {
      assert TaskIds(ts)[i] == ts[i].id && TaskIds(ts)[j] == ts[j].id;
    }
    FilterDropsOne(ts, i, IdIsNot(ts[i].id));
  }

  class TaskListView {
    /** The `tasks` state. */
    var tasks: seq<Task>
    /** The `draggedTask` state. */
    var draggedTask: Option<Task>
    /** The task store the handlers call. */
    const store: TaskService

    /** The local list shows the store's list. */
    predicate Synced()
      reads this, store
    {
      tasks == store.tasks
    }

    constructor (store: TaskService)
      ensures this.store == store && tasks == [] && draggedTask == None
    {
      this.store := store;
      tasks := [];
      draggedTask := None;
    }

    /** `loadData()`: the local list becomes the store's list. */
    method LoadData()
      modifies this
      ensures Synced() && draggedTask == old(draggedTask)
    {
      tasks := store.GetAll();
    }

    /** `handleDragStart(task)` */
    method HandleDragStart(task: Task)
      modifies this
      ensures draggedTask == Some(task) && tasks == old(tasks)
    {
      draggedTask := Some(task);
    }

    /** `handleDragEnd()` */
    method HandleDragEnd()
      modifies this
      ensures draggedTask == None && tasks == old(tasks)
    {
      draggedTask := None;
    }

    /** `handleToggleComplete(taskId, completed)`: the store first; the local list
        only when the store succeeded; a store failure is passed on. */
    method HandleToggleComplete(taskId: int, completed: bool) returns (r: Result<Task>)
      modifies this, store
      ensures draggedTask == old(draggedTask)
      ensures r.Ok? <==> Find(old(store.tasks), Num(taskId)) >= 0
      ensures store.tasks == Updated(old(store.tasks), Num(taskId), NoTaskFields.(completed := Some(completed)))
      ensures r.Ok? ==> tasks == WithCompleted(old(tasks), taskId, completed)
      ensures r.Err? ==> tasks == old(tasks)
      ensures old(Synced()) && UniqueIds(TaskIds(old(tasks))) ==> Synced()
    {
      ghost var before := tasks;
      r := store.Update(Num(taskId), NoTaskFields.(completed := Some(completed)));
      if r.Ok? {
        tasks := WithCompleted(tasks, taskId, completed);
        if before == old(store.tasks) && UniqueIds(TaskIds(before)) {
          forall j | 0 <= j < |before|
            ensures tasks[j] == store.tasks[j]
          {
            assert TaskIds(before)[j] == before[j].id;
          }
        }
      }
    }

    /** `handleDeleteTask(taskId)`: the store first; the local list drops the task
        only when the store succeeded; a failure leaves both as they were. */
    method HandleDeleteTask(taskId: int) returns (r: Result<bool>)
      modifies this, store
      ensures draggedTask == old(draggedTask)
      ensures r.Ok? <==> Find(old(store.tasks), Num(taskId)) >= 0
      ensures r.Ok? ==> var i := Find(old(store.tasks), Num(taskId));
        store.tasks == old(store.tasks)[..i] + old(store.tasks)[i + 1..]
      ensures r.Ok? ==> tasks == Filter(old(tasks), IdIsNot(taskId))
      ensures r.Err? ==> tasks == old(tasks) && store.tasks == old(store.tasks)
      ensures old(Synced()) && UniqueIds(TaskIds(old(tasks))) ==> Synced()
    {
      ghost var before := tasks;
      r := store.Delete(Num(taskId));
      if r.Ok? {
        tasks := Filter(tasks, IdIsNot(taskId));
        if before == old(store.tasks) && UniqueIds(TaskIds(before)) {
          RemoveUniqueId(before, IndexOf(TaskIds(before), taskId));
        }
      }
    }

    /** `handleDrop(targetTask)`: nothing without a dragged task or onto itself;
        otherwise the store gives the dragged task the target's order and the
        target the dragged task's, and the local list follows only when both
        updates succeeded. */
    method HandleDrop(target: Task) returns (ok: bool)
      modifies this, store
      ensures draggedTask == old(draggedTask)
      ensures old(draggedTask).None? || old(draggedTask).value.id == target.id ==>
        !ok && tasks == old(tasks) && store.tasks == old(store.tasks)
      ensures ok <==> && old(draggedTask).Some? && old(draggedTask).value.id != target.id
                      && Find(old(store.tasks), Num(old(draggedTask).value.id)) >= 0
                      && Find(old(store.tasks), Num(target.id)) >= 0
      ensures old(draggedTask).Some? && old(draggedTask).value.id != target.id ==>
        var dragged := old(draggedTask).value;
        store.tasks == Updated(Updated(old(store.tasks), Num(dragged.id), NoTaskFields.(order := Some(target.order))),
                               Num(target.id), NoTaskFields.(order := Some(dragged.order)))
      ensures ok ==> tasks == Reordered(old(tasks), old(draggedTask).value.id, target.id,
                                        old(draggedTask).value.order, target.order)
      ensures !ok ==> tasks == old(tasks)
      ensures old(Synced()) && UniqueIds(TaskIds(old(tasks))) && ok ==> Synced()
    {
      if draggedTask.None? || draggedTask.value.id == target.id {
        return false;
      }
      var dragged := draggedTask.value;
      ghost var before := tasks;
      var first := store.Update(Num(dragged.id), NoTaskFields.(order := Some(target.order)));
      ghost var middle := store.tasks;
      var second := store.Update(Num(target.id), NoTaskFields.(order := Some(dragged.order)));
      ok := first.Ok? && second.Ok?;
      if ok {
        tasks := Reordered(tasks, dragged.id, target.id, dragged.order, target.order);
        if before == old(store.tasks) && UniqueIds(TaskIds(before)) {
          DropMatchesStore(before, middle, store.tasks, dragged, target);
        }
      }
    }
  }

  /** Two successful single-record updates on a list with distinct ids give the
      local swap. */
  lemma DropMatchesStore(before: seq<Task>, middle: seq<Task>, after: seq<Task>, dragged: Task, target: Task)
    requires UniqueIds(TaskIds(before)) && dragged.id != target.id
    requires var a := Find(before, Num(dragged.id));
      a >= 0 && middle == before[a := MergeTask(before[a], NoTaskFields.(order := Some(target.order)))]
    requires var b := Find(middle, Num(target.id));
      b >= 0 && after == middle[b := MergeTask(middle[b], NoTaskFields.(order := Some(dragged.order)))]
    ensures after == Reordered(before, dragged.id, target.id, dragged.order, target.order)
  {
    var a := Find(before, Num(dragged.id));
    var b := Find(middle, Num(target.id));
    assert TaskIds(middle) == TaskIds(before) by {
      SameIdsAfterReplace(before, a, middle[a]);
    }
    var r := Reordered(before, dragged.id, target.id, dragged.order, target.order);
    forall j | 0 <= j < |before|
      ensures after[j] == r[j]
    {
      assert TaskIds(before)[j] == before[j].id;
      assert TaskIds(before)[a] == dragged.id && TaskIds(before)[b] == target.id;
    }
  }
}
