/** The multi-criteria task filter and the counts over its result. A criterion
    given as "" is absent (a falsy value) and filters nothing. */
module TaskFilters {
  import opened Seqs
  import opened Text
  import opened Records
  import opened DateUtils
  import opened PriorityUtils

  /** The `filters` object. */
  datatype Filters = Filters(searchTerm: string, categoryId: string, priority: string, status: string, dueDate: string)

  /** `task.title.toLowerCase().includes(term.toLowerCase())` */
  function MatchesSearch(term: string): Task -> bool {
    (t: Task) => Contains(ToLower(t.title), ToLower(term))
  }

  /** The steps of `applyTaskFilters`, one per criterion, each on the previous result. */
  function BySearch(tasks: seq<Task>, f: Filters): (r: seq<Task>)
    ensures IsSubsequence(r, tasks)
  {
    if f.searchTerm != "" then
      FilterIsSubsequence(tasks, MatchesSearch(f.searchTerm));
      Filter(tasks, MatchesSearch(f.searchTerm))
    else
      SubsequenceReflexive(tasks);
      tasks
  }

  function ByCategory(tasks: seq<Task>, f: Filters): (r: seq<Task>)
    ensures IsSubsequence(r, tasks)
  {
    if f.categoryId != "" then
      FilterIsSubsequence(tasks, InCategory(f.categoryId));
      Filter(tasks, InCategory(f.categoryId))
    else
      SubsequenceReflexive(tasks);
      tasks
  }

  function ByPriority(tasks: seq<Task>, f: Filters): (r: seq<Task>)
    ensures IsSubsequence(r, tasks)
  {
    if f.priority != "" && f.priority != "all" then FilterTasksByPriority(tasks, f.priority)
    else
      SubsequenceReflexive(tasks);
      tasks
  }

  function ByStatus(tasks: seq<Task>, f: Filters): (r: seq<Task>)
    ensures IsSubsequence(r, tasks)
  {
    FilterIsSubsequence(tasks, IsCompleted());
    FilterIsSubsequence(tasks, IsPending());
    SubsequenceReflexive(tasks);
    if f.status != "" && f.status != "all" then
      if f.status == "completed" then Filter(tasks, IsCompleted())
      else if f.status == "pending" then Filter(tasks, IsPending())
      else tasks
    else tasks
  }

  function ByDueDate(tasks: seq<Task>, f: Filters, clock: Clock): (r: seq<Task>)
    ensures IsSubsequence(r, tasks)
  {
    if f.dueDate != "" && f.dueDate != "all" then FilterTasksByDate(tasks, f.dueDate, clock)
    else
      SubsequenceReflexive(tasks);
      tasks
  }

  /** `applyTaskFilters(tasks, filters)`: search, category, priority, status, due date,
      in that order, on a copy. */
  function ApplyTaskFilters(tasks: seq<Task>, f: Filters, clock: Clock): (r: seq<Task>)
    ensures IsSubsequence(r, tasks)
  {
    var s1 := BySearch(tasks, f);
    var s2 := ByCategory(s1, f);
    var s3 := ByPriority(s2, f);
    var s4 := ByStatus(s3, f);
    var s5 := ByDueDate(s4, f, clock);
    SubsequenceTransitive(s5, s4, s3);
    SubsequenceTransitive(s5, s3, s2);
    SubsequenceTransitive(s5, s2, s1);
    SubsequenceTransitive(s5, s1, tasks);
    s5
  }

  /** The criteria, each read as a test that a task passes outright when the
      criterion is absent. */
  function SearchTest(f: Filters): Task -> bool {
    (t: Task) => f.searchTerm == "" || Contains(ToLower(t.title), ToLower(f.searchTerm))
  }

  function CategoryTest(f: Filters): Task -> bool {
    (t: Task) => f.categoryId == "" || t.categoryId == f.categoryId
  }

  function PriorityTest(f: Filters): Task -> bool {
    (t: Task) => f.priority == "" || f.priority == "all" || t.priority == f.priority
  }

  function StatusTest(f: Filters): Task -> bool {
    (t: Task) => (f.status == "completed" ==> t.completed) && (f.status == "pending" ==> !t.completed)
  }

  function DueDateTest(f: Filters, clock: Clock): Task -> bool {
    (t: Task) => f.dueDate == "" || f.dueDate == "all" || KeepsByDate(f.dueDate, clock)(t)
  }

  /** A task passes the whole filter when it passes every criterion. */
  predicate Matches(f: Filters, clock: Clock, t: Task) {
    && SearchTest(f)(t) && CategoryTest(f)(t) && PriorityTest(f)(t) && StatusTest(f)(t)
    && DueDateTest(f, clock)(t)
  }

  /** One step of the chain is the filter by its own criterion. */
  lemma {:induction false} StepIsFilter(s: seq<Task>, step: seq<Task>, p: Task -> bool, active: bool, q: Task -> bool)
    requires step == if active then Filter(s, q) else s
    requires forall t :: p(t) == (!active || q(t))
    ensures step == Filter(s, p)
  {
    if active {
      FilterExt(s, q, p);
    } else {
      FilterKeepsAll(s, p);
    }
  }

  /** `applyTaskFilters` keeps exactly the tasks that pass every criterion, in
      their original order: the chain of filters is one conjunctive filter. */
  lemma ApplyTaskFiltersIsConjunction(tasks: seq<Task>, f: Filters, clock: Clock)
    ensures ApplyTaskFilters(tasks, f, clock) == Filter(tasks, t => Matches(f, clock, t))
  {
    var p1, p2, p3, p4, p5 := SearchTest(f), CategoryTest(f), PriorityTest(f), StatusTest(f), DueDateTest(f, clock);
    var s1 := BySearch(tasks, f);
    var s2 := ByCategory(s1, f);
    var s3 := ByPriority(s2, f);
    var s4 := ByStatus(s3, f);
    var s5 := ByDueDate(s4, f, clock);
    assert s1 == Filter(tasks, p1) by {
      StepIsFilter(tasks, s1, p1, f.searchTerm != "", MatchesSearch(f.searchTerm));
    }
    assert s2 == Filter(s1, p2) by {
      StepIsFilter(s1, s2, p2, f.categoryId != "", InCategory(f.categoryId));
    }
    assert s3 == Filter(s2, p3) by {
      StepIsFilter(s2, s3, p3, f.priority != "" && f.priority != "all", HasPriority(f.priority));
    }
    assert s4 == Filter(s3, p4) by {
      var statusActive := f.status == "completed" || f.status == "pending";
      var statusTest := if f.status == "completed" then IsCompleted() else IsPending();
      StepIsFilter(s3, s4, p4, statusActive, statusTest);
    }
    assert s5 == Filter(s4, p5) by {
      StepIsFilter(s4, s5, p5, f.dueDate != "" && f.dueDate != "all", KeepsByDate(f.dueDate, clock));
    }
    var q2 := Both(p1, p2);
    var q3 := Both(q2, p3);
    var q4 := Both(q3, p4);
    var q5 := Both(q4, p5);
    FilterFilter(tasks, p1, p2);
    FilterFilter(tasks, q2, p3);
    FilterFilter(tasks, q3, p4);
    FilterFilter(tasks, q4, p5);
    assert s5 == Filter(tasks, q5);
    FilterExt(tasks, q5, t => Matches(f, clock, t));
  }

  /** With no criterion set, every criterion `'all'`, or a status other than
      "completed" and "pending", the result is the input. */
  lemma ApplyTaskFiltersIdentity(tasks: seq<Task>, f: Filters, clock: Clock)
    requires f.searchTerm == "" && f.categoryId == ""
    requires f.priority == "" || f.priority == "all"
    requires f.status != "completed" && f.status != "pending"
    requires f.dueDate == "" || f.dueDate == "all"
    ensures ApplyTaskFilters(tasks, f, clock) == tasks
  {
  }

  /** The object `getFilterStats` returns. */
  datatype FilterStats = FilterStats(total: nat, completed: nat, pending: nat, overdue: nat)

  /** The test of the `overdue` count: dated, not completed, and due before
      today's midnight. */
  function IsOverdue(clock: Clock): Task -> bool {
    (t: Task) => t.dueDate.Some? && !t.completed && t.dueDate.value < Midnight(clock.Today())
  }

  /** An overdue task is an uncompleted one due on an earlier calendar day. */
  lemma IsOverdueByDay(clock: Clock, t: Task)
    ensures IsOverdue(clock)(t) <==> t.dueDate.Some? && !t.completed && DayOf(t.dueDate.value) < clock.Today()
  {
    if t.dueDate.Some? {
      BeforeMidnight(t.dueDate.value, clock.Today());
    }
  }

  /** `getFilterStats(tasks, filters)`: counts over the filtered list. `total` is the
      number of tasks meeting every criterion; every task is completed or pending,
      and only pending tasks can be overdue. */
  function GetFilterStats(tasks: seq<Task>, f: Filters, clock: Clock): (r: FilterStats)
    ensures r.total == |Filter(tasks, t => Matches(f, clock, t))|
    ensures r.completed == |Filter(Filter(tasks, t => Matches(f, clock, t)), IsCompleted())|
    ensures r.pending == |Filter(Filter(tasks, t => Matches(f, clock, t)), IsPending())|
    ensures r.overdue == |Filter(Filter(tasks, t => Matches(f, clock, t)), IsOverdue(clock))|
    ensures r.total == r.completed + r.pending
    ensures r.overdue <= r.pending
  {
    var filtered := ApplyTaskFilters(tasks, f, clock);
    ApplyTaskFiltersIsConjunction(tasks, f, clock);
    var completed := Filter(filtered, IsCompleted());
    var pending := Filter(filtered, IsPending());
    var overdue := Filter(filtered, IsOverdue(clock));
    FilterExt(filtered, Not(IsCompleted()), IsPending());
    FilterPartition(filtered, IsCompleted());
    FilterMonotone(filtered, IsOverdue(clock), IsPending());
    FilterStats(|filtered|, |completed|, |pending|, |overdue|)
  }
}
