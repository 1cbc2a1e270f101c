/** Due-date bucketing: the status badge of one date, the date filter and the
    date sort. Instants are local-time milliseconds; the calendar day of an
    instant is the number of whole days since the epoch. The wall clock and the
    bounds of the current week (Sunday 00:00 through Saturday 23:59:59.999, as
    `startOfWeek` and `endOfWeek` give them) are a `Clock` parameter. */
module DateUtils {
  import opened Wrappers
  import opened Seqs
  import opened Records

  const MsPerDay := 86_400_000

  /** The calendar day an instant falls on. */
  function DayOf(t: int): int {
    t / MsPerDay
  }

  /** The first instant of a calendar day: what `setHours(0, 0, 0, 0)` yields. */
  function Midnight(day: int): int {
    day * MsPerDay
  }

  /** An instant lies before the midnight that starts `day` exactly when its
      calendar day is an earlier one. */
  lemma BeforeMidnight(t: int, day: int)
    ensures t < Midnight(day) <==> DayOf(t) < day
  {
    assert Midnight(DayOf(t)) <= t < Midnight(DayOf(t) + 1);
    if DayOf(t) < day {
      assert Midnight(DayOf(t) + 1) <= Midnight(day);
    } else {
      assert Midnight(day) <= Midnight(DayOf(t));
    }
  }

  /** `new Date()` together with `startOfWeek(today)` and `endOfWeek(today)`. */
  datatype Clock = Clock(now: int, weekStart: int, weekEnd: int) {
    /** The calendar day of `now`. */
    function Today(): int {
      DayOf(now)
    }

    /** `isThisWeek(t)` */
    predicate InWeek(t: int) {
      weekStart <= t <= weekEnd
    }
  }

  /** The strings `getDateStatus` returns. */
  datatype DateStatus = Overdue | DueToday | DueTomorrow | ThisWeek | Upcoming

  /** `getDateStatus(date)`: `isPast` is "before now", `isToday` and `isTomorrow`
      compare calendar days, checked in that precedence. The result is the
      calendar bucket of the due day. */
  function GetDateStatus(date: Option<int>, clock: Clock): (r: Option<DateStatus>)
    ensures r.None? <==> date.None?
    ensures r == Some(Overdue) <==> date.Some? && DayOf(date.value) < clock.Today()
    ensures r == Some(DueToday) <==> date.Some? && DayOf(date.value) == clock.Today()
    ensures r == Some(DueTomorrow) <==> date.Some? && DayOf(date.value) == clock.Today() + 1
    ensures r == Some(ThisWeek) <==>
      date.Some? && DayOf(date.value) > clock.Today() + 1 && clock.InWeek(date.value)
    ensures r == Some(Upcoming) <==>
      date.Some? && DayOf(date.value) > clock.Today() + 1 && !clock.InWeek(date.value)
  {
    if date.None? then None
    else
      var t := date.value;
      var day := DayOf(t);
      PastIsEarlierDay(t, clock);
      if t < clock.now && day != clock.Today() then Some(Overdue)
      else if day == clock.Today() then Some(DueToday)
      else if day == clock.Today() + 1 then Some(DueTomorrow)
      else if clock.InWeek(t) then Some(ThisWeek)
      else Some(Upcoming)
  }

  /** Before `now` but not on today's calendar day is the same as on an earlier day. */
  lemma PastIsEarlierDay(t: int, clock: Clock)
    ensures (t < clock.now && DayOf(t) != clock.Today()) <==> DayOf(t) < clock.Today()
  {
    BeforeMidnight(t, clock.Today());
    BeforeMidnight(clock.now, clock.Today() + 1);
    BeforeMidnight(t, clock.Today() + 1);
    BeforeMidnight(clock.now, clock.Today());
  }

  /** The test `filterTasksByDate(tasks, filter)` applies to one task. */
  function KeepsByDate(filter: string, clock: Clock): Task -> bool {
    (task: Task) =>
      if task.dueDate.None? then filter == "noDueDate"
      else
        var due := task.dueDate.value;
        if filter == "today" then DayOf(due) == clock.Today()
        else if filter == "tomorrow" then DayOf(due) == clock.Today() + 1
        else if filter == "thisWeek" then clock.InWeek(due)
        else if filter == "overdue" then DayOf(due) < clock.Today() && !task.completed
        else true
  }

  /** `filterTasksByDate(tasks, filter)`: the tasks the date test keeps, in order. */
  function FilterTasksByDate(tasks: seq<Task>, filter: string, clock: Clock): (r: seq<Task>)
    ensures IsSubsequence(r, tasks)
    ensures forall t :: t in r <==> t in tasks && KeepsByDate(filter, clock)(t)
  {
    FilterIsSubsequence(tasks, KeepsByDate(filter, clock));
    FilterMembers(tasks, KeepsByDate(filter, clock));
    Filter(tasks, KeepsByDate(filter, clock))
  }

  /** The date filter names that select a bucket. */
  predicate IsKnownDateFilter(filter: string) {
    filter in ["today", "tomorrow", "thisWeek", "overdue", "noDueDate"]
  }

  /** "noDueDate" keeps the undated tasks and, through the fall-through branch, the
      dated ones too: the whole list. */
  lemma {:induction false} NoDueDateKeepsAll(tasks: seq<Task>, clock: Clock)
    ensures FilterTasksByDate(tasks, "noDueDate", clock) == tasks
  {
    FilterKeepsAll(tasks, KeepsByDate("noDueDate", clock));
  }

  /** A filter name that selects no bucket keeps exactly the dated tasks. */
  lemma {:induction false} UnknownFilterKeepsDated(tasks: seq<Task>, filter: string, clock: Clock)
    requires !IsKnownDateFilter(filter)
    ensures FilterTasksByDate(tasks, filter, clock) == Filter(tasks, (t: Task) => t.dueDate.Some?)
  {
    FilterExt(tasks, KeepsByDate(filter, clock), (t: Task) => t.dueDate.Some?);
  }

  /** The "today", "tomorrow" and "overdue" filters agree with the status badge;
      the week filter takes in every task the badge calls "this week". */
  lemma FilterAgreesWithStatus(task: Task, clock: Clock)
    requires task.dueDate.Some?
    ensures KeepsByDate("today", clock)(task) <==> GetDateStatus(task.dueDate, clock) == Some(DueToday)
    ensures KeepsByDate("tomorrow", clock)(task) <==> GetDateStatus(task.dueDate, clock) == Some(DueTomorrow)
    ensures KeepsByDate("overdue", clock)(task) <==>
      GetDateStatus(task.dueDate, clock) == Some(Overdue) && !task.completed
    ensures GetDateStatus(task.dueDate, clock) == Some(ThisWeek) ==> KeepsByDate("thisWeek", clock)(task)
  {
  }

  /** The comparator of `sortTasksByDate`: undated tasks last, dated ones by instant. */
  function CompareByDue(a: Task, b: Task): int {
    if a.dueDate.None? && b.dueDate.None? then 0
    else if a.dueDate.None? then 1
    else if b.dueDate.None? then -1
    else a.dueDate.value - b.dueDate.value
  }

  lemma CompareByDueIsPreorder()
    ensures IsTotalPreorder(CompareByDue)
  {
  }

  /** `sortTasksByDate(tasks)`: a sorted copy; the input is not touched. */
  function SortTasksByDate(tasks: seq<Task>): (r: seq<Task>)
    ensures multiset(r) == multiset(tasks)
  {
    Sort(tasks, CompareByDue)
  }

  /** The sorted copy has every task of the input, the dated ones first in
      non-decreasing due instant, then the undated ones. */
  lemma SortTasksByDateOrdered(tasks: seq<Task>)
    ensures multiset(SortTasksByDate(tasks)) == multiset(tasks)
    ensures forall i, j | 0 <= i < j < |SortTasksByDate(tasks)| ::
      SortTasksByDate(tasks)[j].dueDate.Some? ==> SortTasksByDate(tasks)[i].dueDate.Some?
    ensures forall i, j | 0 <= i < j < |SortTasksByDate(tasks)| ::
      SortTasksByDate(tasks)[i].dueDate.Some? && SortTasksByDate(tasks)[j].dueDate.Some? ==>
        SortTasksByDate(tasks)[i].dueDate.value <= SortTasksByDate(tasks)[j].dueDate.value
  {
    CompareByDueIsPreorder();
    SortSorted(tasks, CompareByDue);
    var r := SortTasksByDate(tasks);
    forall i, j | 0 <= i < j < |r|
      ensures r[j].dueDate.Some? ==> r[i].dueDate.Some?
    {
      assert CompareByDue(r[i], r[j]) <= 0;
    }
  }
}
