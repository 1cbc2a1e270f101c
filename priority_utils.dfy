/** The priority table and the helpers built on it: lookup with a fallback,
    sort by weight, filter by name and the per-priority counts. */
module PriorityUtils {
  import opened Seqs
  import opened Records

  /** One entry of `priorityConfig`; `labelText` is its `label` (a reserved word here). */
  datatype PriorityConfig = PriorityConfig(
    labelText: string, color: string, bgColor: string, textColor: string, icon: string, weight: int)

  const HighConfig := PriorityConfig("High Priority", "#FF6B6B", "#FFF1F1", "#E01010", "AlertTriangle", 3)
  const MediumConfig := PriorityConfig("Medium Priority", "#FFD93D", "#FFFDF0", "#B45309", "Minus", 2)
  const LowConfig := PriorityConfig("Low Priority", "#9CA3AF", "#F9FAFB", "#6B7280", "ArrowDown", 1)

  /** The keys of `priorityConfig`. */
  predicate IsKnownPriority(p: string) {
    p == "high" || p == "medium" || p == "low"
  }

  /** `getPriorityConfig(priority)`: the table entry, or the medium one for any other
      name. */
  function GetPriorityConfig(priority: string): (r: PriorityConfig)
    ensures !IsKnownPriority(priority) ==> r == MediumConfig
    ensures r.weight == 3 <==> priority == "high"
    ensures r.weight == 1 <==> priority == "low"
    ensures r.weight == 2 <==> priority != "high" && priority != "low"
  {
    if priority == "high" then HighConfig
    else if priority == "low" then LowConfig
    else MediumConfig
  }

  /** The weights order the three priorities strictly: high over medium over low. */
  lemma WeightsOrdered(p: string)
    ensures GetPriorityConfig("high").weight > GetPriorityConfig("medium").weight > GetPriorityConfig("low").weight
    ensures GetPriorityConfig("low").weight <= GetPriorityConfig(p).weight <= GetPriorityConfig("high").weight
  {
  }

  /** `(a, b) => getPriorityConfig(b.priority).weight - getPriorityConfig(a.priority).weight` */
  function CompareByWeight(a: Task, b: Task): int {
    GetPriorityConfig(b.priority).weight - GetPriorityConfig(a.priority).weight
  }

  lemma CompareByWeightIsPreorder()
    ensures IsTotalPreorder(CompareByWeight)
  {
  }

  /** `sortTasksByPriority(tasks)`: a sorted copy; the input is not touched. */
  function SortTasksByPriority(tasks: seq<Task>): (r: seq<Task>)
    ensures multiset(r) == multiset(tasks)
  {
    Sort(tasks, CompareByWeight)
  }

  /** The sorted copy holds every task of the input in non-increasing weight. */
  lemma SortTasksByPriorityOrdered(tasks: seq<Task>)
    ensures multiset(SortTasksByPriority(tasks)) == multiset(tasks)
    ensures forall i, j | 0 <= i < j < |SortTasksByPriority(tasks)| ::
      GetPriorityConfig(SortTasksByPriority(tasks)[i].priority).weight >=
      GetPriorityConfig(SortTasksByPriority(tasks)[j].priority).weight
  {
    CompareByWeightIsPreorder();
    SortSorted(tasks, CompareByWeight);
  }

  /** `task.priority === p` */
  function HasPriority(p: string): Task -> bool {
    (t: Task) => t.priority == p
  }

  /** `filterTasksByPriority(tasks, priority)` */
  function FilterTasksByPriority(tasks: seq<Task>, priority: string): (r: seq<Task>)
    ensures priority == "all" ==> r == tasks
    ensures priority != "all" ==> IsSubsequence(r, tasks)
    ensures priority != "all" ==> forall t :: t in r <==> t in tasks && t.priority == priority
  {
    if priority == "all" then tasks
    else
      FilterIsSubsequence(tasks, HasPriority(priority));
      FilterMembers(tasks, HasPriority(priority));
      Filter(tasks, HasPriority(priority))
  }

  /** The object `getPriorityStats` returns. */
  datatype PriorityStats = PriorityStats(high: nat, medium: nat, low: nat, total: nat)

  /** The number of tasks whose priority is `p`. */
  function CountPriority(tasks: seq<Task>, p: string): (n: nat)
    ensures n <= |tasks|
  {
    |Filter(tasks, HasPriority(p))|
  }

  /** `getPriorityStats(tasks)`: one pass that bumps the counter named by each
      task's priority when `stats` has such a key; `total` starts at the length
      and is itself one of the keys. */
  method GetPriorityStats(tasks: seq<Task>) returns (stats: PriorityStats)
    ensures stats.high == CountPriority(tasks, "high")
    ensures stats.medium == CountPriority(tasks, "medium")
    ensures stats.low == CountPriority(tasks, "low")
    ensures stats.total == |tasks| + CountPriority(tasks, "total")
    ensures stats.high + stats.medium + stats.low == |Filter(tasks, (t: Task) => IsKnownPriority(t.priority))|
  {
    stats := PriorityStats(0, 0, 0, |tasks|);
    for i := 0 to |tasks|
      invariant stats.high == CountPriority(tasks[..i], "high")
      invariant stats.medium == CountPriority(tasks[..i], "medium")
      invariant stats.low == CountPriority(tasks[..i], "low")
      invariant stats.total == |tasks| + CountPriority(tasks[..i], "total")
    {
      assert tasks[..i + 1] == tasks[..i] + [tasks[i]];
      CountPriorityStep(tasks[..i], tasks[i], "high");
      CountPriorityStep(tasks[..i], tasks[i], "medium");
      CountPriorityStep(tasks[..i], tasks[i], "low");
      CountPriorityStep(tasks[..i], tasks[i], "total");
      var p := tasks[i].priority;
      if p == "high" {
        stats := stats.(high := stats.high + 1);
      } else if p == "medium" {
        stats := stats.(medium := stats.medium + 1);
      } else if p == "low" {
        stats := stats.(low := stats.low + 1);
      } else if p == "total" {
        stats := stats.(total := stats.total + 1);
      }
    }
    assert tasks[..|tasks|] == tasks;
    KnownPriorityCount(tasks);
  }

  /** One more task adds one to the count of its own priority and nothing to the others. */
  lemma CountPriorityStep(prefix: seq<Task>, t: Task, p: string)
    ensures CountPriority(prefix + [t], p) == CountPriority(prefix, p) + (if t.priority == p then 1 else 0)
  {
    FilterAppend(prefix, [t], HasPriority(p));
    FilterCons([t], HasPriority(p));
  }

  /** The three counters together count the tasks with a known priority. */
  lemma KnownPriorityCount(tasks: seq<Task>)
    ensures CountPriority(tasks, "high") + CountPriority(tasks, "medium") + CountPriority(tasks, "low")
         == |Filter(tasks, (t: Task) => IsKnownPriority(t.priority))|
  {
    var hm := Either(HasPriority("high"), HasPriority("medium"));
    FilterDisjointCount(tasks, HasPriority("high"), HasPriority("medium"));
    FilterDisjointCount(tasks, hm, HasPriority("low"));
    FilterExt(tasks, Either(hm, HasPriority("low")), (t: Task) => IsKnownPriority(t.priority));
  }
}
