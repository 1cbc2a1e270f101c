/** The category sidebar: task counters over its copy of the task list, and the
    quick form that creates a category. Category ids are numbers while
    `task.categoryId` is a string, so the counters compare against `catId.toString()`. */
module CategorySidebar {
  import opened Wrappers
  import opened Seqs
  import opened Text
  import opened Records
  import opened TaskApi
  import opened CategoryApi

  /** `predefinedColors` */
  const PredefinedColors := ["#5B4FE9", "#7C71F5", "#FF6B6B", "#4ECDC4", "#FFD93D",
                             "#4DABF7", "#9C88FF", "#FF8A65", "#81C784", "#FFB74D"]

  /** `getTaskCount(catId)`: the tasks filed under the category. */
  function GetTaskCount(tasks: seq<Task>, catId: int): (n: nat)
    ensures n <= |tasks|
  {
    |Filter(tasks, InCategory(IntToString(catId)))|
  }

  /** `task.categoryId === catId.toString() && !task.completed` */
  function PendingIn(catId: int): Task -> bool {
    (t: Task) => t.categoryId == IntToString(catId) && !t.completed
  }

  /** `getPendingTaskCount(catId)`: never more than the category's task count. */
  function GetPendingTaskCount(tasks: seq<Task>, catId: int): (n: nat)
    ensures n <= GetTaskCount(tasks, catId)
  {
    FilterMonotone(tasks, PendingIn(catId), InCategory(IntToString(catId)));
    |Filter(tasks, PendingIn(catId))|
  }

  /** `getAllTasksCount()`: every task is either pending or completed, so the
      count is the pending tasks plus the completed ones. */
  function GetAllTasksCount(tasks: seq<Task>): (n: nat)
    ensures n == |Filter(tasks, IsPending())| + |Filter(tasks, IsCompleted())|
  {
    FilterPartition(tasks, IsCompleted());
    FilterExt(tasks, Not(IsCompleted()), IsPending());
    |tasks|
  }

  /** `getAllPendingTasksCount()`: never more than the task count, and together with
      the completed tasks it makes up the whole list. */
  function GetAllPendingTasksCount(tasks: seq<Task>): (n: nat)
    ensures n <= |tasks|
    ensures n + |Filter(tasks, IsCompleted())| == |tasks|
  {
    FilterPartition(tasks, IsCompleted());
    FilterExt(tasks, Not(IsCompleted()), IsPending());
    |Filter(tasks, IsPending())|
  }

  /** The counters of several categories added up. */
  function SumOfCounts(tasks: seq<Task>, catIds: seq<int>): nat {
    if catIds == [] then 0 else GetTaskCount(tasks, catIds[0]) + SumOfCounts(tasks, catIds[1..])
  }

  /** `catIds.some(c => task.categoryId === c.toString())` */
  function InAnyOf(catIds: seq<int>): Task -> bool {
    (t: Task) => exists i | 0 <= i < |catIds| :: t.categoryId == IntToString(catIds[i])
  }

  /** A task is counted under one category at most: over distinct category ids the
      counters add up to the tasks filed under any of them, hence to no more than
      the task count. */
  lemma {:induction false} CountsPartitionTasks(tasks: seq<Task>, catIds: seq<int>)
    requires UniqueIds(catIds)
    ensures SumOfCounts(tasks, catIds) == |Filter(tasks, InAnyOf(catIds))|
    ensures SumOfCounts(tasks, catIds) <= |tasks|
  {
    if catIds == [] {
      FilterKeepsNone(tasks, InAnyOf(catIds));
      FilterPartition(tasks, InAnyOf(catIds));
    } else {
      var head := InCategory(IntToString(catIds[0]));
      var rest := InAnyOf(catIds[1..]);
      assert UniqueIds(catIds[1..]) by {
        forall i, j | 0 <= i < j < |catIds[1..]| ensures catIds[1..][i] != catIds[1..][j] {
          assert catIds[1..][i] == catIds[i + 1] && catIds[1..][j] == catIds[j + 1];
        }
      }
      CountsPartitionTasks(tasks, catIds[1..]);
      forall k | 0 <= k < |tasks|
        ensures !(head(tasks[k]) && rest(tasks[k]))
      {
        if head(tasks[k]) {
          forall i | 0 <= i < |catIds[1..]|
            ensures tasks[k].categoryId != IntToString(catIds[1..][i])
          {
            assert catIds[1..][i] == catIds[i + 1];
            IntToStringInjective(catIds[0], catIds[i + 1]);
          }
        }
      }
      FilterDisjointCount(tasks, head, rest);
      forall t
        ensures Either(head, rest)(t) == InAnyOf(catIds)(t)
      {
        if rest(t) {
          var i :| 0 <= i < |catIds[1..]| && t.categoryId == IntToString(catIds[1..][i]);
          assert t.categoryId == IntToString(catIds[i + 1]);
        }
        if InAnyOf(catIds)(t) && !head(t) {
          var i :| 0 <= i < |catIds| && t.categoryId == IntToString(catIds[i]);
          assert t.categoryId == IntToString(catIds[1..][i - 1]);
        }
      }
      FilterExt(tasks, Either(head, rest), InAnyOf(catIds));
      FilterPartition(tasks, InAnyOf(catIds));
    }
  }

  class CategorySidebarView {
    /** The `categories` state. */
    var categories: seq<Category>
    /** The `tasks` state. */
    var tasks: seq<Task>
    /** The `showAddForm` state. */
    var showAddForm: bool
    /** The `newCategoryName` state. */
    var newCategoryName: string
    /** The stores the component calls. */
    const categoryStore: CategoryService
    const taskStore: TaskService

    constructor (categoryStore: CategoryService, taskStore: TaskService)
      ensures this.categoryStore == categoryStore && this.taskStore == taskStore
      ensures categories == [] && tasks == [] && !showAddForm && newCategoryName == ""
    {
      this.categoryStore := categoryStore;
      this.taskStore := taskStore;
      categories := [];
      tasks := [];
      showAddForm := false;
      newCategoryName := "";
    }

    /** `loadData()`: the categories sorted by `order`, and the tasks. */
    method LoadData()
      modifies this
      ensures categories == SortedByOrder(categoryStore.categories) && tasks == taskStore.tasks
      ensures showAddForm == old(showAddForm) && newCategoryName == old(newCategoryName)
    {
      categories := categoryStore.GetAll();
      tasks := taskStore.GetAll();
    }

    /** `handleCreateCategory(e)`: a blank name creates nothing; otherwise the store
        receives the trimmed name, the colour `PredefinedColors[colorPick]` and
        `order: categories.length`, the new category is appended to the local list,
        and the form is cleared and closed. `colorPick` is
        `Math.floor(Math.random() * predefinedColors.length)`. */
    method HandleCreateCategory(colorPick: nat) returns (created: Option<Category>)
      requires colorPick < |PredefinedColors|
      modifies this, categoryStore
      ensures tasks == old(tasks)
      ensures Trim(old(newCategoryName)) == "" ==>
        created == None && categories == old(categories) && categoryStore.categories == old(categoryStore.categories)
        && newCategoryName == old(newCategoryName) && showAddForm == old(showAddForm)
      ensures Trim(old(newCategoryName)) != "" ==>
        && created.Some?
        && created.value == NewCategory(old(categoryStore.categories),
             NewCategoryPayload(Trim(old(newCategoryName)), colorPick, |old(categories)|))
        && categoryStore.categories == old(categoryStore.categories) + [created.value]
        && categories == old(categories) + [created.value]
        && newCategoryName == "" && !showAddForm
    {
      var name := Trim(newCategoryName);
      if name == "" {
        return None;
      }
      var c := categoryStore.Create(NewCategoryPayload(name, colorPick, |categories|));
      categories := categories + [c];
      newCategoryName := "";
      showAddForm := false;
      created := Some(c);
    }
  }

  /** The object `handleCreateCategory` passes to `create`: no id, the given name,
      the picked predefined colour and `order` set to the number of listed categories. */
  function NewCategoryPayload(name: string, colorPick: nat, listed: nat): (d: CategoryFields)
    requires colorPick < |PredefinedColors|
    ensures d.id.None? && d.name == Some(name) && d.order == Some(listed)
    ensures d.color.Some? && d.color.value in PredefinedColors
  {
    CategoryFields(None, Some(name), Some(PredefinedColors[colorPick]), Some(listed))
  }

  /** What the form hands the store: the trimmed name, a predefined colour and the
      position after the listed categories, so an empty list gives `order: 0`. */
  lemma CreatedCategoryFields(existing: seq<Category>, listed: nat, name: string, colorPick: nat)
    requires Trim(name) != "" && colorPick < |PredefinedColors|
    ensures var c := NewCategory(existing, NewCategoryPayload(Trim(name), colorPick, listed));
      && c.name == Trim(name) && c.name != [] && !IsSpace(c.name[0]) && !IsSpace(c.name[|c.name| - 1])
      && c.color in PredefinedColors && c.order == listed
      && c.id !in CategoryIds(existing)
  {
  }
}
