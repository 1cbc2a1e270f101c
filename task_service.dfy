/** The in-memory task store: a list of task records changed in place by `create`,
    `update`, `delete` and `toggleComplete`. The simulated latency is left out, so
    every operation completes at once. */
module TaskApi {
  import opened Wrappers
  import opened Seqs
  import opened Records

  const TaskNotFound := "Task not found"

  /** The position of the record `id` names, or -1. */
  function Find(ts: seq<Task>, id: IdArg): int {
    Locate(TaskIds(ts), ParsedId(id))
  }

  /** The record `create(data)` stores next to `existing` at instant `now`: the
      defaults, then every field `data` supplies spread over them. */
  function NewTask(existing: seq<Task>, data: TaskFields, now: int): (t: Task)
    requires data.title.Some? && data.categoryId.Some?
    ensures data.id.None? ==> t.id !in TaskIds(existing) && forall i | 0 <= i < |existing| :: existing[i].id < t.id
    ensures data.id.None? && existing == [] ==> t.id == 1
    ensures data.id.Some? ==> t.id == data.id.value
    ensures t.title == data.title.value && t.categoryId == data.categoryId.value
    ensures t.completed == data.completed.GetOr(false)
    ensures t.priority == data.priority.GetOr("medium")
    ensures t.dueDate == data.dueDate.GetOr(None)
    ensures t.order == data.order.GetOr(|existing| + 1)
    ensures t.createdAt == data.createdAt.GetOr(now)
    ensures t.notes == data.notes
  {
    // The `||` fallbacks of the literal are overwritten by the spread whenever the
    // field is supplied, so the defaults can be written plainly.
    var defaults := Task(NextId(TaskIds(existing)), data.title.value, false, "medium", None,
                         data.categoryId.value, now, |existing| + 1, None);
    MergeTask(defaults, data)
  }

  /** The record with its completion flag flipped. */
  function Toggled(t: Task): Task {
    t.(completed := !t.completed)
  }

  lemma SameIdsAfterReplace(ts: seq<Task>, i: nat, t: Task)
    requires i < |ts| && t.id == ts[i].id
    ensures TaskIds(ts[i := t]) == TaskIds(ts)
  {
  }

  lemma IdsAfterRemove(ts: seq<Task>, i: nat)
    requires i < |ts|
    ensures TaskIds(ts[..i] + ts[i + 1..]) == TaskIds(ts)[..i] + TaskIds(ts)[i + 1..]
  {
  }

  /** The list `update(id, data)` leaves: the first record with that id merged
      with `data`, or the list as it was when no record has that id. */
  function Updated(ts: seq<Task>, id: IdArg, data: TaskFields): (r: seq<Task>)
    ensures |r| == |ts|
    ensures data.id.None? ==> TaskIds(r) == TaskIds(ts)
    ensures forall j | 0 <= j < |ts| && j != Find(ts, id) :: r[j] == ts[j]
    ensures Find(ts, id) >= 0 ==> r[Find(ts, id)] == MergeTask(ts[Find(ts, id)], data)
    ensures Find(ts, id) < 0 ==> r == ts
  {
    var i := Find(ts, id);
    if i < 0 then ts
    else
      var r := ts[i := MergeTask(ts[i], data)];
      assert data.id.None? ==> TaskIds(r) == TaskIds(ts) by {
        if data.id.None? {
          SameIdsAfterReplace(ts, i, MergeTask(ts[i], data));
        }
      }
      r
  }

  class TaskService {
    /** `this.tasks` */
    var tasks: seq<Task>

    constructor (seed: seq<Task>)
      ensures tasks == seed
    {
      tasks := seed;
    }

    /** `getAll()`: a copy of the list, the same records in the same order. */
    method GetAll() returns (r: seq<Task>)
      ensures r == tasks
    {
      r := tasks;
    }

    /** `getById(id)`: the first record whose `Id` is `parseInt(id)`, or "Task not found". */
    method GetById(id: IdArg) returns (r: Result<Task>)
      ensures r.Err? <==> ParsedId(id).None? || ParsedId(id).value !in TaskIds(tasks)
      ensures r.Err? ==> r == Err(TaskNotFound)
      ensures r.Ok? ==> r.value == tasks[Find(tasks, id)] && r.value.id == ParsedId(id).value
    {
      var i := Find(tasks, id);
      if i < 0 {
        return Err(TaskNotFound);
      }
      return Ok(tasks[i]);
    }

    /** `create(data)`: appends one record with a fresh id and returns it. */
    method Create(data: TaskFields, now: int) returns (t: Task)
      requires data.title.Some? && data.categoryId.Some?
      modifies this
      ensures t == NewTask(old(tasks), data, now)
      ensures tasks == old(tasks) + [t]
      ensures data.id.None? && UniqueIds(TaskIds(old(tasks))) ==> UniqueIds(TaskIds(tasks))
    {
      t := NewTask(tasks, data, now);
      if data.id.None? {
        AppendFreshId(TaskIds(tasks), t.id);
        assert TaskIds(tasks + [t]) == TaskIds(tasks) + [t.id];
      }
      tasks := tasks + [t];
    }

    /** `update(id, data)`: merges `data` into the first record with that id, or
        fails with "Task not found" and changes nothing. */
    method Update(id: IdArg, data: TaskFields) returns (r: Result<Task>)
      modifies this
      ensures tasks == Updated(old(tasks), id, data)
      ensures r.Err? <==> Find(old(tasks), id) < 0
      ensures r.Err? ==> r == Err(TaskNotFound)
      ensures r.Ok? ==> r.value == tasks[Find(old(tasks), id)]
      ensures data.id.None? ==> TaskIds(tasks) == TaskIds(old(tasks))
    {
      var i := Find(tasks, id);
      if i < 0 {
        return Err(TaskNotFound);
      }
      if data.id.None? {
        SameIdsAfterReplace(tasks, i, MergeTask(tasks[i], data));
      }
      tasks := tasks[i := MergeTask(tasks[i], data)];
      r := Ok(tasks[i]);
    }

    /** `delete(id)`: removes the first record with that id, or fails with
        "Task not found" and changes nothing. */
    method Delete(id: IdArg) returns (r: Result<bool>)
      modifies this
      ensures var i := Find(old(tasks), id);
        if i < 0 then r == Err(TaskNotFound) && tasks == old(tasks)
        else tasks == old(tasks)[..i] + old(tasks)[i + 1..] && r == Ok(true)
      ensures UniqueIds(TaskIds(old(tasks))) ==> UniqueIds(TaskIds(tasks))
    {
      var i := Find(tasks, id);
      if i < 0 {
        return Err(TaskNotFound);
      }
      IdsAfterRemove(tasks, i);
      tasks := tasks[..i] + tasks[i + 1..];
      r := Ok(true);
    }

    /** `getByCategory(categoryId)`: the records whose `categoryId` is the argument's
        string form, in store order. */
    method GetByCategory(categoryId: IdArg) returns (r: seq<Task>)
      ensures r == Filter(tasks, InCategory(IdString(categoryId)))
      ensures IsSubsequence(r, tasks)
      ensures forall t :: t in r <==> t in tasks && t.categoryId == IdString(categoryId)
    {
      r := Filter(tasks, InCategory(IdString(categoryId)));
      FilterIsSubsequence(tasks, InCategory(IdString(categoryId)));
      FilterMembers(tasks, InCategory(IdString(categoryId)));
    }

    /** `toggleComplete(id)`: flips `completed` of the first record with that id, or
        fails with "Task not found" and changes nothing. */
    method ToggleComplete(id: IdArg) returns (r: Result<Task>)
      modifies this
      ensures var i := Find(old(tasks), id);
        if i < 0 then r == Err(TaskNotFound) && tasks == old(tasks)
        else tasks == old(tasks)[i := Toggled(old(tasks)[i])] && r == Ok(tasks[i])
      ensures TaskIds(tasks) == TaskIds(old(tasks))
    {
      var i := Find(tasks, id);
      if i < 0 {
        return Err(TaskNotFound);
      }
      SameIdsAfterReplace(tasks, i, Toggled(tasks[i]));
      tasks := tasks[i := Toggled(tasks[i])];
      r := Ok(tasks[i]);
    }
  }

  // ---------------------------------------------------------------------------
  // What callers of the store can rely on, stated as verified call sequences.

  /** A record just created is what `getById` returns for its id. */
  method CreateThenGetById(store: TaskService, data: TaskFields, now: int) returns (t: Task, found: Result<Task>)
    requires data.title.Some? && data.categoryId.Some? && data.id.None?
    modifies store
    ensures found == Ok(t)
  {
    t := store.Create(data, now);
    AppendFreshId(TaskIds(old(store.tasks)), t.id);
    assert TaskIds(store.tasks) == TaskIds(old(store.tasks)) + [t.id];
    found := store.GetById(Num(t.id));
  }

  /** After a successful `update(id, data)`, `getById(id)` shows the supplied fields
      and every other field as it was. */
  method UpdateThenGetById(store: TaskService, id: IdArg, data: TaskFields) returns (updated: Result<Task>, found: Result<Task>)
    requires data.id.None?
    modifies store
    ensures updated.Ok? <==> Find(old(store.tasks), id) >= 0
    ensures updated.Ok? ==> found == updated
    ensures updated.Ok? ==> var i := Find(old(store.tasks), id);
      found.value == MergeTask(old(store.tasks)[i], data) && found.value.id == ParsedId(id).value
    ensures updated.Err? ==> found.Err? && store.tasks == old(store.tasks)
  {
    updated := store.Update(id, data);
    found := store.GetById(id);
  }

  /** Toggling twice restores the store. */
  method ToggleTwice(store: TaskService, id: IdArg) returns (first: Result<Task>, second: Result<Task>)
    modifies store
    ensures store.tasks == old(store.tasks)
    ensures first.Ok? <==> second.Ok?
    ensures first.Ok? ==> second.value == first.value.(completed := !first.value.completed)
  {
    first := store.ToggleComplete(id);
    second := store.ToggleComplete(id);
  }
}
