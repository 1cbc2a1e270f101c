/** The records the two stores hold, the object literals passed to `create` and
    `update`, and the id arithmetic the stores share: `Math.max(...ids, 0) + 1`,
    `findIndex(r => r.Id === parseInt(id))`. */
module Records {
  import opened Wrappers
  import opened Text

  /** A task. `dueDate` and `createdAt` are the instants the stored ISO strings
      denote, in local-time milliseconds; `dueDate` is `None` for `null` or a
      missing date. `categoryId` is the category's `Id` as a string. */
  datatype Task = Task(
    id: int,
    title: string,
    completed: bool,
    priority: string,
    dueDate: Option<int>,
    categoryId: string,
    createdAt: int,
    order: int,
    notes: Option<string>)

  /** The fields an object literal passed to the task store supplies; `None` is a
      field the literal does not have. `dueDate: Some(None)` is `dueDate: null`. */
  datatype TaskFields = TaskFields(
    id: Option<int>,
    title: Option<string>,
    completed: Option<bool>,
    priority: Option<string>,
    dueDate: Option<Option<int>>,
    categoryId: Option<string>,
    createdAt: Option<int>,
    order: Option<int>,
    notes: Option<string>)

  /** `{}` */
  const NoTaskFields := TaskFields(None, None, None, None, None, None, None, None, None)

  /** `{ ...t, ...p }`: a field of `p` replaces the same field of `t`; the others stay. */
  function MergeTask(t: Task, p: TaskFields): Task {
    Task(
      p.id.GetOr(t.id),
      p.title.GetOr(t.title),
      p.completed.GetOr(t.completed),
      p.priority.GetOr(t.priority),
      p.dueDate.GetOr(t.dueDate),
      p.categoryId.GetOr(t.categoryId),
      p.createdAt.GetOr(t.createdAt),
      p.order.GetOr(t.order),
      if p.notes.Some? then p.notes else t.notes)
  }

  /** A category. */
  datatype Category = Category(id: int, name: string, color: string, order: int)

  /** The fields an object literal passed to the category store supplies. */
  datatype CategoryFields = CategoryFields(
    id: Option<int>,
    name: Option<string>,
    color: Option<string>,
    order: Option<int>)

  /** `{ ...c, ...p }` */
  function MergeCategory(c: Category, p: CategoryFields): Category {
    Category(p.id.GetOr(c.id), p.name.GetOr(c.name), p.color.GetOr(c.color), p.order.GetOr(c.order))
  }

  /** `task.categoryId === key` */
  function InCategory(key: string): Task -> bool {
    (t: Task) => t.categoryId == key
  }

  /** `task.completed` */
  function IsCompleted(): Task -> bool {
    (t: Task) => t.completed
  }

  /** `!task.completed` */
  function IsPending(): Task -> bool {
    (t: Task) => !t.completed
  }

  // ---------------------------------------------------------------------------
  // Ids

  /** An id argument as the callers pass it: a number (a record's `Id`) or a string
      (a route parameter, a form field). */
  datatype IdArg = Num(n: int) | Str(s: string)

  /** `id.toString()` */
  function IdString(a: IdArg): string {
    match a
    case Num(n) => IntToString(n)
    case Str(s) => s
  }

  /** `parseInt(id)`, which first converts a number to its numeral; `None` is `NaN`.
      A numeric id comes back unchanged. */
  function ParsedId(a: IdArg): (r: Option<int>)
    ensures a.Num? ==> r == Some(a.n)
  {
    if a.Num? then ParseIntOfIntToString(a.n); ParseInt(IdString(a))
    else ParseInt(IdString(a))
  }

  function TaskIds(ts: seq<Task>): (ids: seq<int>)
    ensures |ids| == |ts| && forall i | 0 <= i < |ts| :: ids[i] == ts[i].id
  {
    seq(|ts|, i requires 0 <= i < |ts| => ts[i].id)
  }

  function CategoryIds(cs: seq<Category>): (ids: seq<int>)
    ensures |ids| == |cs| && forall i | 0 <= i < |cs| :: ids[i] == cs[i].id
  {
    seq(|cs|, i requires 0 <= i < |cs| => cs[i].id)
  }

  /** No id occurs twice. */
  predicate UniqueIds(ids: seq<int>) {
    forall i, j | 0 <= i < j < |ids| :: ids[i] != ids[j]
  }

  /** The position of the first `key` in `ids`, or -1 when there is none. */
  function IndexOf(ids: seq<int>, key: int): (r: int)
    ensures -1 <= r < |ids|
    ensures r == -1 <==> key !in ids
    ensures 0 <= r ==> ids[r] == key && forall j | 0 <= j < r :: ids[j] != key
  {
    if ids == [] then -1
    else if ids[0] == key then 0
    else
      var k := IndexOf(ids[1..], key);
      if k == -1 then -1 else k + 1
  }

  /** `findIndex(r => r.Id === key)` where `key` is the parsed argument: `NaN`
      matches no record. */
  function Locate(ids: seq<int>, key: Option<int>): (r: int)
    ensures -1 <= r < |ids|
    ensures r == -1 <==> key.None? || key.value !in ids
    ensures 0 <= r ==> ids[r] == key.value && forall j | 0 <= j < r :: ids[j] != key.value
  {
    if key.None? then -1 else IndexOf(ids, key.value)
  }

  /** `Math.max(...ids, 0)`: the largest id, or 0 when there is none above 0. */
  function MaxOrZero(ids: seq<int>): (m: int)
    ensures m >= 0
    ensures forall i | 0 <= i < |ids| :: ids[i] <= m
    ensures m == 0 || m in ids
  {
    if ids == [] then 0
    else
      var rest := MaxOrZero(ids[1..]);
      if ids[0] > rest then ids[0] else rest
  }

  /** The id `create` assigns: above every id in use, and 1 in an empty store. */
  function NextId(ids: seq<int>): (n: int)
    ensures n >= 1 && n !in ids
    ensures forall i | 0 <= i < |ids| :: ids[i] < n
    ensures ids == [] ==> n == 1
  {
    MaxOrZero(ids) + 1
  }

  /** Appending a fresh id keeps the ids unique, and the new id is found last. */
  lemma AppendFreshId(ids: seq<int>, n: int)
    requires n !in ids
    ensures IndexOf(ids + [n], n) == |ids|
    ensures UniqueIds(ids) ==> UniqueIds(ids + [n])
  {
    assert (ids + [n])[|ids|] == n;
  }
}
