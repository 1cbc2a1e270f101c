# TaskFlow core in Dafny

A model of the logic behind the TaskFlow to-do app:

- the two in-memory stores, `TaskService` and `CategoryService`. Each is a class with a `seq` field that `create`, `update` and `delete` change in place, as does the task store's `toggleComplete`. Ids are assigned as `Math.max(...ids, 0) + 1` and looked up with `parseInt`;
- the task query engine: `applyTaskFilters`, `getFilterStats`, the date bucketing of `dateUtils.js` and the priority helpers of `priorityUtils.js`;
- the task list component: its own filter-and-sort pipeline `getFilteredTasks`, and the handlers for drag-and-drop reordering, toggling and deleting, which update the store and then the local list;
- the category sidebar's counters and its quick "new category" form;
- the task form's validation, its submitted payload, `handleChange` and its initialisation from props.

Modules, one per source file: `TaskApi` (task store), `CategoryApi` (category store), `DateUtils`, `PriorityUtils`, `TaskFilters`, `TaskList`, `CategorySidebar` and `TaskForm`. They share four helper modules:

- `Wrappers`: `Option` and `Result`;
- `Seqs`: `Array.prototype.filter`, and the stable comparator sort of ES2019 as an insertion sort, with permutation, sortedness and stability lemmas;
- `Text`: `trim`, ASCII `toLowerCase`, `includes`, integer `toString` and `parseInt`;
- `Records`: the task and category records, object spread as a field-by-field merge, and the id arithmetic.

How the model represents things:

- A thrown `Error('Task not found')` is `Err("Task not found")`. A store operation that fails leaves the store as it was.
- A field the caller's object literal does not have is `None` in `TaskFields` or `CategoryFields`. A filter value that is absent or `''` (falsy) is `""`.
- Instants are local-time milliseconds. The calendar day of an instant is `t / 86_400_000`. The wall clock and the bounds of the current week (`startOfWeek`/`endOfWeek`) are passed in as a `Clock` value.
- An id argument is `IdArg`: either a number (`Num`) or a string (`Str`). The services compare `Id === parseInt(id)`. The components compare `task.categoryId` with `catId.toString()`. `parseInt` of a number's numeral gives the number back (`Text.ParseIntOfIntToString`). Distinct numbers have distinct numerals (`Text.IntToStringInjective`).

Two behaviours of the code that its names do not suggest, which the model keeps:

- The `noDueDate` date filter of `filterTasksByDate` keeps every task, dated ones too. Undated tasks pass its first test, and dated tasks reach the `default: return true` branch (`DateUtils.NoDueDateKeepsAll`).
- The two "this week" rules differ. `getFilteredTasks` in `TaskList.jsx` takes "this week" to mean today through today + 7 days, while `filterTasksByDate` takes it to mean the calendar week (`TaskList.WeekRulesDiffer`).

## Model

| member | source | states |
|---|---|---|
| Records.MaxOrZero | src/services/api/taskService.js:30 | `Math.max(...ids, 0)` is at least 0 and at least every id, and it is 0 or one of the ids |
| Records.NextId | src/services/api/taskService.js:30 | the new id is at least 1, above every existing id (so not in use), and exactly 1 for an empty store |
| Records.IndexOf | src/services/api/taskService.js:50 | `findIndex`: -1 exactly when the id is absent; otherwise the first position holding it |
| Records.Locate | src/services/api/taskService.js:50 | `findIndex(t => t.Id === parseInt(id))`: a `NaN` key matches no record; otherwise the first matching position, or -1 |
| Records.ParsedId | src/services/api/taskService.js:20 | `parseInt(id)` of a numeric id is that number |
| Records.AppendFreshId | src/services/api/taskService.js:43 | appending an id not in use keeps ids distinct, and the new id is found at the end |
| Text.Trim | src/components/molecules/TaskForm.jsx:45 | `trim()` is a slice of the string with only white space cut from either end; it is empty exactly when the string is all white space, and otherwise neither starts nor ends with white space |
| Text.TrimIdempotent | src/components/molecules/TaskForm.jsx:64 | trimming an already trimmed title changes nothing |
| Text.ContainsIff | src/utils/taskFilters.js:10-12 | `includes` holds exactly when the term occurs as a slice of the title at some position |
| Text.ParseIntOfIntToString | src/services/api/taskService.js:20 | `parseInt(String(n)) === n` for every integer `n` |
| Text.IntToStringInjective | src/components/organisms/CategorySidebar.jsx:52 | two category ids have the same `toString()` exactly when they are equal |
| Seqs.Filter | src/utils/taskFilters.js:10-12 | `filter` never returns more elements than it is given |
| Seqs.FilterMembers | src/utils/taskFilters.js:10-12 | `filter` keeps exactly the elements that pass |
| Seqs.FilterIsSubsequence | src/utils/taskFilters.js:10-12 | what `filter` keeps comes out in the input's order (a subsequence of it) |
| Seqs.FilterDropsOne | src/components/organisms/TaskList.jsx:63 | removing the one element that fails the test leaves the list around it, in order |
| Seqs.FilterMultiplicity | src/utils/taskFilters.js:10-12 | `filter` keeps each passing element as often as it occurs and drops every failing one |
| Seqs.SubsequenceTransitive | src/utils/taskFilters.js:5-41 | a filter of a filter is still a subsequence of the original list |
| Seqs.FilterFilter | src/utils/taskFilters.js:5-41 | two filters in a row are one filter by the conjunction of their tests |
| Seqs.Sort | src/services/api/categoryService.js:15 | `[...xs].sort(cmp)` is a permutation of its input |
| Seqs.SortSorted | src/services/api/categoryService.js:15 | with a consistent comparator, no later element compares below an earlier one |
| Seqs.SortStable | src/services/api/categoryService.js:15 | elements that compare equal keep their input order (the sort is stable) |
| TaskApi.NewTask | src/services/api/taskService.js:27-41 | a created task has an id above every existing one (1 in an empty store) unless the payload gives one; it is not completed, has priority 'medium', no due date, `order` = length + 1 and `createdAt` = now unless the payload gives each; every field the payload supplies wins |
| TaskApi.TaskService.constructor | src/services/api/taskService.js:4-6 | the store starts with the seed list |
| TaskApi.TaskService.GetAll | src/services/api/taskService.js:13-16 | returns the stored list with the same content and order |
| TaskApi.TaskService.GetById | src/services/api/taskService.js:18-25 | fails with "Task not found" exactly when no record has id `parseInt(id)`; otherwise returns the first such record |
| TaskApi.TaskService.Create | src/services/api/taskService.js:27-45 | appends exactly the new record and returns it; earlier records keep their content and order; distinct ids stay distinct |
| TaskApi.Updated | src/services/api/taskService.js:50-55 | the list `update(id, data)` leaves: unchanged when no record has the id; otherwise the first match becomes its shallow merge with `data`, every other record stays, the length stays, and an id-less patch keeps every id |
| TaskApi.TaskService.Update | src/services/api/taskService.js:47-57 | with an absent id, fails and changes nothing; otherwise replaces only the matching record by the shallow merge, keeps every other record and the length, and returns the merged record |
| TaskApi.TaskService.Delete | src/services/api/taskService.js:59-69 | with an absent id, fails and changes nothing; otherwise removes exactly the matching record, keeps the order of the rest and returns true |
| TaskApi.TaskService.GetByCategory | src/services/api/taskService.js:71-74 | returns exactly the tasks whose `categoryId` is the argument's string form, as a subsequence of the store |
| TaskApi.TaskService.ToggleComplete | src/services/api/taskService.js:76-86 | with an absent id, fails and changes nothing; otherwise flips only `completed` of the matching record |
| TaskApi.CreateThenGetById | src/services/api/taskService.js:18-45 | looking up a just-created task by its id finds that task |
| TaskApi.UpdateThenGetById | src/services/api/taskService.js:47-57 | the update succeeds exactly when the id is present; the lookup then returns the record at that position merged with the patch, carrying the requested id; after a failure the lookup fails too and the store is unchanged |
| TaskApi.ToggleTwice | src/services/api/taskService.js:84 | two toggles of the same id restore the store |
| CategoryApi.CompareByOrderIsPreorder | src/services/api/categoryService.js:15 | `a.order - b.order` is a consistent comparator |
| CategoryApi.SortedByOrder | src/services/api/categoryService.js:15 | the sorted copy is a permutation of the stored categories |
| CategoryApi.SortedByOrderIsOrdered | src/services/api/categoryService.js:15 | `getAll` lists every category in ascending `order` |
| CategoryApi.SortedByOrderIsStable | src/services/api/categoryService.js:15 | categories with the same `order` keep their stored relative order |
| CategoryApi.NewCategory | src/services/api/categoryService.js:27-37 | a fresh id as for tasks; colour '#5B4FE9' and `order` = length + 1 unless the payload gives them; supplied fields win, including `order: 0` |
| CategoryApi.CategoryService.constructor | src/services/api/categoryService.js:4-6 | the store starts with the seed list |
| CategoryApi.CategoryService.GetAll | src/services/api/categoryService.js:13-16 | returns the sorted copy and leaves the stored order alone |
| CategoryApi.CategoryService.GetById | src/services/api/categoryService.js:18-25 | fails with "Category not found" exactly when no category has id `parseInt(id)`; otherwise returns the first one |
| CategoryApi.CategoryService.Create | src/services/api/categoryService.js:27-41 | appends exactly the new category and returns it; distinct ids stay distinct |
| CategoryApi.CategoryService.Update | src/services/api/categoryService.js:43-53 | with an absent id, fails and changes nothing; otherwise shallow-merges into that category only |
| CategoryApi.CategoryService.Delete | src/services/api/categoryService.js:55-65 | with an absent id, fails and changes nothing; otherwise removes exactly that category |
| DateUtils.BeforeMidnight | src/utils/taskFilters.js:52-56 | an instant is before the midnight that starts a day exactly when its calendar day is earlier |
| DateUtils.PastIsEarlierDay | src/utils/dateUtils.js:20 | "in the past and not today" is the same as "on an earlier calendar day" |
| DateUtils.GetDateStatus | src/utils/dateUtils.js:15-26 | no status exactly for a missing date; otherwise exactly one bucket: overdue iff the due day is before today, today, tomorrow, this week (later than tomorrow, inside the week bounds) or upcoming (later than tomorrow, outside them) |
| DateUtils.FilterTasksByDate | src/utils/dateUtils.js:28-57 | returns a subsequence of its input; exactly the tasks the date test keeps |
| DateUtils.NoDueDateKeepsAll | src/utils/dateUtils.js:38-54 | "noDueDate" returns the whole list, dated tasks included |
| DateUtils.UnknownFilterKeepsDated | src/utils/dateUtils.js:39-54 | a filter name that is no bucket keeps exactly the dated tasks |
| DateUtils.FilterAgreesWithStatus | src/utils/dateUtils.js:44-52 | "today" and "tomorrow" keep exactly the dated tasks on today's / tomorrow's calendar day; "overdue" keeps exactly the uncompleted ones due on an earlier day; every task whose status is "this week" passes "thisWeek" (the full timestamp inside the week bounds) |
| DateUtils.CompareByDueIsPreorder | src/utils/dateUtils.js:60-68 | the date comparator is consistent |
| DateUtils.SortTasksByDate | src/utils/dateUtils.js:59-69 | the sorted copy is a permutation of the input |
| DateUtils.SortTasksByDateOrdered | src/utils/dateUtils.js:59-69 | dated tasks come before undated ones, and dated tasks are in non-decreasing due instant |
| PriorityUtils.GetPriorityConfig | src/utils/priorityUtils.js:28-30 | the medium entry for any unrecognised name; weight 3 exactly for "high", 1 exactly for "low", 2 otherwise |
| PriorityUtils.WeightsOrdered | src/utils/priorityUtils.js:1-26 | high 3 > medium 2 > low 1, and every weight lies between low's and high's |
| PriorityUtils.CompareByWeightIsPreorder | src/utils/priorityUtils.js:32-38 | the weight comparator is consistent |
| PriorityUtils.SortTasksByPriority | src/utils/priorityUtils.js:32-38 | the sorted copy is a permutation of the input |
| PriorityUtils.SortTasksByPriorityOrdered | src/utils/priorityUtils.js:32-38 | the sorted copy is in non-increasing weight |
| PriorityUtils.FilterTasksByPriority | src/utils/priorityUtils.js:40-43 | "all" returns the input itself; any other name keeps exactly the tasks with that priority, in order |
| PriorityUtils.GetPriorityStats | src/utils/priorityUtils.js:45-60 | each of high/medium/low is the number of tasks with that priority; `total` is the length plus the tasks whose priority is the key "total"; high + medium + low is the number of tasks with a known priority |
| PriorityUtils.KnownPriorityCount | src/utils/priorityUtils.js:53-57 | the three counters add up to the tasks whose priority is high, medium or low |
| TaskFilters.ApplyTaskFilters | src/utils/taskFilters.js:4-42 | the result is a subsequence of the input |
| TaskFilters.ApplyTaskFiltersIsConjunction | src/utils/taskFilters.js:4-42 | a task is kept exactly when it passes every active criterion (search, category, priority, status, due date), in input order |
| TaskFilters.ApplyTaskFiltersIdentity | src/utils/taskFilters.js:8-39 | with no criterion, every criterion 'all', or a status other than completed/pending, the output equals the input |
| TaskFilters.IsOverdueByDay | src/utils/taskFilters.js:51-57 | a task counts as overdue exactly when it is dated, not completed and due on a day before today |
| TaskFilters.GetFilterStats | src/utils/taskFilters.js:44-59 | over the tasks meeting every criterion: total is their number, completed, pending and overdue are the numbers of them that are completed, pending and overdue; total = completed + pending; overdue ≤ pending |
| TaskList.ListDateTestAgrees | src/components/organisms/TaskList.jsx:144-163 | outside "thisWeek" the list's date test is the same as `filterTasksByDate`'s |
| TaskList.WeekRulesDiffer | src/components/organisms/TaskList.jsx:141-157 | the two "this week" rules differ: a task due on day 7 is this week's for the list and not for `filterTasksByDate` when the week ends earlier |
| TaskList.CompareForListIsPreorder | src/components/organisms/TaskList.jsx:167-170 | the order-then-newest comparator is consistent |
| TaskList.GetFilteredTasks | src/components/organisms/TaskList.jsx:105-171 | the shown list is a permutation of the selected tasks and does not change the `tasks` state |
| TaskList.ListSelectionIsConjunction | src/components/organisms/TaskList.jsx:106-164 | the selection keeps exactly the tasks that pass every criterion (category by exact string equality, search, priority, status, the list's date rule), in order |
| TaskList.GetFilteredTasksSortedSelection | src/components/organisms/TaskList.jsx:105-171 | the shown list is a permutation of the tasks passing every criterion, ascending by `order`, ties newest `createdAt` first |
| TaskList.AgreesWithApplyTaskFilters | src/components/organisms/TaskList.jsx:105-171 | outside "thisWeek", the shown list is `applyTaskFilters` of the same criteria, sorted |
| TaskList.WithCompleted | src/components/organisms/TaskList.jsx:51-53 | the toggle's map keeps the length and every id |
| TaskList.Reordered | src/components/organisms/TaskList.jsx:92-96 | the drop's map keeps the length and every id |
| TaskList.ReorderedSwapsOrders | src/components/organisms/TaskList.jsx:83-96 | with distinct ids and the two tasks' current orders, the dragged task gets the target's order, the target gets the dragged task's, every other task is unchanged, and the multiset of orders is the same |
| TaskList.RemoveUniqueId | src/components/organisms/TaskList.jsx:63 | with distinct ids, removing the tasks with one id removes exactly the record the store deletes |
| TaskList.DropMatchesStore | src/components/organisms/TaskList.jsx:86-96 | the store's two single-record updates give the same list as the local swap |
| TaskList.TaskListView.constructor | src/components/organisms/TaskList.jsx:18-22 | the list starts empty with nothing dragged |
| TaskList.TaskListView.LoadData | src/components/organisms/TaskList.jsx:24-42 | after loading, the local list is the store's list |
| TaskList.TaskListView.HandleDragStart | src/components/organisms/TaskList.jsx:70-72 | records the dragged task and leaves the list alone |
| TaskList.TaskListView.HandleDragEnd | src/components/organisms/TaskList.jsx:74-76 | clears the dragged task and leaves the list alone |
| TaskList.TaskListView.HandleToggleComplete | src/components/organisms/TaskList.jsx:48-58 | succeeds exactly when the store holds the id; the store becomes its `update(id, {completed})` result; on success the local list sets `completed` on the tasks with that id only, on failure it is unchanged; a list in step with the store (distinct ids) stays in step |
| TaskList.TaskListView.HandleDeleteTask | src/components/organisms/TaskList.jsx:60-68 | succeeds exactly when the store holds the id, and then the store loses the first record with it and the local list the tasks with it; on failure neither list changes; a list in step with the store stays in step |
| TaskList.TaskListView.HandleDrop | src/components/organisms/TaskList.jsx:78-102 | nothing happens with no dragged task or a drop onto itself; otherwise it succeeds exactly when the store holds both ids, the store becomes the result of both order updates (each a no-op when its id is missing, so one can apply while the other fails), and the local list takes the order swap only on success; a list in step with the store stays in step |
| CategorySidebar.GetTaskCount | src/components/organisms/CategorySidebar.jsx:51-53 | the number of tasks filed under `catId.toString()`, at most the task count |
| CategorySidebar.GetPendingTaskCount | src/components/organisms/CategorySidebar.jsx:55-59 | never more than the category's task count |
| CategorySidebar.GetAllTasksCount | src/components/organisms/CategorySidebar.jsx:61-63 | the number of pending tasks plus the number of completed ones: every task is counted once |
| CategorySidebar.GetAllPendingTasksCount | src/components/organisms/CategorySidebar.jsx:65-67 | at most the task count; with the completed tasks it makes up the whole list |
| CategorySidebar.CountsPartitionTasks | src/components/organisms/CategorySidebar.jsx:51-53 | over distinct category ids, the counts add up to the tasks filed under any of them, so never more than the task count |
| CategorySidebar.CategorySidebarView.constructor | src/components/organisms/CategorySidebar.jsx:14-20 | empty lists, form closed, empty name |
| CategorySidebar.CategorySidebarView.LoadData | src/components/organisms/CategorySidebar.jsx:27-45 | the categories sorted by `order` and the store's tasks |
| CategorySidebar.CategorySidebarView.HandleCreateCategory | src/components/organisms/CategorySidebar.jsx:69-92 | a blank or whitespace-only name creates nothing and changes nothing; otherwise the store creates a category with the trimmed name, a predefined colour and `order` = number of listed categories, and it is appended to the local list; the name is cleared and the form closed |
| CategorySidebar.NewCategoryPayload | src/components/organisms/CategorySidebar.jsx:76-81 | the object passed to `create` has no id, the given name, a colour from the predefined list and `order` = number of listed categories |
| CategorySidebar.CreatedCategoryFields | src/components/organisms/CategorySidebar.jsx:76-81 | the created category has the trimmed, non-blank name, a predefined colour, `order` = listed count (0 for an empty list) and an unused id |
| TaskForm.ValidIff | src/components/molecules/TaskForm.jsx:42-55 | the form is valid exactly when the trimmed title and the category are non-empty; each missing one gets its message |
| TaskForm.SubmitPayload | src/components/molecules/TaskForm.jsx:62-68 | the payload has the trimmed title, the trimmed notes, the category and priority as entered, a null due date exactly when the date field is empty, and otherwise `new Date(dueDate)` |
| TaskForm.SubmittedPayloadCreates | src/components/molecules/TaskForm.jsx:57-71 | a payload from a valid form meets the store's create: the new task has the trimmed non-blank title, a fresh id, is not completed and goes last |
| TaskForm.Initialised | src/components/molecules/TaskForm.jsx:25-40 | editing copies the task, its priority when it has one and 'medium' otherwise, and notes '' if it has none; a new form keeps a chosen category, or else takes the first category's id as a string |
| TaskForm.TaskFormView.constructor | src/components/molecules/TaskForm.jsx:16-23 | empty fields, priority 'medium', no errors |
| TaskForm.TaskFormView.Initialise | src/components/molecules/TaskForm.jsx:25-40 | the form state becomes the initialised one; errors are untouched |
| TaskForm.TaskFormView.HandleChange | src/components/molecules/TaskForm.jsx:73-78 | sets only the named field and clears only that field's error |
| TaskForm.TaskFormView.ValidateForm | src/components/molecules/TaskForm.jsx:42-55 | records the errors for the current fields and reports validity |
| TaskForm.TaskFormView.HandleSubmit | src/components/molecules/TaskForm.jsx:57-71 | an invalid form never submits; a valid one submits exactly the normalised payload |

## Left out

- The simulated latency (`delay`) and `async`: every store operation completes at once.
- `Promise.all`: in `handleDrop` the two store updates run one after the other, and in `loadData` the two reads likewise. Interleavings of concurrent calls are not modelled.
- `date-fns` calendar arithmetic, time zones, ISO string parsing and formatting (`formatTaskDate`, `format`, `toISOString`). Instants are local-time milliseconds. `new Date(text)` for the form's date field and `format(date, 'yyyy-MM-dd')` are parameters of `TaskForm.SubmitPayload` and `TaskForm.Initialised`.
- `createdAt` is an ISO string in the source and an instant here. The list compares `new Date(createdAt)`, so only the instant matters.
- `TaskApi.TaskService.Create` and `CategoryApi.CategoryService.Create` require a title and a category id (for a task) or a name (for a category). Every caller passes them; without them the source would store `undefined`.
- `Math.random` in the sidebar's colour choice is the parameter `colorPick` (a value below 10).
- TaskApi.TaskService.GetAll, TaskApi.TaskService.GetByCategory, TaskApi.TaskService.ToggleComplete: records are values here. In the source `getAll` and `getByCategory` return new arrays holding the store's own record objects, and `toggleComplete` flips `completed` on that shared object. The change therefore also shows in any array an earlier `getAll` returned, such as the `tasks` state of `useTasks`. This sharing is not modelled.
- Toasts, `window.confirm`, `window.location`, error messages shown on screen, the `loading` and `isCreating` flags, and all rendering.
- The mock JSON seed data is not shown; the stores' constructors take the seed list as a parameter.
- `toLowerCase` is ASCII only; the rest of Unicode case mapping is not modelled.
- PriorityUtils.GetPriorityConfig: a name that is an `Object.prototype` member (such as "toString") would yield that member instead of the medium entry; the model treats it as unknown.
- PriorityUtils.GetPriorityStats: a priority that is an `Object.prototype` member passes the `in` test and adds a stray property to `stats`. The four counters the model returns are not affected.
- Number-to-string conversion is modelled for integers only, in plain decimal. Exponent notation of very large ids is not modelled.
- The task list's `categories` state is used only for display and is not modelled.
