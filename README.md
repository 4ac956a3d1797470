# Task store model

A Dafny model of the task store of a personal to-do application (`task_manager.py`):
the `Task` record with its dictionary form, and the `TaskManager` that keeps tasks in
insertion order, looks them up by identity, filters and counts them, changes them, and
saves the whole list to a file after every change.

- `task.dfy`, module `Tasks`: the `Task` datatype (seven attributes), the field map a
  task is saved as (`Record`, a map from attribute name to a `Value`: a JSON integer,
  string, boolean or null),
  `ToDict` / `FromDict`, and the backing file (`Stored`: missing, unparsable, or a parsed
  sequence of field maps) with `Serialise` (what `save_tasks` writes) and `Load` (what
  `load_tasks` reads back).
- `task_manager.dfy`, module `Store`: specification functions over `seq<Task>` (`Find`,
  `Lookup`, `Filter`, `Count`, and `Removed`, `Marked`, `Updated` for the mutations), the
  class `TaskManager` with a `tasks: seq<Task>` field and a `file: Stored` field, and the
  lemmas relating the operations.

Each mutating method (`AddTask`, `UpdateTask`, `DeleteTask`, `CompleteTask`,
`UncompleteTask`) states its new list as a function of the old one and states that the
file then holds `Serialise` of the new list, or is untouched when the identity was not
found. `Position` and `UpdateTask` keep the loops of `get_task` and of `update_task`'s
`setattr` pass, with their invariants. The queries and `get_statistics` are functions
of the list.

The model keeps these behaviours of the code:

- `update_task` can overwrite `id` and `created_at`, since `hasattr` is true for both.
- An empty search query matches every task, because the empty string is a substring of
  every string.
- A record loaded without `id` gets the identity `Task(...)` allocates (`id(self)`). Here
  that identity comes from the caller.

## Model

| member | source | states |
|---|---|---|
| `Tasks.NewTask` | task_manager.py:15-23 | a new task is not completed; its identity and creation time are the ones supplied |
| `Tasks.ConstructorDefaults` | task_manager.py:15-49 | a record holding only a title loads to the task the constructor builds from that title: the constructor's defaults are `from_dict`'s |
| `Tasks.ToDict` | task_manager.py:25-35 | the dictionary has exactly the seven attribute names as keys, each holding a value of that attribute's kind |
| `Tasks.FromDict` | task_manager.py:37-49 | fails exactly when `title` is absent; every present attribute of the right kind is taken verbatim; a missing description or due date is "", a missing priority is "Medium", a missing completed is false, a missing created_at is the current time, a missing or null id is the freshly allocated identity |
| `Tasks.DictRoundTrip` | task_manager.py:25-49 | `from_dict(to_dict(t))` equals `t` in every attribute |
| `Tasks.Serialise` | task_manager.py:135-139 | one field map per task, in list order: map i is `to_dict` of task i, with exactly the seven attributes, well typed |
| `Tasks.FromDicts` | task_manager.py:147 | the comprehension fails exactly when some record has no title; otherwise it has one task per record, task i being `from_dict` of record i |
| `Tasks.Load` | task_manager.py:141-151 | a missing file or one that does not parse gives the empty list, so does a record without a title; otherwise task i is `from_dict` of record i |
| `Tasks.SaveLoadRoundTrip` | task_manager.py:135-151 | loading what `save_tasks` wrote gives back the same list, field for field |
| `Store.Find` | task_manager.py:72-77 | nothing exactly when no task has the identity; otherwise the position of a task with it, before which no task has it |
| `Store.Lookup` | task_manager.py:72-77 | nothing exactly when no task has the identity; otherwise a task of the list with that identity, before which no task has it |
| `Store.Filter` | task_manager.py:123-133 | the result is an order-preserving subsequence of the list, holds exactly the tasks that meet the criterion, and is as long as the number of positions whose task meets it |
| `Store.Count` | task_manager.py:156-162 | a count of tasks meeting a criterion is at most the length, and is zero exactly when no task meets it |
| `Store.SetAttr` | task_manager.py:86-87 | a name that is no attribute changes nothing; setting `id` or `completed` gives that attribute the new value and keeps the other one |
| `Store.SetAttrAsDict` | task_manager.py:86-87 | setting an attribute overwrites its entry in the task's field map and no other |
| `Store.Apply` | task_manager.py:85-87 | changes naming no attribute leave the task as it was; without an `id` or `created_at` change those stay as they were |
| `Store.AttributeAgrees` | task_manager.py:85-87 | after the update, an attribute's entry is the change given for it, or the old entry when there is none |
| `Store.Removed` | task_manager.py:96 | an absent identity leaves the list as it was; otherwise exactly the first task with the identity is dropped: the tasks before it and after it stay, in order |
| `Store.Marked` | task_manager.py:101-117 | the length and every identity are kept; each task is unchanged except the first one with the identity, whose completed flag takes the new value |
| `Store.Updated` | task_manager.py:79-90 | the length is kept; the first task with the identity has the changes applied and every other task is unchanged; an absent identity leaves the list as it was |
| `Store.ApplyAsDict` | task_manager.py:85-87 | after the update, the task's field map is the old field map overwritten by exactly those entries of the changes that name an attribute |
| `Store.ApplyStep` | task_manager.py:85-87 | one turn of the `setattr` loop: applying one more entry is `setattr` on the result so far |
| `Store.TaskManager.constructor` | task_manager.py:59-62 | the list is what `load_tasks` reads from the file |
| `Store.TaskManager.LoadTasks` | task_manager.py:141-151 | the list is reassigned to what the file loads to |
| `Store.TaskManager.SaveTasks` | task_manager.py:135-139 | the file holds the serialised list |
| `Store.TaskManager.Position` | task_manager.py:74-77 | the loop returns the first position holding the identity, or nothing |
| `Store.TaskManager.GetTask` | task_manager.py:72-77 | returns the first task with the identity, or nothing |
| `Store.TaskManager.AddTask` | task_manager.py:64-70 | the returned task has the given identity, title, description, priority, due date and time, and is not completed; the new list is the old one with that task appended; the file holds the new list |
| `Store.TaskManager.UpdateTask` | task_manager.py:79-90 | returns whether a task has the identity; the new list applies the changes to the first such task only; the file is saved only on success |
| `Store.TaskManager.DeleteTask` | task_manager.py:92-99 | returns whether a task has the identity; the new list lacks the first such task; the file is saved only on success |
| `Store.TaskManager.CompleteTask` | task_manager.py:101-108 | returns whether a task has the identity; only that task's completed flag is set; the file is saved only on success |
| `Store.TaskManager.UncompleteTask` | task_manager.py:110-117 | returns whether a task has the identity; only that task's completed flag is cleared; the file is saved only on success |
| `Store.TaskManager.GetAllTasks` | task_manager.py:119-123 | with completed tasks it is the whole list; without, it is an order-preserving subsequence holding exactly the tasks not completed, one entry per open position |
| `Store.TaskManager.GetTasksByPriority` | task_manager.py:125-127 | an order-preserving subsequence holding exactly the tasks whose priority equals the argument, one entry per such position |
| `Store.TaskManager.SearchTasks` | task_manager.py:129-133 | an order-preserving subsequence holding exactly the tasks whose lower-cased title or description contains the lower-cased query, one entry per such position |
| `Store.TaskManager.GetStatistics` | task_manager.py:153-170 | total is the length; completed plus pending is total; pending is the number of tasks `get_all_tasks(False)` returns; each bucket is the number of pending tasks of that priority; the buckets sum to at most pending |
| `Store.CountIsFilterLength` | task_manager.py:156-162 | counting the tasks that meet a criterion gives the length of the filter by it |
| `Store.CountSplit` | task_manager.py:155-157 | completed and not-completed counts add up to the list length |
| `Store.BucketsWithinOpen` | task_manager.py:159-163 | the High, Medium and Low buckets together count at most the pending tasks |
| `Store.BucketIsFilterOfOpen` | task_manager.py:159-163 | a bucket is the number of pending tasks with that priority |
| `Store.SearchEmptyMatchesAll` | task_manager.py:129-133 | searching for the empty query returns the whole list |
| `Store.SearchIgnoresQueryCase` | task_manager.py:129-133 | searching for a query and for its lower-cased form give the same result |
| `Store.AddThenGet` | task_manager.py:64-77 | after adding a task with a fresh identity, looking that identity up gives the added task; unique identities stay unique |
| `Store.RemovedShape` | task_manager.py:92-99 | deleting a present identity shortens the list by one, leaves the rest in order, and keeps identities unique |
| `Store.RemovedKeepsUnique` | task_manager.py:96 | removing one position keeps identities unique |
| `Store.DeleteThenGet` | task_manager.py:92-99 | with unique identities, looking up a deleted identity finds nothing |
| `Store.MarkedKeepsIds` | task_manager.py:101-117 | completing or uncompleting keeps the length and where every identity is found |
| `Store.MarkedIdempotent` | task_manager.py:101-117 | completing (or uncompleting) twice gives the same list as doing it once |
| `Store.UncompleteUndoesComplete` | task_manager.py:101-117 | uncompleting a task that was open before it was completed restores the list |
| `Store.CompletedLeavesOpen` | task_manager.py:101-123 | with unique identities, a completed task is not among the tasks `get_all_tasks(False)` returns, but stays in the full list, now completed |
| `Store.CompleteMovesCount` | task_manager.py:101-108 | completing an open task raises the completed count by one and lowers the pending count by one |
| `Store.UpdateIgnoresUnknownKeys` | task_manager.py:85-87 | keys that name no attribute have no effect on the update |
| `Store.UpdateThenGet` | task_manager.py:79-90 | without an `id` key, looking up the identity after the update gives the updated task; repeating the update changes nothing more; unique identities stay unique |
| `Store.ScenarioCounts` | task_manager.py:153-170 | for an open High task, a completed Medium task and an open Low task the completed count is 1 and the buckets are 1, 0 and 1 |
| `Store.ScenarioStatistics` | task_manager.py:153-170 | for that list of three tasks, `get_statistics` gives total 3, completed 1, pending 2 and buckets 1, 0, 1 |
| `Store.MarkSecond` | task_manager.py:101-108 | completing the second of three tasks, whose first has another identity, completes that task only |
| `Store.ScenarioSearch` | task_manager.py:129-133 | "MILK" selects "Buy milk" and neither "Write report" nor "Walk dog" |
| `Store.NotContained` | task_manager.py:133 | a query whose first character starts no window of a text is not a substring of it |

## Left out

- Real file handling is not modelled: the file name, `open`, `os.path.exists` and JSON text. The backing file is the `file` field, and JSON is a sequence of field maps.
- Write errors in `save_tasks` are not modelled. The source leaves them uncaught; in the model saving always succeeds.
- A file that parses to something other than an array of objects is not modelled. In the source, an empty object `{}` or an empty string `""` iterates to nothing, so the list becomes empty. Every other such value raises an uncaught `TypeError`, and so does an array element that is not an object.
- `Value` cannot hold non-integer numbers (`"id": 1.5`) or nested arrays and objects (`"title": ["x"]`) inside a record. The source stores such values unchanged.
- Identities come from the caller. The source uses `id(self)`, a memory address. Identities are not unique by construction, so `Store.TaskManager.AddTask` requires a fresh one.
- `datetime.now()` is a caller-supplied string: `now` for `AddTask`, one stamp per record for loading.
- `Tasks.FromDict` reads a present attribute other than `title` whose value has the wrong JSON kind as if it were absent. An example is `"completed": "yes"`. A present `title` that is not a string (`"title": 5` or `null`) is read as `""`. The source stores such values unchanged, which typed attributes cannot hold.
- `Store.TaskManager.UpdateTask` requires every attribute key to carry a value of that attribute's kind. Both front ends pass strings only. The source would store any value.
- `Store.TaskManager.UpdateTask` treats only the seven data attributes as known. Keys such as `to_dict` or `__str__` are ignored. In the source `hasattr` accepts them too, and `setattr` then shadows the method.
- Tasks are values, so aliasing is not modelled. The source returns live `Task` objects, and `get_all_tasks(True)` returns the list itself.
- Case folding is ASCII only. Python's `str.lower` is Unicode-aware.
- `Task.__str__` is display formatting for the front ends.
- `get_statistics` returns a record with three bucket fields. The source returns a nested dictionary.
