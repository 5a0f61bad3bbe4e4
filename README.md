# todolist: a verified model of the task store and its command line

The program is a single-user command-line to-do list, backed by the JSON
document `tasks.json`. Each of `list`, `add`, `done`, `overdue` and `upcoming`
loads the whole task list; `add` always writes it back, and `done` writes it
back whenever it found the id, even when the task was already done. `help`,
a missing or unknown verb, and `add` or `done` with too few arguments print
the usage text without touching the document. Every run exits with a status
code. This project models, in Dafny:

- the in-memory task record (`Task` in `src/todolist.h`) with its fixed-size
  `char` buffers, in module `Tasks` (`tasks.dfy`). Text is a sequence of
  bytes (`Bytes`, a `seq` of the newtype `Byte`) and every buffer limit is
  counted in bytes, so a multi-byte UTF-8 character counts for each of its
  bytes and truncation may cut through one. The module also holds the pure
  rules the store operations follow: the id of a new task (`NextId`), the
  silent truncation of text fields (`Truncate`), the list `add_task` writes
  back (`Added`) and the list `mark_task_done` writes back (`MarkedDone`,
  built on the first-match search `IndexOfId`);
- the backing document as abstract state, in module `Store` (`store.dfy`): a
  `StoreFile` is `Missing`, `Unparseable`, `NotAnArray` or an `Array` of JSON
  objects (`Record`, a map from key to a `Field`: number, string, boolean,
  null or a nested value). `ToRecord` and `FromRecord` are the six-key object
  mapping of `save_tasks` and `load_tasks`, with cJSON's `valueint` reading of
  numeric members as `ValueInt`; `Saved` and `Loaded` lift it to whole
  documents;
- the store operations of `src/todolist.c` as the class `TaskStore` in module
  `TodoList` (`todolist.dfy`). Its field `file` is the document and its
  constant `writable` says whether the document can be opened for writing.
  `LoadTasks` fills a fresh array in an indexed loop, `SaveTasks` walks it,
  `AddTask` grows the loaded array by one and writes the new task at index
  `count`, and `MarkTaskDone` scans the array, sets `done` in place and stops
  at the first match. `ListTasks` models the "No tasks found." decision of
  `list_tasks` and which tasks it prints, in order. `Scenario` replays the
  unit test file against the class;
- `main` in `src/main.c` as module `Cli` (`cli.dfy`): `Dispatch` maps the
  argument vector to an `Action`, `ExitCode` gives the exit status from the
  action and the result of `mark_task_done`, and `Run` carries the action out
  on a `TaskStore` and reports whether the usage text or a listing was printed.

A new id is the id of the LAST task plus one (src/todolist.c:178), not the
largest id plus one. The two rules agree on every list whose ids increase,
which is every list built only by `add_task`: `NextId` then exceeds every
existing id and `Added` keeps the ids increasing. `LastIdRuleCanRepeatAnId`
shows a reordered list on which the new id duplicates an existing one.

Undefined behaviour of the C code is excluded by preconditions rather than
modelled: `Loadable` (every object has the six keys, and its three text keys
hold strings whose bytes fit their buffers, so that no NULL pointer is
dereferenced and no `strcpy` writes past a buffer) and `CanAdd` (the last id
is below `INT_MAX`, so `id + 1` does not overflow). A numeric key may hold a
value of any kind: `ValueInt` reads it as cJSON does.

## Model

| member | source | states |
|---|---|---|
| Tasks.Truncate | src/todolist.c:180-189 | the stored text is a byte prefix of the argument of length min(len, cap - 1); a NUL-free argument always fits the buffer afterwards, and one that already fits is stored unchanged |
| Tasks.NextId | src/todolist.c:178 | on a list whose ids increase, the new id exceeds every existing id, so it is fresh |
| Tasks.NewTask | src/todolist.c:177-192 | the task built from C-string arguments always fits the byte buffers of the `Task` struct |
| Tasks.NewTaskFields | src/todolist.c:177-192 | the new id is 1 for an empty list and the last task's id + 1 otherwise; `done` is 0; the estimate is kept as passed; name, description and due date are byte prefixes of at most 127, 255 and 19 bytes |
| Tasks.Added | src/todolist.c:166-198 | appending the new task keeps every task within its buffers and keeps increasing ids increasing |
| Tasks.AddedKeepsPrefix | src/todolist.c:166-198 | the list written by `add_task` has count + 1 tasks, the first count unchanged and in order, and the new task last |
| Tasks.LastIdRuleCanRepeatAnId | src/todolist.c:178 | a list not in id order on which the last-id rule gives a duplicate id |
| Tasks.AddAll | tests/test_todolist.c:21-40 | adding K tasks one after another to an empty store gives ids 1..K in addition order, all to do, with the estimates as passed and name, description and due date each truncated to its buffer |
| Tasks.IndexOfId | src/todolist.c:214-220 | the scan stops at the first task with the id: no earlier task has it, and it is the length of the list when no task has it |
| Tasks.IndexOfIdFinds | src/todolist.c:212-220 | the scan finds a task exactly when some task has the id |
| Tasks.MarkedDone | src/todolist.c:212-220 | marking keeps the length and every id, and when some task has the id, a task with that id is done afterwards |
| Tasks.MarkedDoneChangesOnlyFirstMatch | src/todolist.c:212-220 | only the first task with the id changes, and only its `done` field, to 1; every other task is unchanged; without a match the list is unchanged |
| Tasks.MarkedDonePreserves | src/todolist.c:214-220 | marking keeps well-formedness, increasing ids and, for every id, whether some task has it |
| Tasks.MarkedDoneIdempotent | src/todolist.c:212-220 | marking the same id twice gives the same list as marking it once |
| Store.ToRecord | src/todolist.c:106-118 | the object written for a task has exactly the six keys, with the id and the done flag as numbers |
| Store.ValueInt | src/todolist.c:75-89 | a numeric member reads as its value when it is within `int`, as INT_MAX or INT_MIN beyond either end, as 1 for `true` and as 0 for any other non-number |
| Store.FromRecord | src/todolist.c:69-90 | a task read from a readable object always fits the byte buffers of the `Task` struct |
| Store.RecordRoundTrip | src/todolist.c:106-118 | the object written for a task is readable exactly when the task's strings fit their buffers, and reading it gives the task back |
| Store.DoneTrueReadsAsOne | src/todolist.c:89 | a `"done": true` member, which the program never writes, reads as a done flag of 1 |
| Store.Loaded | src/todolist.c:35-96 | loading gives no tasks when the file is missing, does not parse or has a non-array root, and one well-formed task per object otherwise |
| Store.Saved | src/todolist.c:103-134 | the document written is an array with one six-key object per task, in list order, each carrying its task's id |
| Store.LoadAfterSave | src/todolist.c:69-118 | saving a list whose strings fit their buffers and loading it again gives the same tasks, fields and order |
| Store.ReloadAfterAdd | src/todolist.c:163-198 | after `add_task` writes the store, loading gives the earlier tasks unchanged and in order and the new task last |
| Store.ReloadAfterMark | src/todolist.c:209-223 | after `mark_task_done` writes the store, loading gives the marked list |
| Store.MarkAgainSameStore | src/todolist.c:207-230 | marking a task done again against the store the first call wrote finds it again and writes the same document |
| TodoList.TaskStore.constructor | src/todolist.c:9 | a store over a given document, writable or not |
| TodoList.TaskStore.LoadTasks | src/todolist.c:32-97 | returns null and count 0 unless the document is an array; otherwise a fresh array holding exactly the loaded tasks in document order |
| TodoList.TaskStore.SaveTasks | src/todolist.c:103-134 | overwrites the document with the saved form of the first count tasks and returns 1, or returns 0 and leaves the document alone when it cannot be opened for writing |
| TodoList.TaskStore.AddTask | src/todolist.c:157-202 | the new document is the loaded list with the new task appended (when writable); nothing is reported |
| TodoList.TaskStore.MarkTaskDone | src/todolist.c:207-231 | returns true exactly when some loaded task has the id; writes the marked list only then; leaves the document untouched when no task matches or nothing was loaded |
| TodoList.ListTasks | src/todolist.c:139-152 | "No tasks found." exactly for a null or empty list; otherwise the tasks are printed in list order |
| TodoList.ScenarioDocuments | tests/test_todolist.c:21-59 | the documents the test's two adds and its mark write load back as the expected tasks; id 1 is present and id 9999 is not |
| TodoList.Scenario | tests/test_todolist.c:14-60 | from no file, two adds load back as tasks 1 and 2 with the given texts and estimates, to do; marking 1 succeeds and reloads with task 1 done and task 2 to do; marking 9999 fails |
| Cli.Dispatch | src/main.c:28-94 | fewer than two arguments is a missing command; an unknown verb is reported with that verb, and exactly the verbs outside help, list, add, done, overdue and upcoming are unknown |
| Cli.ExitCode | src/main.c:28-94 | the status is 0 or 1; a `done` succeeds exactly when its id was found; a missing or unknown command fails |
| Cli.VerbsDistinct | src/main.c:33-84 | the six verbs are pairwise different, so each `argv[1] == Verb…` test in the dispatch lemmas holds for exactly the one verb it names |
| Cli.ExitCodeZeroIff | src/main.c:25-95 | the exit status is 0 or 1, and 0 exactly for help, list, overdue, upcoming, add with four arguments, and done with an id that was found |
| Cli.AddTakesItsArguments | src/main.c:46-60 | a task is added exactly for `add` with argc >= 6, with name argv[2], due date argv[3], estimate atoi(argv[4]) and description argv[5] |
| Cli.DoneTakesItsArgument | src/main.c:62-74 | a task is marked exactly for `done` with argc >= 3, with id atoi(argv[2]) |
| Cli.UsageOnFailure | src/main.c:28-94 | usage is printed for `help` and for every failing exit except a `done` whose id was not found |
| Cli.TrailingArgumentsIgnored | src/main.c:46-60 | arguments beyond the sixth never change the action |
| Cli.Run | src/main.c:25-95 | the exit code follows the decision table; only `add` and a successful `done` change the document, as the store operations say; the usage text is printed exactly for the actions `UsageOnFailure` names; `list` prints "No tasks found." exactly for an empty load |

## Left out

- File input and output (`read_file`, `fopen`, `fwrite`) and the JSON text parser and printer: the document is the abstract value `StoreFile`, and a failed open for writing is the constant `writable`.
- Logging (`src/log.c`, `src/log.h`): diagnostics only, no effect on control flow or results.
- `list_overdue_tasks` and `list_upcoming_tasks`: stubs that print a fixed message; `Run` only loads the store for them.
- The text `list_tasks`, `print_usage` and the other `printf` calls produce; only the "No tasks found." decision, the tasks listed and whether the usage text appears are modelled.
- Allocation failures of `malloc` and `realloc`.
- Objects with a missing key, a text key whose value is not a string or whose bytes do not fit the buffer, and root-array elements that are not objects: undefined behaviour in the C code (a NULL dereference or a `strcpy` past the buffer), excluded by `Loadable`. `Loadable` also excludes a string holding a NUL byte (`\u0000`), which is not undefined behaviour: `strcpy` copies the bytes before the first NUL, which is safe when they fit. Leaving such strings out is a choice of the model.
- Key lookup: cJSON's `cJSON_GetObjectItem` matches keys without regard to case and takes the first match in document order; a `Record` is a map with exact keys, so documents with keys differing only in case, or with repeated keys, are not represented. This is a choice of the model; the program only ever writes the six keys in lower case, once each.
- Overflow of the new id: excluded by `CanAdd`.
- Fractional JSON numbers and the conversion through `double`: numbers are integers in the model, so `ValueInt` does not show the truncation of a fraction.
- `atoi`: a parameter of `Dispatch` and `Run` (any function from bytes to `int`).
- The program name `argv[0]`: it only appears in the usage text.
