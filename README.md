# Task tracker CLI, modelled in Dafny

The system is a command-line task tracker. It keeps a flat list of task
records in a JSON file. Each record has an `id`, a `description`, a `status`
(`todo`, `in-progress` or `done`), `createdAt` and `updatedAt`. Every run
loads the list and routes one command: `add`, `update`, `delete`,
`mark-in-progress`, `mark-done`, `list` or `help`. The command handler
changes the list in memory and writes it back, except for `list`, which
only displays it.

The model covers the whole logic of `Backend/CLI/main.py` apart from file
and console I/O:

- `tasks.dfy` (module `Tasks`): the task record, the three statuses, and
  the predicates used in contracts (`UniqueIds`, `SortedById`, `HasId`).
  A status is kept as text, because a loaded file may hold any value.
- `text.dfy` (module `Text`): decimal rendering and parsing of ids
  (`int()`/`str()`), plus ASCII `lower()` and single-character `replace()`.
- `repository.dfy` (module `Repository`): `get_next_id`, `find_task`, and
  the new collections each handler produces (append, rewrite a description,
  set a status, the delete comprehension). Also the status filter and the
  stable sort by id used for display, with their properties.
- `display.dfy` (module `Display`): `format_task`, i.e. the slicing of the
  timestamps, the status label with its `UNKNOWN` fallback, and the padding.
- `handlers.dfy` (module `Handlers`): the command handlers as methods of a
  class `TaskList` holding the loaded list. The list and its records are
  changed in place. Each handler returns what it would hand to
  `save_tasks`, or `None` when it does not save. `list.sort` is an in-place
  insertion sort on an array, proved equal to the functional stable sort.
- `router.dfy` (module `Router`): `main`'s dispatch from the argument vector
  to a command, an argument error, an unknown command or the bare usage
  text. It includes the per-command argument counts, the normalisation of
  the `list` filter, and the exit status.
- `cli.dfy` (module `Cli`): one whole run (route, then handle), plus a
  walk-through checked against the contracts: add, add, mark-done 1,
  list todo, delete 2, list.

Behaviour of the code that the model keeps as written:

- Ids can be reused. The next id is the largest present id plus one, so
  deleting the task with the largest id and then adding gives the new task
  that same id whenever the id below it is present (`DeletingLargestIdFreesIt`,
  `IdReusedAfterDelete`).
- `help` ignores any arguments that follow it and exits with status 0.
- The `list` filter synonyms `todotask` and `not-done` are accepted and read
  as `todo`.
- A task that is not found is reported, but the exit status stays 0.
- `list_tasks` called with a value outside the three statuses lists
  everything. Only the router rejects such a filter.
- Without a valid filter, `list_tasks` sorts the loaded list itself, because
  the name it sorts is an alias of that list. Nothing is saved afterwards,
  so this is not observable.

## Model

| member | source | states |
|---|---|---|
| `Repository.MaxId` | Backend/CLI/main.py:42 | the result is at least every id in the collection and is the id of one of its tasks |
| `Repository.NextId` | Backend/CLI/main.py:37-42 | 1 for an empty collection; otherwise strictly above every id and exactly one above an id that is present |
| `Repository.NextIdAfterAdd` | Backend/CLI/main.py:71-85 | after an add, the next id is one more than before, so consecutive adds get consecutive, strictly increasing ids |
| `Repository.DeletingLargestIdFreesIt` | Backend/CLI/main.py:37-42 | after deleting the largest id m (positive ids), the next id is at most m, and equals m when id m-1 is present: ids are reused |
| `Repository.IdReusedAfterDelete` | Backend/CLI/main.py:101-110 | add, add (ids 1 and 2), delete 2, add: the last task gets id 2 again |
| `Repository.IndexOfId` | Backend/CLI/main.py:48 | the position found holds id k and no earlier task has id k; no position means no task has id k |
| `Repository.Locate` | Backend/CLI/main.py:44-50 | a position is found exactly when the text parses to the id of some task; that task is the first one with that id |
| `Repository.FindTask` | Backend/CLI/main.py:44-50 | the task returned belongs to the collection, its id is the parsed text, and it is the first such task; None exactly when the text is not an integer or no task has that id |
| `Repository.Added` | Backend/CLI/main.py:71-85 | one task is appended and the earlier ones are unchanged and in order; the new task has id NextId, the description, status todo, and createdAt = updatedAt = now; its id exceeds all others, so unique ids stay unique |
| `Repository.Described` | Backend/CLI/main.py:93-96 | same length, every other task unchanged; the chosen task keeps id, status and createdAt, and gets the new description and updatedAt = now; id uniqueness unchanged |
| `Repository.Marked` | Backend/CLI/main.py:120-123 | same length, every other task unchanged; the chosen task keeps id, description and createdAt, and gets the new status and updatedAt = now; id uniqueness unchanged |
| `Repository.Without` | Backend/CLI/main.py:109 | a task remains exactly when it was present and its id differs from the deleted one; never longer than before |
| `Repository.WithoutConcat` | Backend/CLI/main.py:109 | deleting distributes over concatenation, so the remaining tasks keep their relative order |
| `Repository.WithoutAbsent` | Backend/CLI/main.py:109 | deleting an id that no task has leaves the collection equal to itself |
| `Repository.WithoutRemovesOne` | Backend/CLI/main.py:104-110 | with unique ids, deleting a present id shortens the collection by exactly one |
| `Repository.WithoutKeepsUnique` | Backend/CLI/main.py:109 | deleting keeps ids unique |
| `Repository.HavingStatus` | Backend/CLI/main.py:134 | a task is selected exactly when it is in the collection and has the given status |
| `Repository.HavingStatusConcat` | Backend/CLI/main.py:134 | filtering distributes over concatenation, so the selected tasks keep their collection order |
| `Repository.HavingStatusCount` | Backend/CLI/main.py:134 | each task of the status is selected as often as the collection holds it, every other task never |
| `Repository.Selection` | Backend/CLI/main.py:132-137 | a task is selected exactly when it is in the collection and, for a filter naming one of the three statuses, has that status; any other filter selects the whole collection unchanged |
| `Repository.InsertSorted` | Backend/CLI/main.py:145 | one insertion step of the sort: the result is one task longer (its content, order and stability are the three InsertSorted lemmas below) |
| `Repository.InsertSortedPermutes` | Backend/CLI/main.py:145 | one insertion step adds exactly the inserted task to the multiset of tasks |
| `Repository.InsertSortedSorted` | Backend/CLI/main.py:145 | one insertion step keeps a list sorted by id |
| `Repository.InsertSortedStable` | Backend/CLI/main.py:145 | one insertion step keeps the order of tasks sharing an id and puts the inserted task after them |
| `Repository.SortById` | Backend/CLI/main.py:145 | the sort by id keeps the number of tasks (sortedness, permutation and stability are the three SortById lemmas below) |
| `Repository.SortByIdSorted` | Backend/CLI/main.py:145 | the sort by id yields ascending ids |
| `Repository.SortByIdPermutes` | Backend/CLI/main.py:145 | the sort by id is a permutation (same multiset) |
| `Repository.SortByIdStable` | Backend/CLI/main.py:145 | the sort is stable: the tasks of each id appear in their original order |
| `Repository.ListedTasks` | Backend/CLI/main.py:128-148 | the listing is sorted by id; shows each task that passes the filter exactly as often as the collection holds it and no other task; tasks sharing an id appear in their order in the selection |
| `Text.ParseInt` | Backend/CLI/main.py:47 | succeeds exactly on an optional sign followed by decimal digits; the sign of the result follows the text |
| `Text.ParseIntToString` | Backend/CLI/main.py:47 | parsing the decimal rendering of any id gives that id back |
| `Text.ParsePlus` | Backend/CLI/main.py:47 | a leading '+' does not change the id read |
| `Text.ParseMinus` | Backend/CLI/main.py:47 | a leading '-' negates the id read from the digits after it |
| `Text.ParseLeadingZero` | Backend/CLI/main.py:47 | a leading zero does not change the id read, so "05" finds task 5 |
| `Text.NatToString` | Backend/CLI/main.py:64 | the rendering is all digits, one digit exactly below 10, and starts with '0' only for 0, so it has no leading zeros |
| `Text.IntToString` | Backend/CLI/main.py:64 | the rendering of an id is non-empty and starts with '-' exactly for negative ids; the digits after the sign are canonical (all digits, no leading zero unless the value is 0) |
| `Text.Lower` | Backend/CLI/main.py:183 | same length; every ASCII capital becomes the matching small letter and every other character stays, so no capital remains |
| `Text.Replace` | Backend/CLI/main.py:212 | same length; every occurrence of the old character becomes the new one and every other character stays |
| `Display.Take` | Backend/CLI/main.py:60-61 | the slice is a prefix of the text, of length n, or the whole text when it is shorter |
| `Display.PadRight` | Backend/CLI/main.py:64 | the field starts with the text and is padded with spaces up to the width; it is never truncated |
| `Display.StatusLabel` | Backend/CLI/main.py:55-59 | each of the three statuses gets its own label; UNKNOWN exactly for any other value; no label is wider than its 15-character column |
| `Display.IdField` | Backend/CLI/main.py:64 | the bracketed id field opens with '[' and is at least 6 characters wide (a 3-wide minimum id column plus "[" and "] ") |
| `Display.FormatTask` | Backend/CLI/main.py:52-67 | the line opens with '[', is longer than the description, and ends with the description |
| `Display.FormatTaskShowsId` | Backend/CLI/main.py:64 | the decimal id text follows the opening bracket directly |
| `Display.FormatTaskLayout` | Backend/CLI/main.py:60-66 | for any id and any timestamps, with w the width of the padded id text: the bracketed id fills the first w+3 characters, the status label (or UNKNOWN) padded to 15 follows, then " Created: ", the first 10 characters of createdAt, " \| Updated: ", the first 16 of updatedAt, " \| " and the description; the line's length is the sum of these pieces |
| `Display.FormatTaskColumns` | Backend/CLI/main.py:60-66 | the special case w = 3, for ids from 0 to 999 and ISO timestamps: the bracketed id fills the first 6 characters, the status label (or UNKNOWN) padded to 15 sits at column 6, the first 10 characters of createdAt at column 31, the first 16 of updatedAt at column 53, and the description starts at column 72 |
| `Handlers.TaskList.constructor` | Backend/CLI/main.py:73 | the handler's list is the loaded collection |
| `Handlers.TaskList.Add` | Backend/CLI/main.py:71-86 | the new list is the old one with the new task appended (Added), the reported id is NextId of the old list, and the new list is saved |
| `Handlers.TaskList.Update` | Backend/CLI/main.py:88-99 | if the id is found, the list becomes Described at that position and is saved; otherwise it is unchanged and nothing is saved |
| `Handlers.TaskList.Mark` | Backend/CLI/main.py:115-126 | if the id is found, the list becomes Marked at that position and is saved; otherwise it is unchanged and nothing is saved |
| `Handlers.TaskList.Delete` | Backend/CLI/main.py:101-113 | if the id is found, the saved list holds exactly the tasks with other ids, in order; with unique ids it is one shorter and still unique; otherwise nothing is saved; the loaded list is untouched |
| `Handlers.TaskList.List` | Backend/CLI/main.py:128-149 | the displayed tasks are the stable sort by id of the selection; nothing is saved; without a valid filter the loaded list ends up sorted |
| `Handlers.SortInPlace` | Backend/CLI/main.py:145 | the array afterwards holds the stable sort by id of its former contents |
| `Handlers.InsertInto` | Backend/CLI/main.py:145 | one pass of the in-place sort: the prefix up to i becomes the sorted prefix with a[i] inserted, and the rest is untouched |
| `Router.NormaliseFilter` | Backend/CLI/main.py:212-216 | the result is todo exactly for a spelling of todo, todotask or not-done, in-progress exactly for a spelling of in-progress, done exactly for a spelling of done (a spelling: same length, each character the word's own, its ASCII capital, or '_' for '-'); it has no capital and no '_' |
| `Router.NormaliseFilterIdempotent` | Backend/CLI/main.py:212-216 | normalising twice equals normalising once |
| `Router.SeparatorSpellings` | Backend/CLI/main.py:212-222 | IN_PROGRESS and In-Progress give in-progress; DONE gives done |
| `Router.SynonymSpellings` | Backend/CLI/main.py:212-222 | TodoTask and not_done give todo; pending is not a status, so it is rejected |
| `Router.Route` | Backend/CLI/main.py:176-231 | usage exactly when no command is given; each command word with its argument count runs that command with argv[2] (and argv[3]) as its arguments, mark-in-progress and mark-done with their status, list with the normalised filter when it is a status; a known word with a wrong count is a WrongCount error, a list filter that is not a status an InvalidFilter error, any other word an unknown command of that lower-cased name |
| `Router.RouteWords` | Backend/CLI/main.py:183-227 | every command the router can produce is routed back from its own command words, so each command is reachable with exactly the arguments it carries |
| `Router.ExitCode` | Backend/CLI/main.py:179-238 | the exit status is 0 exactly when a handler ran, 1 otherwise |
| `Router.ExitCodeZeroIff` | Backend/CLI/main.py:179-238 | the exit status is 0 exactly for a known command with its argument count, and, for list with a filter, a filter that normalises to a status |
| `Router.RouteIgnoresCommandCase` | Backend/CLI/main.py:183 | the command word is matched case-insensitively |
| `Cli.Execute` | Backend/CLI/main.py:176-238 | the exit status is that of the routing; argument errors save nothing; every save keeps ids unique; each command saves exactly its handler's collection; list saves nothing and shows the sorted selection |

## Left out

- Loading and saving the file (`load_tasks`, `save_tasks`, JSON encoding) and their error reporting. The loaded collection is a parameter and the saved collection is a result.
- The clock. `datetime.now().isoformat()` is the `now` parameter.
- Records that do not have the expected shape (a missing key, or an id that is not an integer) are not modelled: records here are typed. In the program, depending on the command and on where the odd record sits, they raise (exit status 1) or pass through: find_task stops at the first match, so a later record without an id is never looked at; an id of 1.0 is found by "1"; a largest id of 2.5 makes add assign 3.5.
- `Text.ParseInt`: does not accept the surrounding whitespace, the `_` digit separators or the non-ASCII digits that Python's `int()` also accepts, and does not model the limit of 4300 digits that Python 3.11 and later put on `int()` of a string (beyond it `int()` raises, so find_task returns None).
- `Text.Lower`: only ASCII letters are folded. Python's `lower()` also folds other letters.
- Everything printed: confirmation and error lines, headers, the separator, `print_help`. `Display.FormatTask` builds the line, but writing it is not modelled.
- `sys.exit` is modelled only as the returned exit status (`Router.ExitCode`).
- Python sorts with Timsort; the model uses an insertion sort. Both are stable sorts by the same key, so they give the same result.
- Concurrent runs against the same file.
