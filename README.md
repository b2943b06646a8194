# Task manager core in Dafny

A model of the in-memory core of a command-line task manager, with proofs about it. The core has three parts:

- **The task entity** (`src/Task.js`). A task holds an id, title, description, priority, due date, category, completed flag and creation time. Its constructor and setters validate or default their input. It answers `isOverdue` and `getDaysUntilDue`, turns itself into a plain record (`toJSON`) and back (`fromJSON`), and renders a status line (`toString`). WorkTask and PersonalTask fix the category and add a `project` or `location`; here they are a `Kind` tag on the same entity.
- **The validator** (`src/Validator.js`). `validateTaskData` collects error messages in order. `validateId` checks for a non-empty string. `sanitizeInput` trims a string and strips `<` and `>`.
- **The task manager** (`src/TaskManager.js`). It owns one ordered sequence of task objects. It has five mutations (`addTask`, `updateTask`, `deleteTask`, `toggleTaskCompletion`, `importTasks`) and read-only queries: search, the filters, overdue and due-soon lists, `advancedFilter`, `sortTasks` and `getTaskStats`.

Layout:

- `js.dfy` (module `Js`): the JavaScript built-ins the code relies on, stated over Dafny values. These are optional arguments (`Arg` = undefined, null or a string), truthiness, `trim`, ASCII `toLowerCase`, `includes`, `<` on strings, `join` and `filter`.
- `tasks.dfy` (module `Tasks`):
  - the value `TaskState` and the pure functions over it;
  - `class Task`, whose fields the constructor-like static methods, the setters and `markComplete`/`markIncomplete` assign in place.
- `validator.dfy` (module `Validator`). `validateTaskData` is an imperative method, proved equal to the function `TaskDataErrors`.
- `queries.dfy` (module `Queries`): the queries as predicates and functions over the tasks' states, with the sort and the statistics.
- `manager.dfy` (module `Manager`):
  - `class TaskManager`, which holds `tasks: seq<Task>` (references to task objects) and a ghost `saved` snapshot that each `saveTasks` sets;
  - a pure function of the states for each mutation, which that mutation's method is proved against.

The clock, `new Date(text)`, `toISOString` and `toLocaleDateString` are parameters. The clock is `now`, in milliseconds since the epoch. The date functions are `DateParser`, `IsoFormatter` and `LocaleFormatter`. The id a new task generates is an `id` parameter.

Behaviour of the code that a reader might not expect, which the model keeps:

- `updateTask` validates the whole `updates` object with `validateTaskData` (src/TaskManager.js:52), as if it were a complete task. An update without a `title` key is therefore refused with "Title is required" and changes nothing (`Manager.UpdateNeedsTitle`), even when it only sets the priority.
- The Task constructor does not reject an unparsable due date. It stores an invalid Date (`Instant.InvalidDate`). `toJSON` then throws "Invalid time value" (`Tasks.ToData`).
- `fromJSON` always builds a base Task, and WorkTask and PersonalTask keep no state of their own beyond `project` and `location`. So the round trip is exact for a base Task (`Tasks.RoundTrip`). A variant comes back as a base Task with its category kept (`Tasks.ReloadKeepsFields`).

## Model

| member | source | states |
|---|---|---|
| Js.Trim | src/Task.js:29-32 | `trim` gives the slice `s[i..j]` of its input with only white space before `i` and after `j`. The result has no white space at either end, and it is empty exactly when the input is all white space. |
| Js.TrimIdempotent | src/Task.js:32 | Trimming a trimmed title changes nothing. |
| Js.Lower | src/TaskManager.js:97-102 | `toLowerCase` keeps the length and lower-cases each character on its own. |
| Js.Join | src/TaskManager.js:22 | `join` of one message is that message, and of none is "". |
| Js.JoinContainsParts | src/TaskManager.js:54 | Every message occurs in the joined text. |
| Js.Contains | src/TaskManager.js:100-102 | `includes` holds exactly when the substring occurs at some position. |
| Js.Filter | src/TaskManager.js:98-103 | `filter` keeps only elements that satisfy the predicate, keeps every element that does, and never grows. |
| Js.FilterPartition | src/TaskManager.js:114-116 | A predicate and its negation split a list: the two result lengths add up to the length. |
| Js.FilterConjunction | src/TaskManager.js:211-244 | Filtering by a conjunction equals filtering by one conjunct, then the other. |
| Js.TextLessTotal | src/TaskManager.js:158-159 | Of two different strings, one is `<` the other. |
| Js.TextLessTransitive | src/TaskManager.js:158-159 | `<` on strings is transitive. |
| Tasks.ValidateTitle | src/Task.js:28-33 | A title is accepted exactly when it is a string that is not all white space. The stored title is the trimmed input. Otherwise the error is "Task title cannot be empty". |
| Tasks.ValidatePriority | src/Task.js:35-41 | A priority is accepted exactly when it is "High", "Medium" or "Low". Otherwise the error is "Priority must be High, Medium, or Low". |
| Tasks.DueDateOf | src/Task.js:82-84 | A due date is cleared exactly when the value is falsy. |
| Tasks.NewTask | src/Task.js:12-21 | Construction succeeds exactly when title and defaulted priority pass, and the title is checked first. On success: the title is trimmed, the id and createdAt are the given ones, completed is false, the stored priority is the one given (Medium when left out), the description is the one given ("" when falsy), the due date is the parsed one (none when falsy) and the category is the one given ("General" when left out). |
| Tasks.NewWorkTask | src/Task.js:141-145 | A WorkTask is the base Task built from the same arguments (`super(...)`), with category "Work" and project "General" by default. It succeeds exactly when a base Task would. |
| Tasks.NewPersonalTask | src/Task.js:166-170 | A PersonalTask is the base Task built from the same arguments (`super(...)`), with category "Personal" and location null by default. It succeeds exactly when a base Task would. |
| Tasks.Assign | src/Task.js:69-88 | A setter fails exactly when it is the title or priority setter and the value is refused. Otherwise it changes only its own field and keeps a valid task valid. The field's new value is: the trimmed title; the description, or "" when falsy; the priority name; the parsed due date, or none when falsy; the category, or "General" when falsy. |
| Tasks.IsOverdue | src/Task.js:99-102 | Overdue exactly when the task is not completed, has a valid due date and the clock is past it. |
| Tasks.CeilDiv | src/Task.js:108 | `Math.ceil(x / d)` is the q with (q-1)·d < x ≤ q·d. |
| Tasks.DaysUntilDue | src/Task.js:104-109 | The result is null exactly when there is no due date, and NaN exactly for an invalid date. Otherwise it is the ceiling of the time left in days. |
| Tasks.OverdueHasNoDaysLeft | src/Task.js:99-109 | An overdue task has at most 0 days until due. |
| Tasks.NotOverdueHasDaysLeft | src/Task.js:99-109 | A pending task with a valid due date that is not overdue has at least 0 days left. |
| Tasks.DueInOneDay | src/Task.js:104-109 | A task due exactly one day from now has 1 day left. |
| Tasks.ToData | src/Task.js:111-122 | `toJSON` throws "Invalid time value" exactly when a date to be written is invalid. Otherwise the record holds the id, title, description, priority name, category and completed flag, both dates as ISO text (null for no due date), and the `project` of a WorkTask or the `location` of a PersonalTask, which the variants' `toJSON` adds (src/Task.js:152-155 and 178-181). |
| Tasks.FromData | src/Task.js:124-130 | `fromJSON` fails exactly when the title or priority is refused. On success it keeps the record's id, completed flag and createdAt, stores the trimmed title, the record's priority (Medium when absent), description, parsed due date and category, and the result is a base Task. |
| Tasks.ReloadKeepsFields | src/Task.js:111-130 | `fromJSON(toJSON(t))` gives back every field of t; only the variant tag is lost. |
| Tasks.RoundTrip | src/Task.js:111-130 | For a base Task, `fromJSON(toJSON(t))` is t. |
| Tasks.Heading | src/Task.js:136 | The display begins with `[✓]` or `[○]` by status, then the title, then " \| " and the priority. |
| Tasks.Display | src/Task.js:132-137 | `toString` starts with the heading and contains " (OVERDUE)" whenever the task is overdue. |
| Tasks.DisplaySegments | src/Task.js:132-176 | Right after the heading comes " \| " and the category. A WorkTask's line ends with " \| Project: " and its project, and a PersonalTask's with " \| Location: " and its location when that is truthy. |
| Tasks.Task.Create | src/Task.js:12-21 | `new Task(...)` gives a fresh object holding exactly what `NewTask` computes, or its error. |
| Tasks.Task.CreateWork | src/Task.js:141-145 | `new WorkTask(...)` gives a fresh object holding what `NewWorkTask` computes, or its error. |
| Tasks.Task.CreatePersonal | src/Task.js:166-170 | `new PersonalTask(...)` gives a fresh object holding what `NewPersonalTask` computes, or its error. |
| Tasks.Task.FromJson | src/Task.js:124-130 | `Task.fromJSON` gives a fresh object holding what `FromData` computes, or its error. |
| Tasks.Task.ToJson | src/Task.js:111-122 | `toJSON` of the object is `ToData` of its state. |
| Tasks.Task.SetTitle | src/Task.js:70-72 | A refused title throws and leaves the object as it was; an accepted one replaces only the title, trimmed. |
| Tasks.Task.SetDescription | src/Task.js:74-76 | Sets the description, "" for a falsy value; nothing else changes. |
| Tasks.Task.SetPriority | src/Task.js:78-80 | A refused priority throws and leaves the object as it was; an accepted one replaces only the priority. |
| Tasks.Task.SetDueDate | src/Task.js:82-84 | Sets the due date, null for a falsy value; nothing else changes. |
| Tasks.Task.SetCategory | src/Task.js:86-88 | Sets the category, "General" for a falsy value; nothing else changes. |
| Tasks.Task.MarkComplete | src/Task.js:91-93 | Sets completed to true; nothing else changes. |
| Tasks.Task.MarkIncomplete | src/Task.js:95-97 | Sets completed to false; nothing else changes. |
| Validator.TaskDataErrors | src/Validator.js:3-19 | Each message is present exactly when its check fails: title missing, priority truthy and not allowed, due date truthy and unparsable. The messages come in that order. |
| Validator.ValidateTaskData | src/Validator.js:3-25 | The collected errors are `TaskDataErrors`, and `isValid` holds exactly when there are none. |
| Validator.NoErrors | src/Validator.js:3-25 | Validation passes exactly when the title, priority and due-date checks all pass. |
| Validator.OnlyTitleMissing | src/Validator.js:6-8 | A missing title and nothing else wrong yields exactly ["Title is required"]. |
| Validator.ValidatedTitleIsAccepted | src/Validator.js:6-8 | A title that passes validation is one the Task constructor accepts. |
| Validator.ValidatedPriority | src/Validator.js:10-12 | A truthy priority that passes validation is accepted by the Task. Null and "" pass validation but are refused by the Task. |
| Validator.ValidateId | src/Validator.js:27-29 | An id is valid exactly when it is a non-empty string. |
| Validator.SanitizeInput | src/Validator.js:31-34 | A non-string comes back unchanged. A string comes back trimmed, with every `<` and `>` removed and nothing else. |
| Validator.SanitizeNotIdempotent | src/Validator.js:31-34 | Sanitizing twice can differ from once: "< a" gives " a", then "a". |
| Validator.SanitizeKeepsCleanText | src/Validator.js:31-34 | A trimmed string without brackets is left as it is. |
| Queries.EmptySearchKeepsAll | src/TaskManager.js:96-104 | An empty query matches every task. |
| Queries.StatusPartition | src/TaskManager.js:114-116 | `filterByStatus(true)` and `filterByStatus(false)` together hold every task once. |
| Queries.OverdueAndDueSoon | src/TaskManager.js:118-127 | A pending task with a valid due date is both overdue and due soon exactly when it fell due within the last 24 hours. |
| Queries.DueSoonIsAhead | src/TaskManager.js:122-127 | A due-soon task is pending, with a valid due date less than a day past and at most `days` days ahead. |
| Queries.NoCriteriaKeepsAll | src/TaskManager.js:211-244 | Empty criteria keep every task. |
| Queries.CategoryAndPriority | src/TaskManager.js:213-221 | Category plus priority criteria select what `filterByCategory` then `filterByPriority` select. |
| Queries.StatusCriterion | src/TaskManager.js:223-226 | A `completed` criterion alone selects what `filterByStatus` selects. |
| Queries.OverdueCriterion | src/TaskManager.js:236-240 | `overdue: true` alone selects what `getOverdueTasks` selects. |
| Queries.EmptyStringsIgnored | src/TaskManager.js:213-234 | Empty-string criteria filter nothing out. |
| Queries.SortKeyOf | src/TaskManager.js:134-156 | Sort keys: title and category compare as strings, priority as a rank from 1 to 3, and a missing due date as 9999-12-31. |
| Queries.KeyLessTransitive | src/TaskManager.js:158-159 | The comparator's `<` on keys is transitive. |
| Queries.KeyLessTotal | src/TaskManager.js:158-159 | Two keys of one kind are equal or ordered one way. |
| Queries.KeyLessIrreflexive | src/TaskManager.js:158-159 | No key is `<` itself. |
| Queries.NotAfterTransitive | src/TaskManager.js:158-160 | Among keys of one kind, "not after" chains, in either direction of the sort. |
| Queries.Insert | src/TaskManager.js:131 | Inserting adds exactly the one element. |
| Queries.SortBy | src/TaskManager.js:131 | The sorted copy is a permutation of the input. |
| Queries.InsertSorted | src/TaskManager.js:131-161 | Inserting into a sorted list keeps it sorted. |
| Queries.SortBySorted | src/TaskManager.js:130-164 | With consistent keys, the result is in the comparator's order, ascending or descending. |
| Queries.UniformKinds | src/TaskManager.js:134-151 | Title, priority and category keys are always consistent. |
| Queries.PriorityDescending | src/TaskManager.js:139-143 | With keys that are the priority ranks, as `SortKeyOf` gives for priority, sorting [Low, High, Medium] descending gives [High, Medium, Low]. |
| Queries.CompletionRate | src/TaskManager.js:188 | The rate is 0 with no tasks, otherwise the nearest whole percentage with halves rounding up. It lies between 0 and 100. |
| Queries.CompletionRateExamples | src/TaskManager.js:188 | 2 of 3 is 67, 1 of 8 is 13, and 0 of 0 is 0. |
| Queries.Stats | src/TaskManager.js:175-190 | Total, completed, pending = total − completed, overdue and due-soon counts are the lengths of the filters. The rate is `CompletionRate` and lies within 0–100. |
| Manager.Pick | src/TaskManager.js:98-103 | `tasks.filter(...)` returns stored references, in order, whose states are the filtered states. |
| Manager.IndexOfId | src/TaskManager.js:69 | `findIndex` is none exactly when no task has the id; otherwise it is the first such position. |
| Manager.IndexOfIdOnlyReadsIds | src/TaskManager.js:69 | The search depends only on the ids. |
| Manager.AddedTask | src/TaskManager.js:17-43 | When validation of the data, with the priority defaulted to "Medium", reports errors, addTask throws "Failed to add task: " followed by the messages joined with ", ". |
| Manager.AddedTaskOutcome | src/TaskManager.js:17-43 | After validation passes, only a null or "" priority can still fail. A new task is valid, with a trimmed title, the given id and clock, and not completed. Its priority is the one given ("Medium" when left out), its description the one given ("" when falsy) and its due date the parsed one (none when falsy). |
| Manager.AddedTaskKind | src/TaskManager.js:26-35 | "work" and "personal", in any case, select the variants and ignore the category. Any other type gives a base Task with the category, "General" by default. |
| Manager.OfType | src/TaskManager.js:26-35 | The switch on the lower-cased type: it fails exactly when the title or the priority is refused, with the title's message first. The task has the shared fields of the constructor and the category and variant the type names. |
| Manager.CreateOfType | src/TaskManager.js:24-35 | The switch on the lower-cased type constructs a fresh, valid object holding `OfType`'s state, or fails with its error. |
| Manager.BuildTask | src/TaskManager.js:19-35 | The validate-then-construct step returns a fresh valid object holding `AddedTask`'s state, or its error. |
| Manager.ValueOf | src/TaskManager.js:58-60 | The value read under a key is the value of one of its entries. |
| Manager.ApplyUpdates | src/TaskManager.js:58-62 | The forEach loop never changes id, completed, createdAt or variant, keeps a valid task valid, and fails only with a setter's message. |
| Manager.ApplyUpdatesAssigns | src/TaskManager.js:58-62 | When no setter throws and the keys are distinct, a field whose value is undefined keeps its value, and every other field holds what its setter makes of the value. |
| Manager.UpdateAssigns | src/TaskManager.js:45-66 | The same per-field result for an update that succeeds. |
| Manager.UpdateAsWritten | src/TaskManager.js:45-66 | As written: a validation failure leaves the task as it was and throws the messages joined with ", ". Otherwise the result is the forEach loop with its partial effect. |
| Manager.UpdateNeedsTitle | src/TaskManager.js:52-55 | An update with no title key is refused with "Title is required" and changes nothing. |
| Manager.PartialUpdate | src/TaskManager.js:52-62 | `{title: "New", priority: null}` passes validation, replaces the title, then throws at the priority. |
| Manager.NewTitleValidates | src/TaskManager.js:52 | `validateTaskData` accepts `{title: "New", priority: null}`. |
| Manager.NullPriorityThrows | src/TaskManager.js:58-62 | The forEach loop over `{title: "New", priority: null}` sets the title and then throws "Priority must be High, Medium, or Low". |
| Manager.ValidatedKeysPass | src/TaskManager.js:52-55 | Validation of the update object vouches for each key's value. |
| Manager.OnlyFalsyPriorityFails | src/TaskManager.js:52-62 | After validation the loop can fail only on a null or "" priority. |
| Manager.UpdateAtomic | src/TaskManager.js:45-66 | Corrected: the same error as written, and on any error the task is left as it was. |
| Manager.Toggled | src/TaskManager.js:79-93 | Toggling fails with "Task not found" exactly when no task has the id. Otherwise it flips the completed flag of the first task with the id and leaves every other position as it was. |
| Manager.ToggleTwice | src/TaskManager.js:79-93 | Toggling twice restores the collection. |
| Manager.DeleteAfterAdd | src/TaskManager.js:68-77 | Deleting a just-added task with a new id restores the collection. |
| Manager.AssignAll | src/TaskManager.js:58-62 | The loop through the setters leaves the object in the state `ApplyUpdates` computes. |
| Manager.SortedByKeys | src/TaskManager.js:130-164 | Sorting by keys read from the tasks orders the tasks by their comparator values. |
| Manager.TaskManager.constructor | src/TaskManager.js:7-10 | A new manager has no tasks. |
| Manager.TaskManager.Save | src/TaskManager.js:192-194 | `saveTasks` records the current states and changes nothing else. |
| Manager.TaskManager.Append | src/TaskManager.js:203-204 | Appends the new objects after the stored ones, keeps every stored task's state and the collection free of repeats, and saves. |
| Manager.TaskManager.Push | src/TaskManager.js:37-38 | `push` then `saveTasks`: the one new object goes at the end, earlier tasks keep their states, and the saved snapshot is the new collection. |
| Manager.TaskManager.RemoveAt | src/TaskManager.js:74 | `splice(i, 1)` removes exactly position i and keeps the order of the rest. |
| Manager.TaskManager.UpdateAt | src/TaskManager.js:57-62 | Updates the task at position i and no other. |
| Manager.TaskManager.FlipAt | src/TaskManager.js:85-89 | `markIncomplete` or `markComplete` by the current flag: only the completed flag of the task at position i changes, to its negation. |
| Manager.TaskManager.AddTask | src/TaskManager.js:18-43 | On failure nothing changes and the error is `AddedTask`'s. On success one fresh task holding `AddedTask`'s state is appended at the end, and the collection is saved. |
| Manager.TaskManager.UpdateTask | src/TaskManager.js:45-66 | An unknown id gives "Task not found" and changes nothing. Otherwise the found task takes `UpdateAtomic`'s state, with no other task touched. An error leaves everything as it was; success saves and returns the same object. |
| Manager.TaskManager.DeleteTask | src/TaskManager.js:68-77 | An unknown id gives "Task not found" and changes nothing. Otherwise the first task with the id is removed and returned, the length drops by one, the rest keep their order, and the collection is saved. |
| Manager.TaskManager.ToggleTaskCompletion | src/TaskManager.js:79-93 | The states become `Toggled`'s, with the same objects in the same order, and the found object (the first with the id) is returned after saving. An unknown id gives "Task not found" and changes nothing. |
| Manager.TaskManager.ImportTasks | src/TaskManager.js:200-208 | `null` from the file handler gives 0 and changes nothing; any array, even an empty one (truthy in JavaScript), is appended, saved and counted. |
| Manager.TaskManager.FindTaskById | src/TaskManager.js:167-169 | None exactly when no task has the id; otherwise the first stored task with that id. |
| Manager.TaskManager.SearchTasks | src/TaskManager.js:96-104 | The stored tasks, in order, whose title, description or category contains the query, ignoring ASCII case. |
| Manager.TaskManager.FilterByCategory | src/TaskManager.js:106-108 | The stored tasks, in order, whose category equals the argument, ignoring ASCII case. |
| Manager.TaskManager.FilterByPriority | src/TaskManager.js:110-112 | The stored tasks, in order, whose priority name equals the argument, ignoring ASCII case. |
| Manager.TaskManager.FilterByStatus | src/TaskManager.js:114-116 | The stored tasks, in order, with the given completed flag. |
| Manager.TaskManager.GetOverdueTasks | src/TaskManager.js:118-120 | The stored tasks, in order, that are overdue. |
| Manager.TaskManager.GetTasksDueSoon | src/TaskManager.js:122-127 | The stored tasks, in order, that are pending with 0 ≤ days until due ≤ days. |
| Manager.TaskManager.AdvancedFilter | src/TaskManager.js:211-244 | The stored tasks, in order, that meet every criterion supplied. |
| Manager.TaskManager.SortTasks | src/TaskManager.js:130-164 | A permutation of the stored tasks. When the keys are consistent, it is ordered by the chosen key. |
| Manager.TaskManager.GetTaskStats | src/TaskManager.js:175-190 | `Stats` of the states. The overdue and due-soon counts are the lengths of `getOverdueTasks()` and `getTasksDueSoon()`, and pending = total − completed. |

## Left out

- src/FileHandler.js is not part of this model. `saveTasks` is the ghost snapshot `saved`. `importTasks` takes what the file handler returned, as an optional sequence of task objects. `exportTasks`, `initialize` and the backup/load cycle are file I/O.
- src/CLI.js and index.js are not part of this model; they are prompts, colouring and the entry point.
- async/await: each call is modelled as one sequential method.
- `console.log` and `console.error` output.
- Id generation (`Date.now()` and `Math.random()`): the id is a parameter, and the model makes no claim that ids are unique.
- `new Date()`, `new Date(text)`, `toISOString` and `toLocaleDateString` are parameters. The model only assumes that a formatted valid date parses back to itself, in the round-trip lemmas.
- Js.Lower: `toLowerCase` is modelled on ASCII letters only; other letters keep their case.
- Js.Trim uses the ECMAScript white-space set, as the language defines it.
- Queries.SortBySorted: the order is proved only when every key is of one kind. A NaN key, from an invalid date, makes the comparator inconsistent. The engine's result is then implementation-defined, and the model states only that the result is a permutation.
- Queries.SortBy: `Array.prototype.sort` is modelled by a stable insertion sort. Any stable sort gives the same result for a consistent comparator.
- Queries.CompletionRate: `completed / total * 100` in floating point, then `Math.round`, is modelled as exact rational rounding. A quotient that floating point lands just below a half is not modelled.
- `updateTask` keys with no setter (`id`, `completed`, `createdAt`) and the variants' own `project` and `location` keys: updates are modelled over the five fields that have setters.
- Tasks.TaskData: a record's `completed` is assumed to be a boolean. `Task.fromJSON` copies whatever the record holds, and `filterByStatus` compares it with `===`, so a record carrying, say, `"true"` is not modelled.
- A `null` category passed to the constructor or found in a record: the category argument is absent or a string.
- `getAllTasks` is not modelled separately: it returns a copy of the sequence, which here is the `tasks` value itself.
- WorkTask.fromJSON and PersonalTask.fromJSON are not modelled: nothing in the core calls them, and they write `_id`, `_completed` and `_createdAt` instead of the private fields.
- `Arg` holds only undefined, null or a string. Numbers, booleans and objects are not modelled, so "a non-string comes back unchanged" (`sanitizeInput`, src/Validator.js:32) and "`validateId` refuses a non-string" (src/Validator.js:28) are proved for undefined and null only, not for a number such as 123.
- Js.TextLess: `<` on strings compares UTF-16 code units, while the model compares characters (Unicode scalar values). The two orders differ when a character outside the Basic Multilingual Plane meets one in U+E000–U+FFFF, which affects the title and category sorts.
- Queries.FarFuture: `new Date(9999, 11, 31)` (src/TaskManager.js:145) is local midnight. The model takes it at UTC, so it is off by the local time-zone offset.
- `saveTasks` catches its own errors and returns false (src/FileHandler.js:60-72). When a task holds an invalid date, `toJSON` throws "Invalid time value" and nothing is written. This can happen after `importTasks` loads a record with an unparsable date. The ghost `saved` records the collection that was to be written, not whether the write succeeded.
- Manager.TaskManager.UpdateTask: it implements the corrected behaviour of the finding below, not the partial update as written. The as-written behaviour is `Manager.UpdateAsWritten`.

## Findings

| source | as written | input that shows it | evidently intended | confidence | as-written member | corrected member |
|---|---|---|---|---|---|---|
| src/TaskManager.js:52-62 | `validateTaskData` skips a falsy priority, but the priority setter refuses null and "". The forEach loop has already assigned the earlier keys when the setter throws, and the error leaves without `saveTasks`. So the task in memory is half updated and unsaved. | `updateTask(id, { title: "New", priority: null })` on a stored task | An update is applied whole or not at all. | not executed; high | Manager.PartialUpdate | Manager.UpdateAtomic |
