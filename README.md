# Gotham Task Center: a Dafny model of the task board

This project models the core of a single-user kanban task board. The board keeps
an ordered list of tasks in the browser and saves it to local storage. Its parts:

- **Task store** (`Page.TaskStore`). A class with the page's two pieces of state:
  the task list and the loading flag. Create, update-by-id, delete-by-id and
  set-status-by-id each replace the list with the result of a list function.
  Loading installs the stored list, or the six-task demo seed. Saving writes the
  list only when the loading flag is down.
- **Search filter and board columns** (`Board`). A case-insensitive substring
  search over name, description and tags, then three status columns in the fixed
  order Todo, InProgress, Done.
- **Task editor** (`Form`). The validation schema, the tags transform, the reset
  values for create and edit mode, and the payload the editor submits. The form's
  field state is a class (`Form.TaskForm`), because the reset effect overwrites it.
- **Drop handler and column titles** (`Column`).
- **Summary dialog** (`Summary`). A class holding the loading, error and summary
  state. It selects the open tasks and builds the request for the summarising
  collaborator.
- **Types** (`Types`). The task record and its two closed enumerations.

Support modules: `Wrappers` (Option, Result), `Seqs` (order-preserving filtering
and subsequences) and `Text` (lower-casing, `includes`, `split`, `trim`).

The list operations are pure functions. The page computes each new list with
`map`, `filter` or a spread, so every store method's `ensures` ties the new list
to one of these functions. Lemmas then prove what the functions promise: frame
conditions, no-ops on absent ids, unique ids kept, idempotence, and subsequence
and permutation facts.

The model follows the code, including where its behaviour may surprise. The one
exception is the tags rule of the form's schema: "## Findings" records it as written
and the model then uses the corrected rule, stating the as-written outcome beside it.
Behaviour worth knowing:

- The name rule is `min(1)` with no trimming, so a name made of spaces passes.
- Update, delete and set-status of an absent id are silent no-ops, not errors.
- Data read back from storage is not shape-checked.

Inputs the browser supplies become parameters:

- `crypto.randomUUID()` becomes a fresh id, with a precondition that it is unused.
- The storage read becomes a `StoredValue`.
- The current day becomes `today`.
- The collaborator's result becomes an `Outcome`, either `Success(text)` or `Failure`.

## Model

| member | source | states |
|---|---|---|
| Types.ParsePriority | src/types/index.ts:1 | a priority string is accepted exactly when it is "Low", "Medium" or "High", and the accepted value's name is that string |
| Types.ParseStatus | src/types/index.ts:2 | a status string is accepted exactly when it is "Todo", "InProgress" or "Done", and the accepted value's name is that string |
| Types.PriorityRoundTrip | src/types/index.ts:1 | every priority parses back from its own name, and distinct priorities have distinct names |
| Types.StatusRoundTrip | src/types/index.ts:2 | every status parses back from its own name, and distinct statuses have distinct names |
| Text.Lower | src/components/task-board.tsx:20 | lower-casing keeps the length and maps each position through the ASCII letter map |
| Text.IncludesIffOccurs | src/components/task-board.tsx:22 | `includes` holds exactly when the needle occurs at some position of the string |
| Text.JoinSplit | src/components/task-form.tsx:30 | splitting on ',' loses nothing: joining the pieces with ',' restores the text |
| Text.SplitJoin | src/components/task-form.tsx:224 | splitting pieces that hold no separator, joined with the separator and a separator-free padding, gives back the first piece and the others behind the padding |
| Text.Split | src/components/task-form.tsx:30 | split yields at least one piece, and no piece contains the separator |
| Text.Trim | src/components/task-form.tsx:30 | trim yields a contiguous slice of its input that neither starts nor ends with whitespace, and everything it removes before and after the slice is whitespace |
| Text.TrimCharacterised | src/components/task-form.tsx:30 | that description fixes the result: any slice with those properties is the trim of the input |
| Board.Matches | src/components/task-board.tsx:20-24 | the empty search term matches every task (the full search rule is stated by `Board.MatchesIffSubstring`) |
| Seqs.KeepMultiset | src/components/task-board.tsx:19 | `filter` keeps every copy of an element that passes and drops every copy of one that does not |
| Board.Filter | src/components/task-board.tsx:18-27 | a task is in the filtered list exactly when it is in the list and matches the term |
| Board.FilterKeepsCopies | src/components/task-board.tsx:19-26 | the filtered list holds every copy of a matching task and no copy of the others, so a list with a repeated record keeps all its copies |
| Board.MatchesIffSubstring | src/components/task-board.tsx:20-24 | a task matches exactly when the lower-cased term is a substring of the lower-cased name, of the present non-empty description, or of some present tag |
| Board.NameOnlyMatch | src/components/task-board.tsx:23-24 | an absent or empty description and absent or empty tags contribute no match, so only the name is searched |
| Board.FilterEmptyTerm | src/components/task-board.tsx:18-27 | the empty search term keeps every task, in order |
| Board.FilterIsSubsequence | src/components/task-board.tsx:19 | the filtered list is a subsequence of the task list |
| Board.FilterIdempotent | src/components/task-board.tsx:18-27 | filtering the filtered list again with the same term returns it unchanged |
| Board.Bucket | src/components/task-board.tsx:36 | a column holds exactly the tasks of the list whose status is the column's |
| Board.Columns | src/components/task-board.tsx:32-36 | there is one column per status, and a task is in a column exactly when it is in the list, matches the term and has that column's status |
| Board.ColumnOfTask | src/components/task-board.tsx:15-36 | there are three columns in the order Todo, InProgress, Done, and a filtered task is in a column exactly when that column's status is its status |
| Board.BucketsCover | src/components/task-board.tsx:36 | the three status buckets of a list, concatenated, are a permutation of it |
| Board.ColumnsCover | src/components/task-board.tsx:32-36 | the columns are a disjoint cover of the filtered list, and their sizes sum to its length |
| Board.ColumnsKeepOrder | src/components/task-board.tsx:36 | each column keeps the relative order of the filtered list |
| Form.ParseTags | src/components/task-form.tsx:30 | a tag is produced exactly when it is the non-empty trim of some comma-separated piece of the text, so no tag is empty, contains ',' or has whitespace at either end; the tags are a subsequence of the trimmed pieces and, as a multiset, exactly those pieces without the empty ones, so order and repetitions are kept |
| Form.DropEmptyMultiset | src/components/task-form.tsx:30 | dropping the empty pieces removes every copy of "" and leaves the count of every other piece unchanged |
| Form.ParseTagsEmpty | src/components/task-form.tsx:30 | an empty or absent tags text yields no tags |
| Form.ParseJoinedTags | src/components/task-form.tsx:224 | the field shows an array as its tags joined with ", "; parsing that text gives back exactly the array, in order, whenever its tags are non-empty, comma-free and trimmed |
| Form.TagsAsWritten | src/components/task-form.tsx:30 | the schema as written rejects the tags field exactly when it holds an array |
| Form.TagsAccepted | src/components/task-form.tsx:30 | the corrected rule always accepts: an array is kept as is, text and absence are parsed as written |
| Form.ValidateAsWritten | src/components/task-form.tsx:24-31 | the schema as written rejects the tags field whenever it holds an array, and otherwise agrees with the corrected schema |
| Form.Validate | src/components/task-form.tsx:24-31 | corrected tags rule: the tags field is never rejected, an untouched array becomes the tags and typed text goes through the tags transform |
| Form.Check | src/components/task-form.tsx:24-31 | validation succeeds exactly when no field is rejected, reports exactly the rejected fields, and on success carries the fields over with the enums parsed |
| Form.ValidateFields | src/components/task-form.tsx:25-29 | with the corrected tags rule the form validates exactly when the name has at least one character (not trimmed) and priority and status are members of their enumerations, and the name field is reported exactly when the name is empty; the schema as written also needs the tags field not to hold an array |
| Form.DefaultsRejectName | src/components/task-form.tsx:25 | the create-mode form as it opens is rejected: for its empty name alone under the corrected tags rule, for its empty name and its array tags as written |
| Form.CreateDefaults | src/components/task-form.tsx:68-76 | create mode resets to name "", description "", no due date, Medium, Todo and an empty tag array |
| Form.EditPrefill | src/components/task-form.tsx:59-67 | edit mode prefills from the task: a missing description becomes "", missing tags become [] |
| Form.Submit | src/components/task-form.tsx:80-97 | the payload carries the edited task's id in edit mode and no id in create mode, the editing flag is set exactly in edit mode, and the data is submitted unchanged |
| Form.TaskForm.constructor | src/components/task-form.tsx:46-56 | the form starts with the create-mode values |
| Form.TaskForm.Reset | src/components/task-form.tsx:58-78 | on open the fields become the edit prefill or the create values by mode; while closed they are unchanged |
| Form.TaskForm.HandleSubmit | src/components/task-form.tsx:80-97 | submits exactly when the fields pass the schema with the corrected tags rule, with the validated data and the mode's id, and otherwise reports the rejected fields |
| Form.UntouchedTagsRejectedAsWritten | src/components/task-form.tsx:30 | as written, an untouched tags field fails validation, both for an edit form and for a create form with a typed name |
| Form.UntouchedTagsAccepted | src/components/task-form.tsx:59-67 | with the corrected rule, an untouched edit form of a named task validates back to the task's own fields |
| Column.DropCommand | src/components/task-column.tsx:20-26 | a drop asks for a status change exactly when the payload id is non-empty, and then asks for that id and the column's status |
| Column.StatusDisplayName | src/components/task-column.tsx:28-39 | the titles are Todo "Pending Intel", InProgress "Mission Active", Done "Case Closed" |
| Column.DisplayNameInjective | src/components/task-column.tsx:28-39 | distinct statuses have distinct titles |
| Summary.OpenTasks | src/components/task-summarization-dialog.tsx:30 | the open tasks are exactly the tasks whose status is not Done |
| Summary.OpenTasksOrder | src/components/task-summarization-dialog.tsx:30 | the open tasks keep list order, and re-filtering them changes nothing |
| Summary.SentDescription | src/components/task-summarization-dialog.tsx:40 | the sent description is the task's own when present and non-empty, else "No description"; never empty |
| Summary.Request | src/components/task-summarization-dialog.tsx:37-42 | the request has one entry per open task, in order, with the name copied and the sent description |
| Summary.RequestDescriptionsNonEmpty | src/components/task-summarization-dialog.tsx:40 | no description in the request is empty |
| Summary.SummaryDialog.constructor | src/components/task-summarization-dialog.tsx:19-21 | the dialog starts with no summary, no error and not loading |
| Summary.SummaryDialog.Start | src/components/task-summarization-dialog.tsx:26-28 | fetching first sets loading and clears error and summary |
| Summary.SummaryDialog.FetchSummary | src/components/task-summarization-dialog.tsx:25-53 | with no open tasks the collaborator is not called and the fixed message is shown; otherwise the request is sent, success sets the summary with no error, failure sets the fixed error with no summary; loading ends either way |
| Summary.SummaryDialog.Effect | src/components/task-summarization-dialog.tsx:23-57 | closed, the dialog sends nothing and changes nothing; open, it behaves as one fetch: no request and the fixed message when no task is open, otherwise the request built from the open tasks, then the collaborator's summary on success or the fixed error on failure, and loading ends |
| Page.AfterSubmit | src/app/page.tsx:126-142 | an edit with an id keeps the length and every id in place; any other submission keeps the old list as a prefix and appends one task with the fresh id, the submitted name and the submitted status |
| Page.UpdateById | src/app/page.tsx:128-132 | update keeps the length and replaces exactly the tasks with the id by the submitted fields under that id |
| Page.SetStatusById | src/app/page.tsx:155-157 | set-status keeps the length and changes only the status of the tasks with the id |
| Page.DeleteById | src/app/page.tsx:148 | a task survives delete exactly when it was in the list and has another id |
| Page.Seed | src/app/page.tsx:20-72 | the seed has six tasks, the i-th under the i-th fresh id |
| Page.Loaded | src/app/page.tsx:88-103 | a parsed stored list is installed as is; a missing, empty or unparseable value installs the seed |
| Page.TaskStore.constructor | src/app/page.tsx:77-82 | the page starts with an empty list and the loading flag up |
| Page.TaskStore.Load | src/app/page.tsx:85-103 | loading raises the flag and installs the stored list or the seed |
| Page.TaskStore.FinishLoading | src/app/page.tsx:105 | the timer lowers the loading flag and leaves the list alone |
| Page.Saved | src/app/page.tsx:109-113 | the save effect writes exactly when the loading flag is down, and what it writes is the current list |
| Page.TaskStore.Save | src/app/page.tsx:109-113 | what the store writes is what `Page.Saved` gives for its list and flag |
| Page.TaskStore.HandleTaskSubmit | src/app/page.tsx:126-144 | an edit with an id updates by that id; any other submission is appended under the fresh id |
| Page.TaskStore.HandleDeleteTask | src/app/page.tsx:146-152 | delete filters out the id and reports whether a task with it existed |
| Page.TaskStore.HandleUpdateTaskStatus | src/app/page.tsx:154-159 | the list becomes the set-status result for the id |
| Page.TaskStore.DialogTasks | src/app/page.tsx:207 | the dialog receives the open-task filter of the list: exactly the tasks that are not Done, every copy of each, as a subsequence of the list |
| Page.SeedShape | src/app/page.tsx:20-72 | with distinct fresh ids the seed's ids are unique, and it has two Todo, two InProgress and two Done tasks |
| Page.LoadAfterSave | src/app/page.tsx:90-113 | once loading is over, what the save effect writes loads back as the same list; while loading nothing is written and a load of the empty slot installs the seed |
| Page.CreateAppends | src/app/page.tsx:135-140 | for any list, create appends exactly one task under the fresh id after the unchanged old list; when the old ids are unique and the fresh id is unused, the ids stay unique |
| Page.UpdateKeepsIds | src/app/page.tsx:128-132 | update keeps every id in place, keeps ids unique, and is a no-op for an absent id |
| Page.SetStatusKeepsFields | src/app/page.tsx:155-157 | set-status changes no field but status, keeps ids unique, and is a no-op for an absent id |
| Page.SetStatusExactlyOne | src/app/page.tsx:155-157 | with unique ids, exactly one task has the id afterwards, and it is the old task with the new status, whatever the old status |
| Page.DeleteProperties | src/app/page.tsx:148 | delete leaves no task with the id, keeps every copy of the others in order, keeps ids unique, is a no-op for an absent id and is idempotent |
| Page.EditRoundTrip | src/app/page.tsx:128-132 | with the corrected tags rule, submitting an untouched edit form rewrites only that task, with its own fields, a missing description becoming "" and missing tags []; as written the schema rejects that form for its tags |
| Page.CreateScenario | src/app/page.tsx:135-140 | with the corrected tags rule, creating "Patrol Docks" with High priority appends a High-priority Todo task under the fresh id; as written the schema rejects exactly the tags field of that form |
| Page.DropMovesTask | src/components/task-column.tsx:22-24 | dropping a task's id on a column moves that task, and only it, to the column's status |
| Page.OpenTasksAreTodoAndInProgress | src/app/page.tsx:207 | the open tasks are, as a multiset, the Todo column plus the InProgress column |

## Left out

- Form.Validate: uses the corrected tags rule of "## Findings" (an untouched array is accepted), not the schema as written, which is `Form.ValidateAsWritten`.
- Form.TaskForm.HandleSubmit: validates with the corrected tags rule of "## Findings"; as written the source rejects a form whose tags field was never typed in.
- Form.ValidateFields: its first two clauses hold for the corrected tags rule of "## Findings"; its last clause states what the schema as written adds.
- Form.DefaultsRejectName: its first clause is about the corrected tags rule of "## Findings"; its second clause gives the as-written outcome.
- Page.EditRoundTrip: the round trip runs through the corrected tags rule of "## Findings"; as written the source rejects the untouched edit form, as the lemma's first clause states.
- Page.CreateScenario: the scenario runs through the corrected tags rule of "## Findings"; as written the source rejects the form for its tags, as the lemma's first clause states.
- Page.LoadAfterSave: JSON encoding and decoding are not modelled, so the load half of the round trip is the identity on the parsed list by construction.
- Text.Lower: models `toLowerCase` on ASCII letters only. Other characters are left unchanged, so Unicode case mapping is not modelled.
- Page.TaskStore.Load: the stored value is given already typed. Parsed JSON that is not an array of well-formed tasks (which the page would install unchecked) is not representable. A value that makes `.map` throw counts as `Malformed`.
- Page.TaskStore.Load: the 500 ms timer is the separate method `FinishLoading`. Effect scheduling and timing are not modelled.
- Page.TaskStore.HandleTaskSubmit: the toast and the closing of the editor dialog (`handleCloseTaskForm`) are not modelled.
- Page.TaskStore.HandleDeleteTask: the toast text is not modelled; only whether it is shown (`found`).
- Summary.SummaryDialog.FetchSummary: the `await` is modelled as one step, given the collaborator's outcome. A late result arriving after a newer request is not modelled.
- Dates are opaque day numbers. `new Date(...)` re-wrapping, `addDays`, `format` and the "not before today" input limit are not modelled. A null due date and an absent one are both `None`.
- JSON serialisation and the storage API are not modelled. Saving yields the list to write; loading takes a `StoredValue`.
- The summarising collaborator (a language-model prompt) is not modelled; only its outcome is an input.
- Header, task card, icons and providers are presentation. The card's only logic is the drag payload `task.id`, which is the input of `Page.DropMovesTask`. The header's priority, status and date filters are commented out in the source.
- The switch default in `getStatusDisplayName` cannot be reached for the closed status type, so it has no counterpart.
- The search-term state (`setSearchTerm`) and the dialog open/close flags are not modelled; the search term is a parameter of `Board.Filter`.

## Findings

| source | as written | input that shows it | evidently intended | confidence | as-written member | corrected member |
|---|---|---|---|---|---|---|
| src/components/task-form.tsx:30 | the tags rule is `z.string().optional()`, but the defaults (line 54), the create reset (line 75) and the edit reset (line 66) all put an array in the tags field; an array fails the string check, so validation rejects the form | open the editor in create mode, type the name "Patrol Docks", leave tags untouched, submit: the tags field is rejected and nothing is created; the same for an edit that leaves tags untouched | an untouched tags field submits its array as the tag list (the input at line 224 already displays an array by joining it) | medium, not executed | Form.UntouchedTagsRejectedAsWritten | Form.UntouchedTagsAccepted, Form.Validate, Form.TaskForm.HandleSubmit, Form.ValidateFields, Form.DefaultsRejectName, Page.EditRoundTrip, Page.CreateScenario |

The corrected rule is `Form.TagsAccepted`; `Form.Validate`, `Form.TaskForm.HandleSubmit`, `Form.ValidateFields`, `Form.DefaultsRejectName`, `Page.EditRoundTrip` and `Page.CreateScenario` use it, and each also states the as-written outcome where one applies, through `Form.ValidateAsWritten`.
