# Task list of a browser to-do application, in Dafny

This project models the logic of a React to-do application: the ordered task list held by the
`TodoApp` component, the `TaskInput` form that creates tasks, and the `TaskItem` card that
edits one task. Everything else in the application (rendering, styling, storage, sign-in)
is left out.

- `TaskModel.dfy`: the `Task` record, priorities, categories, filter settings, the
  `Partial<Task>` patch (`TaskUpdate`) and its spread-merge, and an abstract `DateTime`
  (day, hours, minutes) ordered on the time line.
- `JsText.dfy`: the JavaScript string behaviour the logic relies on: `trim` with the ECMAScript
  white-space set, `toLowerCase` on ASCII letters, `includes`, and `Number` on a digit string.
- `Seqs.dfy`: `filter` and the two uses of `splice` (remove one, insert one), with the facts
  about them (subsequence, permutation, inverse pairs).
- `TodoApp.dfy`: every list operation as a function on `seq<Task>` (add, update, delete,
  toggle, drop-to-reorder, filtered view, progress), lemmas about each, the wiring to the form
  and the card, and the `TodoApp` class whose methods change the list and the filter settings
  and are proved equal to those functions.
- `TaskInput.dfy`: time parsing, `setHours`, the submitted draft, and the `TaskInputForm` class
  with its five state cells and `HandleSubmit`.
- `TaskItem.dfy`: priority colours, category icons, the due-date label and the overdue test,
  the save patch, and the `TaskCard` class with its edit buffers.

Ids, creation times and "now" are inputs: `AddTask` takes the id that `crypto.randomUUID()`
would give (required to be fresh) and the time `new Date()` would give. Callbacks into the
parent (`onAddTask`, `onUpdate`) are modelled as values the method returns.

Two behaviours of the code are modelled as they are. Saving an edit has no empty-text guard:
a blank buffer is saved as the empty text (`TaskItem.SaveUpdateSpec`). A patch's `id` and
`createdAt` overwrite the task's (`TodoApp.UpdatedFields`); no caller in the code passes them.

## Model

| member | source | states |
|---|---|---|
| `TaskModel.Merge` | src/components/TodoApp.tsx:64 | each of the seven fields takes the patch's value when the patch holds it and keeps the task's value otherwise; an empty patch changes nothing |
| `TaskModel.MergeIdempotent` | src/components/TodoApp.tsx:64 | merging the same patch twice equals merging it once |
| `TaskModel.BeforeIsCalendarOrder` | src/components/TaskItem.tsx:94 | for real clock readings, "before" is the day-then-hours-then-minutes order |
| `JsText.TrimEmptyIffBlank` | src/components/TaskInput.tsx:27 | `trim()` yields the empty string exactly when every character is white space |
| `JsText.Trim` | src/components/TaskInput.tsx:27 | `trim()` as leading then trailing white-space removal; its properties are the lemmas below |
| `JsText.TrimStart` | src/components/TaskInput.tsx:27 | what is kept is a suffix of the input |
| `JsText.TrimEnd` | src/components/TaskInput.tsx:27 | what is kept is a prefix of the input |
| `JsText.TrimStartCutsBlank` | src/components/TaskInput.tsx:27 | everything cut from the front is white space |
| `JsText.TrimStartFirst` | src/components/TaskInput.tsx:27 | what is kept is empty or starts with a non-space |
| `JsText.TrimEndCutsBlank` | src/components/TaskInput.tsx:27 | everything cut from the back is white space |
| `JsText.TrimEndLast` | src/components/TaskInput.tsx:27 | what is kept is empty or ends with a non-space |
| `JsText.TrimSlice` | src/components/TaskInput.tsx:37 | the trimmed text is the contiguous piece of the input that starts after the leading white space |
| `JsText.TrimMargins` | src/components/TaskInput.tsx:37 | only white space lies before and after that piece |
| `JsText.TrimEnds` | src/components/TaskInput.tsx:37 | the trimmed text is empty or starts and ends with a non-space |
| `JsText.TrimIdempotent` | src/components/TaskItem.tsx:54 | trimming twice equals trimming once |
| `JsText.Lower` | src/components/TodoApp.tsx:120 | case folding keeps the length and maps each character by ASCII lower-casing |
| `JsText.Includes` | src/components/TodoApp.tsx:120 | `includes` is true exactly when the needle occurs at some position of the text |
| `TodoApp.FindIndex` | src/components/TodoApp.tsx:97-98 | returns the first index holding the id, or -1 exactly when no task has it |
| `TodoApp.Find` | src/components/TodoApp.tsx:77 | returns the first task of the list with the id, or nothing exactly when no task has it |
| `TodoApp.Added` | src/components/TodoApp.tsx:53-59 | `[newTask, ...prev]` with the task built from the draft, the id and the creation time; its shape is `AddedShape` |
| `TodoApp.AddedShape` | src/components/TodoApp.tsx:53-60 | one longer; head is the draft with the given id and createdAt; tail is the old list; a fresh id keeps ids unique |
| `TodoApp.Updated` | src/components/TodoApp.tsx:62-66 | same length; every task whose id differs is left as it is |
| `TodoApp.UpdatedFields` | src/components/TodoApp.tsx:62-66 | same length and positions; tasks with other ids untouched; in the match, absent fields kept and present fields (id and createdAt too) overwritten |
| `TodoApp.UpdatedAt` | src/components/TodoApp.tsx:62-66 | with unique ids, updating the id of the task at index k merges the patch into that task and leaves every other task as it is |
| `TodoApp.UpdatedMissing` | src/components/TodoApp.tsx:62-66 | an id not in the list leaves it unchanged |
| `TodoApp.UpdatedIdempotent` | src/components/TodoApp.tsx:62-66 | applying the same update twice equals applying it once |
| `TodoApp.UpdatedKeepsIds` | src/components/TodoApp.tsx:62-66 | a patch without an id keeps every task's id, so ids stay unique |
| `TodoApp.Deleted` | src/components/TodoApp.tsx:68-70 | no longer than the list, and no remaining task has the id |
| `TodoApp.DeletedSpec` | src/components/TodoApp.tsx:68-70 | no task with the id remains, every other task remains, and survivors keep their relative order |
| `TodoApp.DeletedIdempotent` | src/components/TodoApp.tsx:68-70 | deleting twice equals deleting once |
| `TodoApp.DeletedExactlyOne` | src/components/TodoApp.tsx:68-70 | with unique ids, a present id loses exactly its one task (list one shorter), an absent id changes nothing |
| `TodoApp.FilterKeepsUniqueIds` | src/components/TodoApp.tsx:69 | filtering a list with unique ids keeps them unique |
| `TodoApp.DeleteUndoesAdd` | src/components/TodoApp.tsx:53-70 | deleting the id of a just-added task gives back the old list |
| `TodoApp.ToggleUpdate` | src/components/TodoApp.tsx:77 | a patch holding only `completed`; `true` when no task has the id (`!undefined`) |
| `TodoApp.Toggled` | src/components/TodoApp.tsx:76-78 | same length, every id kept, every task with another id left as it is |
| `TodoApp.ToggledMissing` | src/components/TodoApp.tsx:76-78 | toggling an id not in the list changes nothing |
| `TodoApp.ToggledFlips` | src/components/TodoApp.tsx:76-78 | with unique ids, only the matching task's `completed` flips |
| `TodoApp.ToggledSecond` | src/components/TodoApp.tsx:76-78 | in a two-task list with distinct ids, toggling the second flips it alone |
| `TodoApp.ToggleInvolution` | src/components/TodoApp.tsx:76-78 | toggling twice restores the list |
| `TodoApp.Moved` | src/components/TodoApp.tsx:102-104 | same length, with the task from `from` at index `to` |
| `TodoApp.MovedSpec` | src/components/TodoApp.tsx:102-104 | the two splices keep length and elements, put the dragged task at the target index, and keep all others in relative order |
| `TodoApp.MoveUndo` | src/components/TodoApp.tsx:102-104 | moving the task back from the target index to its old index restores the list |
| `TodoApp.RemovedKeepsUniqueIds` | src/components/TodoApp.tsx:103 | taking the dragged task out keeps ids unique and leaves no task with its id |
| `TodoApp.InsertedKeepsUniqueIds` | src/components/TodoApp.tsx:104 | inserting a task whose id is absent keeps ids unique |
| `TodoApp.MovedKeepsUniqueIds` | src/components/TodoApp.tsx:102-104 | a move keeps ids unique |
| `TodoApp.DropResult` | src/components/TodoApp.tsx:93-107 | the list after a drop, of the same length; its cases are `DropNoOp` and `DropMoves` |
| `TodoApp.DropNoOp` | src/components/TodoApp.tsx:95-100 | no drag, an empty dragged id, dragged equal to target, or either id absent leaves the list unchanged |
| `TodoApp.DropMoves` | src/components/TodoApp.tsx:97-106 | otherwise the result is a same-length permutation with the dragged task at the target's former index and the rest in relative order |
| `TodoApp.DropKeepsUniqueIds` | src/components/TodoApp.tsx:93-107 | a drop keeps ids unique |
| `TodoApp.DropPermutes` | src/components/TodoApp.tsx:93-107 | every drop, real or ignored, keeps the same multiset of tasks |
| `TodoApp.MatchesStatus` | src/components/TodoApp.tsx:111-113 | "all" passes every task, "completed" the done ones, "pending" the open ones |
| `TodoApp.MatchesCategory` | src/components/TodoApp.tsx:115 | "all" or the task's category |
| `TodoApp.MatchesPriority` | src/components/TodoApp.tsx:117 | "all" or the task's priority |
| `TodoApp.MatchesSearch` | src/components/TodoApp.tsx:119-120 | an empty query, or the folded query occurs in the folded text |
| `TodoApp.Matches` | src/components/TodoApp.tsx:122 | all four tests pass |
| `TodoApp.FilteredTasks` | src/components/TodoApp.tsx:110-123 | no longer than the list, and every task in it passes all four tests |
| `TodoApp.FilteredView` | src/components/TodoApp.tsx:110-123 | the view is a subsequence; each task has the chosen status, category, priority and contains the search text ignoring ASCII case; every task passing all four is shown |
| `TodoApp.FilteredAllIsIdentity` | src/components/TodoApp.tsx:110-123 | with "all"/"all"/"all"/"" the view is the whole list in order |
| `TodoApp.SearchIgnoresCase` | src/components/TodoApp.tsx:119-120 | the search "MEET" matches the text "Team meeting" |
| `TodoApp.CompletedCount` | src/components/TodoApp.tsx:127 | the number of completed tasks, at most the list's length |
| `TodoApp.Progress` | src/components/TodoApp.tsx:128 | completed over total times 100, or 0 for an empty list; its bounds are `ProgressBounds` |
| `TodoApp.ProgressBounds` | src/components/TodoApp.tsx:126-128 | completed count at most total; progress 0 for an empty list; progress within [0, 100] |
| `TodoApp.ProgressFullIffAllDone` | src/components/TodoApp.tsx:126-128 | for a non-empty list, progress is 100 exactly when every task is completed |
| `TodoApp.CountAllMeansAll` | src/components/TodoApp.tsx:127 | if the completed filter keeps as many tasks as the list has, every task is completed |
| `TodoApp.SubmittedTaskHasText` | src/components/TaskInput.tsx:36-42 | a task added from a submitted form heads the list with non-empty trimmed text, not completed |
| `TodoApp.SaveEditInList` | src/components/TaskItem.tsx:52-58 | a card's save, applied by the list's update, rewrites only that task with the buffers and keeps ids unique |
| `TodoApp.TwoTaskScenario` | src/components/TodoApp.tsx:53-128 | add two tasks (newest first), complete the older one: the completed view is that task alone and progress is 50 |
| `TodoApp.TodoApp.constructor` | src/components/TodoApp.tsx:28-33 | empty list, all filters "all", empty search, nothing dragged |
| `TodoApp.TodoApp.AddTask` | src/components/TodoApp.tsx:53-60 | the list becomes the added list; ids stay unique given a fresh id |
| `TodoApp.TodoApp.UpdateTask` | src/components/TodoApp.tsx:62-66 | the list becomes the updated list; ids stay unique for an id-free patch |
| `TodoApp.TodoApp.DeleteTask` | src/components/TodoApp.tsx:68-70 | the list becomes the filtered list, holds no task with the id, ids stay unique |
| `TodoApp.TodoApp.ClearAllTasks` | src/components/TodoApp.tsx:72-74 | the list is empty and progress is 0 |
| `TodoApp.TodoApp.ToggleTask` | src/components/TodoApp.tsx:76-78 | reads the flag with find and patches through update; the list becomes the toggled list; with unique ids only the matching task's `completed` flips and ids stay unique |
| `TodoApp.TodoApp.HandleDragStart` | src/components/TodoApp.tsx:81-83 | the dragged id is recorded |
| `TodoApp.TodoApp.HandleDragEnd` | src/components/TodoApp.tsx:85-87 | the dragged id is cleared |
| `TodoApp.TodoApp.HandleDrop` | src/components/TodoApp.tsx:93-107 | copy, two splices, store: the list becomes the drop result, a permutation of the old one, ids unique |
| `TodoApp.TodoApp.Visible` | src/components/TodoApp.tsx:110-123 | the shown tasks: no more than the list holds, each passing the current four filter settings |
| `TodoApp.TodoApp.TotalTasks` | src/components/TodoApp.tsx:126 | the list's length |
| `TodoApp.TodoApp.CompletedTasks` | src/components/TodoApp.tsx:127 | the completed count, at most the total |
| `TodoApp.TodoApp.ProgressPercent` | src/components/TodoApp.tsx:128 | the progress shown, within [0, 100] |
| `TodoApp.TodoApp.SetFilter` | src/components/TodoApp.tsx:159 | the status filter takes the chosen value |
| `TodoApp.TodoApp.SetCategoryFilter` | src/components/TodoApp.tsx:161 | the category filter takes the chosen value |
| `TodoApp.TodoApp.SetPriorityFilter` | src/components/TodoApp.tsx:163 | the priority filter takes the chosen value |
| `TodoApp.TodoApp.SetSearchQuery` | src/components/TodoApp.tsx:165 | the search text takes the typed value |
| `TaskInput.ParseTime` | src/components/TaskInput.tsx:31 | the numbers before the first and second colon; no reading without a colon or with a non-digit |
| `TaskInput.FormatTime` | src/components/TaskInput.tsx:148-149 | the time field's "HH:MM" value: five characters with the colon at index 2 |
| `TaskInput.ParseFormatRoundTrip` | src/components/TaskInput.tsx:31 | splitting "HH:MM" at ':' and reading both numbers gives back the hours and minutes |
| `TaskInput.FieldBeforeColonStops` | src/components/TaskInput.tsx:31 | `split(':')` ends the first field at the first colon |
| `TaskInput.SetHours` | src/components/TaskInput.tsx:32-33 | the copy lies on the same day's time line at hours*60+minutes, with a real clock reading |
| `TaskInput.SetHoursSameDay` | src/components/TaskInput.tsx:32-33 | a valid hour and minute keep the day and set exactly that time |
| `TaskInput.FinalDueDate` | src/components/TaskInput.tsx:29-34 | the chosen date, with the parsed time set on it when both a date and a time are given; its cases are `FinalDueDateCases` |
| `TaskInput.FinalDueDateCases` | src/components/TaskInput.tsx:29-34 | no time: date unchanged (possibly undefined); no date: time ignored; both: the time is applied on the chosen day |
| `TaskInput.SubmitDraft` | src/components/TaskInput.tsx:27-42 | nothing for blank text, else the draft handed to `onAddTask`; its properties are `SubmitDraftSpec` |
| `TaskInput.SubmitDraftSpec` | src/components/TaskInput.tsx:27-42 | rejected exactly when the text is white space only; else trimmed non-empty text, not completed, chosen priority, category and due date |
| `TaskInput.TaskInputForm.IsReset` | src/components/TaskInput.tsx:18-22 | the initial cell values: empty text, medium, personal, no date, empty time |
| `TaskInput.TaskInputForm.constructor` | src/components/TaskInput.tsx:18-22 | starts in the reset state |
| `TaskInput.TaskInputForm.SetText` | src/components/TaskInput.tsx:59 | the text cell takes the typed value |
| `TaskInput.TaskInputForm.SetPriority` | src/components/TaskInput.tsx:72 | the priority cell takes the chosen value |
| `TaskInput.TaskInputForm.SetCategory` | src/components/TaskInput.tsx:102 | the category cell takes the chosen value |
| `TaskInput.TaskInputForm.SetDueDate` | src/components/TaskInput.tsx:134 | the date cell takes the picked date or none |
| `TaskInput.TaskInputForm.SetDueTime` | src/components/TaskInput.tsx:150-152 | the time cell changes only while a date is chosen (the field is disabled otherwise) |
| `TaskInput.TaskInputForm.HandleSubmit` | src/components/TaskInput.tsx:24-50 | returns the submitted draft; a rejected submit changes nothing, an accepted one resets the form to its initial state |
| `TaskItem.PriorityColor` | src/components/TaskItem.tsx:70-77 | the `switch` on the priority string, grey by default; its properties are `PriorityColorSpec` |
| `TaskItem.CategoryIcon` | src/components/TaskItem.tsx:79-86 | the `switch` on the category string, a memo icon by default; its properties are `CategoryIconSpec` |
| `TaskItem.PriorityColorSpec` | src/components/TaskItem.tsx:70-77 | high, medium and low get three distinct classes, none grey; every other string gets grey |
| `TaskItem.CategoryIconSpec` | src/components/TaskItem.tsx:79-86 | work, study and personal get three distinct icons, none the default; every other string gets the default |
| `TaskItem.IsOverdue` | src/components/TaskItem.tsx:94 | a due date exists, lies before now, and the task is open |
| `TaskItem.OverdueSpec` | src/components/TaskItem.tsx:94 | completed or undated tasks are never overdue; overdue stays true as time passes; completing clears it |
| `TaskItem.FormatDueDate` | src/components/TaskItem.tsx:88-92 | "Today" on now's day, "Tomorrow" on the next day, else the date |
| `TaskItem.DueLabelAndOverdue` | src/components/TaskItem.tsx:88-94 | a task labelled "Tomorrow" is not overdue; an open task due on an earlier day is |
| `TaskItem.SaveUpdate` | src/components/TaskItem.tsx:52-58 | the patch of `handleSaveEdit`; its effect is `SaveUpdateSpec` |
| `TaskItem.SaveUpdateSpec` | src/components/TaskItem.tsx:52-58 | the save patch sets trimmed text (empty for a blank buffer), priority, category and due date, and keeps id, completion and creation time |
| `TaskItem.SaveUneditedIsNoOp` | src/components/TaskItem.tsx:52-58 | saving unedited buffers of a task with trimmed text changes nothing |
| `TaskItem.TaskCard.Draggable` | src/components/TaskItem.tsx:106 | the card can be dragged exactly when it is not being edited |
| `TaskItem.TaskCard.BuffersMatchTask` | src/components/TaskItem.tsx:46-50 | the four edit buffers hold the shown task's values |
| `TaskItem.TaskCard.constructor` | src/components/TaskItem.tsx:46-50 | buffers start at the task's values, not editing, draggable |
| `TaskItem.TaskCard.ReceiveTask` | src/components/TaskItem.tsx:35-45 | a new task value replaces the shown task; the buffers are kept |
| `TaskItem.TaskCard.StartEditing` | src/components/TaskItem.tsx:241 | edit mode on, card not draggable |
| `TaskItem.TaskCard.SetEditText` | src/components/TaskItem.tsx:133 | the text buffer takes the typed value |
| `TaskItem.TaskCard.SetEditPriority` | src/components/TaskItem.tsx:138 | the priority buffer takes the chosen value |
| `TaskItem.TaskCard.SetEditCategory` | src/components/TaskItem.tsx:149 | the category buffer takes the chosen value |
| `TaskItem.TaskCard.SetEditDueDate` | src/components/TaskItem.tsx:171 | the date buffer takes the picked date or none |
| `TaskItem.TaskCard.HandleSaveEdit` | src/components/TaskItem.tsx:52-60 | one update with the task's id and the save patch from the buffers; edit mode off, draggable again |
| `TaskItem.TaskCard.HandleCancelEdit` | src/components/TaskItem.tsx:62-68 | buffers restored from the current task, edit mode off, no update returned |

## Left out

- Rendering, styling, `cn(...)` class composition and the UI widgets: presentation only.
- Loading and saving the list in `localStorage` and reviving dates from JSON (TodoApp.tsx
  lines 36-51): browser storage and `JSON.parse` are foreign.
- `useAuth`, `signOut` and the greeting; the theme toggle; `TaskFilters` and `ProgressBar`,
  which only forward callbacks and display values.
- `crypto.randomUUID()` and `new Date()`: they are parameters of `AddTask`, and the id's
  uniqueness is a precondition.
- date-fns: `isPast` is the model's `Before` against an explicit `now`; `isToday` and
  `isTomorrow` compare calendar days; `format` is not modelled (the label keeps the date).
  Seconds, milliseconds, time zones and daylight-saving changes are not modelled.
- Floating point and `Math.round`: progress is an exact `real`.
- `toLowerCase` beyond ASCII letters: non-ASCII characters are not case-folded.
- React scheduling: operations are sequential and atomic; the stale `tasks` closure that
  `toggleTask` captures is not modelled (the model reads the current list).
- Dates are values, not shared mutable objects: the copy made before `setHours` and the
  aliasing of the picked date into the task are not visible in the model.
- `TaskInput.FinalDueDate`: a time string without a colon, or with a field that is not all
  digits, keeps the date's time in the model. JavaScript gives an invalid date when there is no
  colon or when `Number` cannot read a field, and reads fields such as " 9", "+9" or "9.5" as
  numbers (which `setHours` then truncates). The time field only ever holds "" or "HH:MM";
  `Number` is modelled on digit strings only.
- The delete button of the card and the checkbox only forward the task's id to `deleteTask`
  and `toggleTask`, which are modelled.
