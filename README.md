# Task-list manager: a Dafny model of its state and handlers

The program is a single-page task-list manager. The page keeps two globals:

- `lists`: the ordered lists, each `{id, name, tasks}`, where each task is `{id, name, complete}`;
- `selectedListId`: the id of the selected list, or null.

Seven event handlers change this state: create list, select list, delete the selected list,
add task, set a task's checkbox, delete task and clear completed tasks. After a change the
page saves both globals. Every handler except the checkbox one then redraws the whole page; the
checkbox handler (app.js:42-43) redraws only the "n task(s) remaining" label. The full redraw
shows one row per list, with the selected row marked active. When the selection names a list,
it also shows that list's task panel, with the list's name as title and the remaining label.

The model has six modules:

- `Wrappers` (wrappers.dfy): `Option`, for the null selection and for the `undefined` that
  `find` returns.
- `Seqs` (seqs.dfy): `Filter` and `FindFirst`, the array `filter` and `find` the handlers use.
  They come with lemmas on order (`IsSubsequence`), multiplicity (multisets), idempotence,
  commutation and concatenation.
- `Model` (model.dfy): the `Task`, `TodoList` and `Board` values. Each handler is a function
  from the board before the event to a `Reply`: the board after it and how the handler ended
  (`Applied`, `Ignored` for an empty name, `Threw`).
- `Laws` (laws.dfy): properties that relate the handlers to one another.
- `Render` (render.dfy): the remaining count and its label, the list rows and the task panel.
  It also relates the handlers to the count and to the panel.
- `App` (app.dfy): class `TaskApp`. Its fields `lists` and `selectedListId` are the two
  globals. It has one method per handler, which updates the fields the way the handler does
  (`push`, `filter`, a field update). Each method is proved to reach the state and outcome that
  the `Model` function gives. Six client methods at the end replay a session: create
  "Groceries", add "Milk" and "Eggs", tick them, clear them and delete the list.

A task handler can find no selected list: either nothing is selected or the selection names a
list that no longer exists. The source then dereferences `undefined` and throws a TypeError.
The set-checkbox handler also throws when the selected list has no task with the clicked id.
Each throw happens before any assignment to `lists` or `selectedListId`; the add-task handler
has already cleared its input field by then (app.js:81). The model keeps these paths as an
explicit branch: the outcome is `Threw` and `lists` and `selectedListId` are unchanged. No
handler has a precondition.

A reader might expect the handlers to behave in ways the code does not; the model follows
the code:

- One might expect blank names to be rejected. The code (app.js:64 and app.js:78) rejects only
  the empty string, so a name made of spaces creates a list or a task.
- One might expect deleting the selected list to remove a single list. The code (app.js:96)
  filters, so every list with that id is removed. Deleting a task (app.js:50-52) likewise
  removes every task with the id.
- One might expect deleting the selected list to do nothing when no list matches. The code
  (app.js:98) clears the selection even then.
- One might expect a task handler with no selected list to do nothing. The code dereferences
  the `undefined` that `find` returns and throws, and the model records that outcome as `Threw`.
- Setting a checkbox changes only the first task with the clicked id, because the code uses
  `find` (app.js:38-41).

## Model

| member | source | states |
|---|---|---|
| Seqs.Filter | app.js:50-52 | `filter` keeps exactly the elements that pass the test, and never more elements than it was given |
| Seqs.FindFirst | app.js:37 | `find` semantics: the index of the first element that passes the test; none exactly when no element passes |
| Seqs.FilterIsSubsequence | app.js:96 | a filter keeps its elements in their original relative order |
| Seqs.FilterMultiset | app.js:90 | a filter keeps every copy of a kept element and no copy of a dropped one |
| Seqs.FilterIdempotent | app.js:90 | filtering twice with the same test is the same as filtering once |
| Model.CreateList | app.js:102-108 | a new list carries the given id and name and has no tasks |
| Model.CreateTask | app.js:185-187 | a new task carries the given id and name and is not complete |
| Model.SelectedIndex | app.js:127 | `lists.find` by the selected id: the first list whose id equals the selection; none when the selection is null or dangling |
| Model.TaskIndex | app.js:38-40 | the first task of a list whose id matches; none exactly when no task matches |
| Model.IncompleteTasks | app.js:90 | exactly the tasks with `complete == false`, each copy kept, in their original order |
| Model.TasksOtherThan | app.js:50-52 | every task with the given id is removed; every other task is kept, in order |
| Model.ListsOtherThan | app.js:96 | every list whose id equals the selection is removed; the rest keep their order; with a null selection nothing is removed |
| Model.AddList | app.js:59-71 | an empty name is ignored and changes nothing; otherwise exactly one list with the fresh id, the name and no tasks is appended; earlier lists and the selection are unchanged |
| Model.SelectList | app.js:27-33 | the clicked id becomes the selection with no existence check; the lists are untouched |
| Model.DeleteSelectedList | app.js:94-100 | every list with the selected id is removed, the rest keep their order and multiplicity, and the selection becomes null; with no selection the lists are unchanged |
| Model.AddTask | app.js:73-86 | an empty name is ignored; with no selected list the handler throws and nothing changes; otherwise an incomplete task is appended to the selected list only, and the selection is unchanged |
| Model.SetTaskComplete | app.js:35-44 | the first matching task of the selected list takes the checkbox value; every other task and list is unchanged; a missing list or task throws and changes nothing |
| Model.DeleteTask | app.js:45-56 | the selected list loses every task with that id and keeps the others in order; other lists are unchanged; no selected list throws |
| Model.ClearCompleted | app.js:88-92 | the selected list keeps exactly its incomplete tasks in order; other lists are unchanged; no selected list throws |
| Laws.AddTaskKeepsIds | app.js:73-86 | adding a task leaves every list id, the list order and the selection as they were, so `find` keeps finding the same list |
| Laws.SetTaskCompleteKeepsIds | app.js:35-44 | setting a checkbox leaves every list id, the list order and the selection as they were, so `find` keeps finding the same list |
| Laws.DeleteTaskKeepsIds | app.js:45-56 | deleting a task leaves every list id, the list order and the selection as they were, so `find` keeps finding the same list |
| Laws.ClearCompletedKeepsIds | app.js:88-92 | clearing completed tasks leaves every list id, the list order and the selection as they were, so `find` keeps finding the same list |
| Laws.ClearCompletedIdempotent | app.js:88-92 | clearing completed tasks a second time changes nothing and ends the same way |
| Laws.HandlersKeepSelectionResolved | app.js:59-92 | a selection that names an existing list still names one after adding a list or a task, setting a checkbox, deleting a task or clearing |
| Laws.SelectListResolvesIff | app.js:29-30 | after a click, the selection names an existing list exactly when some list has the clicked id |
| Render.CountIncomplete | app.js:159-161 | the remaining count is at most the number of tasks; it is zero exactly when every task is complete, and equal to the number of tasks exactly when none is |
| Render.Decimal | app.js:165 | the count is written as at least one decimal digit, with no leading zero; zero is written "0" |
| Render.DecimalRoundTrip | app.js:165 | reading the written digits back gives the count |
| Render.CountWords | app.js:163-165 | the words after the number are " task remaining" exactly for one and " tasks remaining" otherwise |
| Render.CountLabelReadsBack | app.js:163-165 | the label for a count starts with exactly the count's decimal digits, which read back as the count, and the rest is " task remaining" exactly for one and " tasks remaining" otherwise |
| Render.CountLabelInjective | app.js:165 | different counts give different labels |
| Render.CountLabelNearOne | app.js:163-165 | the labels for zero, one and two are "0 tasks remaining", "1 task remaining" and "2 tasks remaining" |
| Render.RemainingLabelReadsBack | app.js:157-166 | the leading digits of the label are the number of incomplete tasks, and the rest reads " task remaining" exactly when that number is one and " tasks remaining" otherwise |
| Render.ListRows | app.js:141-155 | one row per list, in order, with its id and name, active exactly when its id equals the selection |
| Render.Panel | app.js:122-139 | the task panel is shown exactly when some list's id equals the selection; it shows the first such list's name and remaining label |
| Render.ActiveRowIffPanelShown | app.js:127-132 | some row is active exactly when the task panel is shown |
| Render.AtMostOneActiveRow | app.js:152 | when list ids are distinct, at most one row is active |
| Render.DeleteSelectedListHidesPanel | app.js:94-100 | after the selected list is deleted, the panel is hidden and no row is active |
| Render.SelectListShowsPanel | app.js:29-30 | selecting shows a panel exactly when some list has the id; the panel shows the first such list's name and label |
| Render.AddTaskRaisesCount | app.js:84 | adding a task raises the selected list's remaining count by one |
| Render.SetTaskCompleteMovesCount | app.js:41-43 | ticking an incomplete task lowers the count by one; unticking a complete one raises it by one; otherwise it stays |
| Render.ClearCompletedKeepsCount | app.js:90-91 | clearing keeps the remaining count, which then equals the number of tasks left |
| Render.DeleteTaskNeverRaisesCount | app.js:50-54 | deleting tasks never raises the remaining count |
| App.TaskApp.constructor | app.js:22-24 | the state starts as the lists and selection read at start-up |
| App.TaskApp.AddList | app.js:59-71 | the fields and outcome after a new-list submit are those `Model.AddList` gives for the fields before it |
| App.TaskApp.SelectList | app.js:27-33 | after a row click the fields are those `Model.SelectList` gives |
| App.TaskApp.DeleteSelectedList | app.js:94-100 | after the delete-list click the fields are those `Model.DeleteSelectedList` gives |
| App.TaskApp.AddTask | app.js:73-86 | the fields and outcome after a new-task submit are those `Model.AddTask` gives |
| App.TaskApp.SetTaskComplete | app.js:35-44 | the fields and outcome after a checkbox click are those `Model.SetTaskComplete` gives |
| App.TaskApp.DeleteTask | app.js:45-56 | the fields and outcome after a task's delete click are those `Model.DeleteTask` gives |
| App.TaskApp.ClearCompleted | app.js:88-92 | the fields and outcome after the clear-completed click are those `Model.ClearCompleted` gives |

## Left out

- Saving to and loading from `localStorage`, with `JSON.stringify` and `JSON.parse` (app.js:19-24, 110-120). This is a browser API. The constructor takes the loaded lists and selection as parameters. A null selection is stored as the string "null", and after a reload it becomes that string rather than null; the model does not capture this.
- The DOM: element lookup, event listeners, the `tagName` checks that route a click, clearing the input fields, and the text and visibility writes (app.js:1-16, 27-29, 35-36, 45-46, 67, 81, 124, 130-137, 143-153, 165). The model computes the values these writes show.
- Drawing the task rows with the template and `clearElement` (app.js:168-193). This is UI plumbing. The task panel keeps only its title and the remaining label.
- `Date.now().toString()` ids (app.js:104, 186). They depend on the clock, so each handler that creates something takes a fresh id as a parameter. The model does not assume that ids are unique.
- The `listName == null` and `taskName == null` tests (app.js:64, 78). An input's value is always a string, so names are modelled as strings.
- Render.Decimal: does not model JavaScript's exponent notation for numbers of 10^21 and above, a count no list reaches.
- Lists and tasks are values in the model, while the source updates list and task objects in place (app.js:41, 50, 84, 90). Each of these objects is reachable only through its position in `lists`, so no other reference can observe the update, and the resulting state is the same.
