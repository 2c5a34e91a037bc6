# Lista de Tareas — a Dafny model of the task table and the task-list view

This project models the two places where the to-do application makes decisions:

- **The `tareas` table behind the REST routes** (`server.js`). The table is a map from row id to
  the stored columns (`nombre`, `descripcion`, `fecha_vencimiento`, `prioridad`, `completada`)
  plus the AUTOINCREMENT counter, the largest id ever handed out. Each route is a pure step
  function from the table to a new table and one reply (status plus JSON body):
  `ListStep`, `CreateStep`, `DeleteStep`, `CompleteStep`. The class `TaskStore.Store` performs
  the same steps in place on its `rows` and `lastId` fields. A storage-engine failure is an
  input (`fault`) that carries the engine's error text.
- **The task list of the browser client** (`public/js/app.js`). The view-model holds the
  rendered items in document order, each keyed by its id, with a completed flag and the
  disabled state of its two buttons. It also holds whether the "no tasks" indicator is shown
  and the message last shown in the modal. Each handler (`addTask`, `saveTask`, `loadTasks`,
  `deleteTask`, `completeTask`, the submit handler) is a pure function from the old view to
  the new one. The class `TaskView.TaskList` makes the same changes in place. Server replies
  are inputs: parsed JSON, or a failure before any JSON was parsed.

Modules: `Tasks` (the task record sent over the wire), `TaskStore` (server), `TaskText`
(`trim`, the due-date label, due-date order), `TaskOrder` (the filter-and-sort of
`loadTasks`), `TaskView` (the view-model).

What is proved, in short:

- Server ids are fresh and strictly increasing over any run of requests, and above every id
  ever handed out, including ids of deleted rows.
- A created row holds the four values verbatim with `completada = 0`. A create with a missing
  field is a 500 and leaves the table unchanged. Empty strings are accepted.
- The listing holds every row exactly once, in strictly descending id order.
- Delete and complete touch only their row, always answer 200, and are idempotent.
- No request ever changes a text column or sets `completada` back to 0.
- On the client, a load renders a permutation of the data: not-completed tasks first, in
  due-date order, then completed tasks in the server's order.
- Save appends at the end. Delete removes one item and keeps the order of the rest. Complete
  marks one item and is idempotent.
- The submit test is exactly "name and description hold a non-whitespace character, date and
  priority are non-empty".
- The due-date label replaces only the first `T`.

Behaviours of the code that the model keeps as written:

- The store accepts empty strings for all four columns. Only an absent (null) field is
  rejected, by the `NOT NULL` constraints.
- The submit handler trims the description as well as the name.
- When no rendered item has the id, `deleteTask` and `completeTask` do not succeed silently.
  `removeChild(null)` or `taskItem.classList` throws, the `catch` runs, and the error modal
  is shown.
- A load whose reply is an empty array, or JSON without a positive `length` (such as the
  `{error}` body of a 500, null or a number), only shows the empty indicator. It does not
  clear the list.
- A load whose reply has a positive `length` but is not an array (a non-empty JSON string)
  clears the list, then `data.filter` throws and the `catch` only logs. The list ends up
  empty and the indicator is left as it was.
- A create at the end of the rowid range fails with `SQLITE_FULL` even when a field is also
  missing, because SQLite allocates the AUTOINCREMENT rowid before it checks the `NOT NULL`
  constraints.
- Delete and complete change the list for any parsed JSON reply, a 500 error body included.
  Only a failure before parsing leaves the item as it was.
- `saveTask` tests `data.id` for truthiness, so a reply with id 0 counts as a failure.

## Model

| member | source | states |
|---|---|---|
| TaskStore.Listing | server.js:39 | the rows with ids in 1..k, strictly descending by id, each equal to the stored row under its id |
| TaskStore.ListingComplete | server.js:39 | every row with an id in 1..k appears in the listing |
| TaskStore.ListAllExact | server.js:37-46 | on a well-formed table, GET lists every row exactly once, as stored, in strictly descending id order |
| TaskStore.CreateSucceeds | server.js:49-63 | create answers 201 iff there is no storage failure, all four fields are present and the rowid range is not used up; the 201 id is lastId+1, above every id in the table, and the new row holds the four values verbatim with `completada = 0` |
| TaskStore.CreateRejectsMissing | server.js:51-58 | a body missing any of the four NOT NULL fields gets a 500 and the table is unchanged; the error names the first missing column, or is `SQLITE_FULL` when the rowid range is used up, since the rowid is allocated first |
| TaskStore.DeleteOnly | server.js:66-79 | delete removes that id only, keeps every other row and the counter, answers 200 "Tarea eliminada" even when no row matched, and a second delete changes nothing |
| TaskStore.CompleteOnly | server.js:82-95 | complete sets `completada = 1` on that row only and keeps its text columns, changes nothing for an absent id, answers 200, and repeating it changes nothing |
| TaskStore.FaultChangesNothing | server.js:40-42 | a storage failure answers 500 with the engine's message and leaves the table unchanged, on every route |
| TaskStore.HandleEvolves | server.js:37-95 | every route keeps the table well formed, never lowers the counter, never changes a text column, never resets `completada`, never brings back a deleted id |
| TaskStore.CreatedIdIsNext | server.js:61 | the id of a 201 reply is the old counter plus one and becomes the new counter |
| TaskStore.RunEvolves | server.js:27 | over any sequence of requests the table stays well formed and evolves as above, and the ids of successful creates are strictly increasing and above the starting counter, so no id is handed out twice |
| TaskStore.Store.constructor | server.js:26-33 | the new table is empty with the counter at 0 |
| TaskStore.Store.List | server.js:37-46 | GET answers 500 on a storage failure, otherwise 200 with the listing of the current rows; nothing changes |
| TaskStore.Store.Create | server.js:49-63 | the in-place insert performs `CreateStep`; a 201 id is outside, and above, every id ever handed out |
| TaskStore.Store.Delete | server.js:66-79 | the in-place delete performs `DeleteStep` |
| TaskStore.Store.Complete | server.js:82-95 | the in-place update performs `CompleteStep` |
| TaskText.TrimStart | public/js/app.js:188-189 | the result is a suffix of the input, everything dropped is whitespace, and it does not start with whitespace |
| TaskText.TrimEnd | public/js/app.js:188-189 | the result is a prefix of the input, everything dropped is whitespace, and it does not end with whitespace |
| TaskText.TrimEmptyIff | public/js/app.js:188-194 | a trimmed field is empty iff the field is all whitespace |
| TaskText.DueLabelWithoutT | public/js/app.js:35 | a due date without `T` is shown unchanged |
| TaskText.DueLabelFirstT | public/js/app.js:35 | with its first `T` at i, the label is the date up to i, then " H:", then the rest unchanged |
| TaskText.DueLeqTotal | public/js/app.js:117 | any two due dates are comparable |
| TaskText.DueLeqTransitive | public/js/app.js:117 | the due-date order is transitive |
| TaskOrder.Pending | public/js/app.js:113 | every kept task has `completada` 0 |
| TaskOrder.Finished | public/js/app.js:114 | every kept task has `completada` non-zero |
| TaskOrder.SplitIsPermutation | public/js/app.js:113-114 | the two filters together are a permutation of the data |
| TaskOrder.FinishedKeepsDescendingIds | public/js/app.js:125-127 | if the data is in descending id order, so is the completed block |
| TaskOrder.FinishedBelow | public/js/app.js:114 | the completed block keeps an upper bound on the ids of the data |
| TaskOrder.InsertByDuePermutes | public/js/app.js:117 | inserting adds exactly the one task |
| TaskOrder.InsertByDueAbove | public/js/app.js:117 | a lower bound on the due dates of the input and the task bounds every due date of the result |
| TaskOrder.InsertByDueSorted | public/js/app.js:117 | inserting into a due-date-sorted list keeps it sorted |
| TaskOrder.SortByDueSorted | public/js/app.js:117 | the sort yields a due-date-sorted permutation of its input |
| TaskOrder.LoadOrderLength | public/js/app.js:113-127 | the load order has as many tasks as the data |
| TaskOrder.SortedPendingArePending | public/js/app.js:113-117 | every task of the sorted not-completed block is not completed |
| TaskOrder.LoadOrderBlocks | public/js/app.js:119-127 | in the load order, position i holds a not-completed task iff i is below the number of not-completed tasks |
| TaskOrder.LoadOrderSpec | public/js/app.js:109-127 | the load order is a permutation of the data; every not-completed task precedes every completed one; the not-completed block is due-date sorted; the completed block is the completed tasks in the order received, descending by id when the data is |
| TaskView.RenderAllPermutes | public/js/app.js:120-127 | rendering a permutation of the tasks gives a permutation of the items |
| TaskView.IndexOfId | public/js/app.js:146 | the lookup finds the first item with that id, or reports that none has it |
| TaskView.IndexOfIdSameIds | public/js/app.js:167 | the lookup depends only on the items' ids |
| TaskView.SubmitValidation | public/js/app.js:184-201 | a save is sent iff name and description hold a non-whitespace character and due date and priority are non-empty; otherwise the list and indicator are unchanged and the validation message is shown |
| TaskView.SaveAppends | public/js/app.js:88-101 | a reply with a truthy id appends one uncompleted, enabled item with that id after the unchanged earlier items and hides the indicator; any other reply leaves list and indicator alone and shows "Error al agregar la tarea" or, on a failure, "Error de conexión" |
| TaskView.AddRendersState | public/js/app.js:29-70 | addTask appends exactly one item with the given id after the unchanged earlier items and hides the indicator; the item is completed as asked, and its buttons are disabled iff it is completed |
| TaskView.LoadRendersData | public/js/app.js:105-128 | after a non-empty load the items are the rendering of `LoadOrder(data)` (so not-completed tasks in due-date order, then completed ones as received), they are a permutation of the rendered data, not-completed items come first and are exactly the first `Pending` positions, buttons are disabled iff completed, and the indicator is hidden |
| TaskView.LoadEmptyShowsIndicator | public/js/app.js:109-136 | an empty array, or JSON without a positive `length`, keeps the items and shows the indicator; a failed load changes nothing |
| TaskView.LoadLengthOnlyClears | public/js/app.js:109-136 | JSON with a positive `length` but no `filter` (a non-empty string) leaves the list empty and changes neither the indicator nor the modal |
| TaskView.DeleteRemovesOne | public/js/app.js:140-158 | on a parsed reply, delete removes only the first item with that id, keeps the rest in order, leaves no item with that id when ids are unique, and shows the indicator iff the list became empty (otherwise leaves it); a failure or an unknown id only shows the error |
| TaskView.CompleteMarksOne | public/js/app.js:161-181 | on a parsed reply, complete marks the first item with that id completed with both buttons disabled, changes no other item, and is idempotent; a failure or an unknown id only shows the error |
| TaskView.IndicatorKept | public/js/app.js:129-152 | every action keeps "indicator shown iff no item rendered", given that a load rendering nothing happens on an empty list |
| TaskView.TaskList.constructor | public/js/app.js:4-5 | the page starts with no rendered item and no modal message |
| TaskView.TaskList.AddTask | public/js/app.js:29-70 | the in-place append performs `AfterAdd` |
| TaskView.TaskList.SaveTask | public/js/app.js:73-102 | the in-place save performs `AfterSave` |
| TaskView.TaskList.RenderEach | public/js/app.js:120-127 | each `forEach(addTask)` loop appends the rendering of its tasks in order and hides the indicator if it rendered any |
| TaskView.TaskList.LoadTasks | public/js/app.js:105-137 | the in-place load performs `AfterLoad` |
| TaskView.TaskList.DeleteTask | public/js/app.js:140-158 | the in-place delete performs `AfterDelete` |
| TaskView.TaskList.CompleteTask | public/js/app.js:161-181 | the in-place complete performs `AfterComplete` |
| TaskView.TaskList.Submit | public/js/app.js:184-201 | reports a sent request iff name and description hold a non-whitespace character and due date and priority are non-empty, and performs `AfterSubmit` |

## Left out

- DOM plumbing is not modelled: `innerHTML` templating and its unescaped interpolation, `querySelector` lookups beyond finding the first item with an id, CSS class strings, and event-listener and `onclick` wiring. The model keeps only the view state these produce.
- The modal is modelled only as the message last shown. Closing it (the close button, `window.onclick`) is not modelled.
- `form.reset()` after a submission is not modelled, because the form fields are not part of the view-model.
- `console.log` and `console.error` output is not modelled.
- `fetch`, `response.json()` and promise chaining are replaced by an explicit reply input. Requests are taken one at a time, with no interleaving of in-flight replies.
- Express routing, `bodyParser`, static file serving and `app.listen` are out of scope.
- The sqlite3 driver and SQL text are replaced by the map model. The coercion of `req.params.id` from text to integer is out of scope: ids are integers.
- SQLite type affinity and JSON values of other types (a number sent as `nombre`, a non-integer `id`) are not modelled: fields are strings or absent.
- The error texts of the storage engine are modelled as fixed strings (NOT NULL failure, rowid range used up). Other failure causes are the `fault` input.
- Persistence across restarts is not modelled.
- `new Date(...)` parsing in the sort comparator is replaced by character order on the due-date string. For the fixed-width `YYYY-MM-DDTHH:MM` value of a date-time input this is chronological order. Invalid dates (NaN comparisons) are out.
- TaskOrder.SortByDueSorted: does not state stability among tasks with equal due dates (JavaScript's sort is stable); only sortedness and permutation are proved.
- The initial display of the empty indicator comes from the page markup, which is not part of this model, so the `TaskList` constructor takes it as a parameter.
- TaskView.IndicatorKept: does not cover a reload that renders nothing, or that clears the list and then throws, over a non-empty list. That would show the indicator beside the items; the page only loads once, before anything is rendered.
- TaskStore.CreateSucceeds: states the 201 id exactly as `lastId + 1` up to 2^63-1, but the sqlite3 driver hands `this.lastID` and the INTEGER columns of the listing to JavaScript as double-precision numbers, so ids above 2^53 do not come back exactly. The model's ids are unbounded integers.
