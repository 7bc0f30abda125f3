# Task manager: a verified model of its task rules

The repository is a small task manager. A Node/Express server keeps each
user's tasks in MongoDB and serves four routes: list, create, update and
delete. Every route sees only the tasks of the signed-in user. A React
client shows those tasks, keeps its local list in step with the server's
answers, and guards the add form and the inline edit of a row.

This project models that core in Dafny and proves its rules:

- `text.dfy` (module `Text`): JavaScript's `String.prototype.trim` over
  the ECMAScript white-space and line-terminator code points. It is
  specified relationally and proved unique and idempotent.
- `task_model.dfy` (module `TaskModel`): the `Task` document of
  `server/models/Task.js`. It covers the `trim` setter of `title`, its
  `required` validator on `save`, and the defaults of `completed`
  (false) and `createdAt` (now).
- `task_routes.dfy` (module `TaskRoutes`): `server/routes/tasks.js` as a
  class `TaskStore`, an owner-scoped collection updated in place.
  - `List` is a function.
  - `Create`, `Update` and `Delete` are methods that answer a `Response`
    carrying the route's HTTP status.
  - The class invariant says every stored title is non-empty and trimmed,
    and every id is unique and already issued.
- `app.dfy` (module `App`): the list updaters and stats-bar counts of
  `client/src/App.jsx`, the proofs about them, and the handlers as a class
  `AppState` over the `tasks`/`loading`/`adding`/`error` state cells.
- `task_item.dfy` (module `TaskItemView`): the row component
  `client/src/components/TaskItem.jsx` as a class over `isEditing` and
  `editValue`.
- `task_form.dfy` (module `TaskFormView`): the add form
  `client/src/components/TaskForm.jsx` as a class over `title`.
- `interplay.dfy` (module `Interplay`): how the client and server fit
  together.
  - What the form or a row sends passes the server's guards and is stored
    unchanged.
  - The client's `map`/`filter` updaters reproduce, on a list with unique
    ids, exactly what the route did to the collection.

Things outside the program are parameters:

- The signed-in user's id (`req.user._id`, set by the `protect`
  middleware) is an argument of every route.
- The current time (`Date.now`) is an argument of `Create`.
- ObjectId generation is a counter, `nextId`, whose values are never
  reused.
- On the client, each awaited API call's outcome is a `Reply` argument:
  the parsed body, or the message of the thrown error.
- `alert(...)` texts and the callbacks a component invokes (`onAdd`,
  `onEdit`) are the methods' return values.
- The answer of `confirm(...)` is the `confirmed` argument of
  `HandleDelete`.

Where parts of the source disagree with each other, the model follows the routes:

- `server/models/Task.js:6-25` declares no `user` field. Yet the routes
  write it (`server/routes/tasks.js:35`) and filter on it
  (`server/routes/tasks.js:13,55,80`). With Mongoose's default strict
  schema that field would not be stored. The model follows the routes:
  every task carries its owner.
- `server/index.js:20` mounts the router at `/tasks`, while
  `client/src/Tasks.jsx:6` calls `/api/tasks`. The route comments say
  `/api/tasks`. Mount paths are not part of the model.
- `client/src/api.js:16` sends no bearer token, so the `protect`-guarded
  routes would refuse the client's calls. The model takes the caller's id
  as given.
- Titles have no length bound. The schema declares none, so the model
  has none either. `maxLength={200}` is an input attribute in the
  browser only.
- A PUT whose title trims to nothing fails the schema's `required`
  validator on `save`. The answer is a 400 carrying Mongoose's message
  (`TitleRequiredMessage`), not the POST guard's "Title is required".

## Model

| member | source | states |
|---|---|---|
| Text.TrimStart | server/models/Task.js:11 | the result is the input minus a leading all-white-space prefix, and does not start with white space |
| Text.TrimEnd | server/models/Task.js:11 | the result is the input minus a trailing all-white-space suffix, and does not end with white space |
| Text.Trim | server/routes/tasks.js:29 | the input is white space + result + white space with the result trimmed at both ends, and the result is empty exactly when the input is all white space |
| Text.TrimBothEnds | server/routes/tasks.js:34 | trimming the start and then the end meets the relational specification of trim |
| Text.FramedByBothEnds | server/routes/tasks.js:34 | the two white-space layers peeled off by the start and end trims combine into one prefix and one suffix of the input |
| Text.Framed | server/models/Task.js:11 | a trimmed middle framed by white space sits at the prefix's length, and is empty exactly when the whole input is white space |
| Text.TrimsUnique | server/models/Task.js:11 | at most one trimmed string is the trim of a given input, so trim is fully determined by its specification |
| Text.TrimOfTrimmed | server/models/Task.js:11 | trimming a string with no white space at either end returns it unchanged |
| Text.TrimIdempotent | server/routes/tasks.js:62 | trimming twice equals trimming once (route trim followed by the schema's trim setter) |
| TaskModel.CastTitle | server/models/Task.js:11 | the value held by `title` after the setter is the raw value with its white-space ends removed, so it has no white space at either end, and is empty exactly when the raw value is all white space |
| TaskModel.NewDocument | server/models/Task.js:8-24 | a new document keeps id and owner, holds the given title with its white-space ends removed (empty exactly when the title is missing or blank), has `completed` false and `createdAt` the current time unless they are given |
| TaskModel.Save | server/models/Task.js:10 | save succeeds exactly when the title is non-empty, stores the document unchanged, and otherwise fails with the `required` validator's message |
| TaskModel.SavedDocumentIsStored | server/models/Task.js:8-12 | a document that was built and saved had a title with a non-space character, and its stored title is that title trimmed, non-empty and with no white space at either end |
| TaskRoutes.Response.Status | server/routes/tasks.js:30-87 | every answer carries 200, 201, 400 or 404: 200 exactly for an update or a delete, 201 exactly for a created task, 400 exactly for a refused title and 404 exactly for a miss |
| TaskRoutes.TitleMissing | server/routes/tasks.js:29 | the POST guard: a title that is absent, empty, or empty once trimmed; its meaning is stated by `TitleMissingIsBlank` |
| TaskRoutes.Owns | server/routes/tasks.js:53-56 | the query `{ _id: id, user: owner }` of PUT and DELETE; `OwnedUnique` and `FindOwned` state what it selects |
| TaskRoutes.TitleMissingIsBlank | server/routes/tasks.js:29 | the POST guard rejects exactly the titles that are absent or consist of white space only |
| TaskRoutes.OwnedBy | server/routes/tasks.js:13 | the owner's query returns no more than the collection, and holds a task exactly when it is stored and owned by that owner |
| TaskRoutes.InsertNewest | server/routes/tasks.js:14 | inserting into a newest-first list keeps it newest first and adds exactly that task to the multiset |
| TaskRoutes.SortNewestFirst | server/routes/tasks.js:14 | the sort's output is ordered by `createdAt` non-increasing and is a permutation of its input |
| TaskRoutes.TaskStore.List | server/routes/tasks.js:11-16 | GET returns the caller's tasks newest first: every stored task of the caller, no task of anyone else, each as often as stored |
| TaskRoutes.TaskStore.FindOwned | server/routes/tasks.js:53-56 | the search finds the position of the caller's task with that id, which then is the only task with the id, or reports that the caller owns no such task |
| TaskRoutes.TaskStore.constructor | server/models/Task.js:28 | a new collection is empty and satisfies the invariant |
| TaskRoutes.TaskStore.Create | server/routes/tasks.js:25-44 | a missing or blank title gives 400 and changes nothing; otherwise exactly one task is appended with a fresh id, the trimmed title, `completed` false, `createdAt` now and the caller as owner; it is returned with 201 and appears in the caller's list; other owners' tasks are unchanged and the invariant is kept |
| TaskRoutes.TaskStore.Update | server/routes/tasks.js:49-71 | an id the caller does not own (absent or someone else's) gives 404 and changes nothing; a supplied title that trims to empty gives 400 and changes nothing; otherwise exactly that task is replaced by its patch and returned with 200; other owners' tasks and the invariant are kept |
| TaskRoutes.TaskStore.Delete | server/routes/tasks.js:76-91 | an id the caller does not own gives 404 and changes nothing; otherwise exactly that task is removed, the others stay in order, and the requested id is echoed; other owners' tasks and the invariant are kept |
| TaskRoutes.Patch | server/routes/tasks.js:62-63 | the field assignments of PUT; its properties are the three lemmas below |
| TaskRoutes.PatchChangesOnlySupplied | server/routes/tasks.js:62-63 | an update changes only the supplied fields, stores a supplied title trimmed, and keeps id, owner and `createdAt` |
| TaskRoutes.PatchIdempotent | server/routes/tasks.js:62-63 | applying the same body twice equals applying it once |
| TaskRoutes.PatchSaves | server/routes/tasks.js:62-69 | the patched task passes save exactly when no blank title was supplied, and then it is a well-formed stored task |
| TaskRoutes.RepeatedUpdate | server/routes/tasks.js:49-71 | sending the same PUT twice gives the same answer twice and leaves the collection as one PUT did: unchanged unless the first answer was an update, and otherwise with exactly the caller's matching task replaced by the returned one |
| TaskRoutes.OwnedByUpdateOther | server/routes/tasks.js:53-56 | replacing another owner's task by another owner's task does not change what the caller's query returns |
| TaskRoutes.OwnedByRemoveOther | server/routes/tasks.js:78-81 | removing another owner's task does not change what the caller's query returns |
| TaskRoutes.OwnedByAppendOther | server/routes/tasks.js:33-38 | appending another owner's task does not change what the caller's query returns |
| TaskRoutes.AppendWellFormed | server/routes/tasks.js:33-38 | appending a stored task under the next id keeps every title stored and every id unique and issued |
| TaskRoutes.ReplaceWellFormed | server/routes/tasks.js:62-65 | replacing a task by a stored task with the same id keeps the invariant |
| TaskRoutes.RemoveWellFormed | server/routes/tasks.js:78-81 | removing one task keeps the invariant and drops exactly the tasks carrying its id |
| TaskRoutes.OwnedUnique | server/routes/tasks.js:53-56 | with unique ids, at most one task matches `{ _id: id, user: owner }` |
| App.ReplaceById | client/src/App.jsx:58 | the list after a toggle keeps its length; entries with the target id become the server's task and all others are unchanged |
| App.RemoveById | client/src/App.jsx:79 | after a delete no entry with that id remains, every other entry does, and the result is a subsequence of the old list |
| App.CompletedCount | client/src/App.jsx:20 | the done count is at most the total, and equals it exactly when every task is completed |
| App.RemainingCount | client/src/App.jsx:21 | `total - completed`; related to `OpenCount` by `RemainingIsOpen` |
| App.OpenCount | client/src/App.jsx:19-21 | the number of open tasks, counted on their own, as the reference for the remaining figure |
| App.RemainingIsOpen | client/src/App.jsx:19-21 | `total - completed` is the number of open tasks (so never negative) and done plus remaining is the total |
| App.ToggleMovesOneTask | client/src/App.jsx:20 | flipping one task's `completed` moves the done count by exactly one in that direction |
| App.AppState.constructor | client/src/App.jsx:13-16 | the state starts with no tasks, loading, not adding and no error |
| App.AppState.LoadTasks | client/src/App.jsx:28-38 | the error is cleared and the server's list taken, or the failure is recorded and the list kept; `loading` ends false either way |
| App.AppState.HandleAdd | client/src/App.jsx:41-52 | a created task is put in front of the unchanged list; a failure alerts "Failed to add task: " with the message and keeps the list; `adding` ends false |
| App.AppState.HandleToggle | client/src/App.jsx:55-62 | a success replaces the entries with that id by the server's task; a failure alerts "Failed to update task: " with the message and keeps the list |
| App.AppState.HandleEdit | client/src/App.jsx:65-72 | as a toggle, with the alert "Failed to edit task: " |
| App.AppState.HandleDelete | client/src/App.jsx:75-83 | a declined confirmation sends nothing and changes nothing; a success drops the entries with that id; a failure alerts "Failed to delete task: " with the message and keeps the list |
| App.AppState.Stats | client/src/App.jsx:19-21 | the stats bar shows the total, a done count at most the total, and a remaining count equal to the open tasks, the two adding up to the total |
| TaskItemView.TaskItem.constructor | client/src/components/TaskItem.jsx:9-10 | a row starts out of edit mode with the input primed with the title |
| TaskItemView.TaskItem.ReceiveTask | client/src/components/TaskItem.jsx:9-10 | a new `task` prop leaves both state cells as they were |
| TaskItemView.TaskItem.BeginEdit | client/src/components/TaskItem.jsx:89-96 | edit mode is entered only while the task is open; otherwise nothing changes |
| TaskItemView.TaskItem.ChangeEditValue | client/src/components/TaskItem.jsx:65 | typing replaces the edit value and nothing else |
| TaskItemView.TaskItem.EditSubmit | client/src/components/TaskItem.jsx:13-23 | an edit is sent exactly when the trimmed value is non-empty and differs from the title, and then carries the task's id and the trimmed value; a refused submit restores the title; edit mode ends either way |
| TaskItemView.TaskItem.EditCancel | client/src/components/TaskItem.jsx:26-29 | cancel restores the title, ends edit mode and sends nothing |
| TaskItemView.TaskItem.KeyDown | client/src/components/TaskItem.jsx:32-35 | Enter submits as above (an edit sent, the input kept; a refusal restores the title), Escape cancels, and any other key changes nothing and sends nothing |
| TaskItemView.TaskItem.ToggleRequest | client/src/components/TaskItem.jsx:48 | the checkbox asks for the task's own id with the negation of its `completed` |
| TaskFormView.TaskForm.constructor | client/src/components/TaskForm.jsx:10 | the form starts with an empty title |
| TaskFormView.TaskForm.ChangeTitle | client/src/components/TaskForm.jsx:26 | typing replaces the title |
| TaskFormView.TaskForm.Submit | client/src/components/TaskForm.jsx:12-18 | `onAdd` is called exactly when the title has a non-space character, with the trimmed title, and the input is then cleared; otherwise the input is kept |
| TaskFormView.TaskForm.CanSubmit | client/src/components/TaskForm.jsx:35 | the submit button is enabled exactly when no add is in flight and the title has a non-space character |
| Interplay.FormTitleAcceptedByCreate | client/src/components/TaskForm.jsx:14-16 | a title the form sends passes the POST guard, and the schema stores it unchanged |
| Interplay.RowEditAcceptedByUpdate | client/src/components/TaskItem.jsx:14-21 | an edit a row sends is saved by the PUT route with exactly that title, and `completed` is untouched |
| Interplay.ToggleFlipsCompleted | client/src/components/TaskItem.jsx:48 | the checkbox's PUT body flips `completed` and changes nothing else |
| Interplay.ReplaceByIdIsUpdateAt | client/src/App.jsx:58 | with unique ids, the client's `map` after an update is the route's replacement of that one entry |
| Interplay.RemoveByIdIsRemoveAt | client/src/App.jsx:79 | with unique ids, the client's `filter` after a delete is the route's removal of that one entry, the rest in order |
| Interplay.TailUniqueIds | client/src/App.jsx:79 | a list with unique ids keeps them after its head, and no later entry carries the head's id |
| Interplay.RemoveByIdAbsent | client/src/App.jsx:79 | filtering out an id no entry carries returns the list unchanged |

## Left out

- Authentication: the `protect` middleware and the client's `AuthContext` are not part of this model. The caller's id is a parameter of every route.
- Server failures: the 500 answers of GET (`server/routes/tasks.js:17-19`) and DELETE (`server/routes/tasks.js:88-90`), and a database error caught at `server/routes/tasks.js:41-43` and `68-70`, are left out. These are I/O failures outside the program.
- Mongoose casting: body fields are modelled as an optional string `title` and an optional boolean `completed`. A non-string title (which would throw in `title.trim()`), a `completed` that Mongoose casts or rejects, and a malformed ObjectId (a `CastError`) are left out.
- Strict schema: Mongoose would not store the undeclared `user` field. This is not modelled, because the routes show the intended behaviour (see above).
- `TaskRoutes.TaskStore.List`: the order of tasks with equal `createdAt` is left open by MongoDB. The contract states only newest-first order and the exact contents. The function's body keeps ties in collection order.
- Persistence and bootstrap: the database connection, `app.listen`, CORS, the mount path and the JSON encoding of answers are left out. The collection is an in-memory sequence.
- Network I/O: the `fetch` wrappers and `handleResponse` in `client/src/api.js` are left out, and so are the duplicate axios variants in `client/src/Tasks.jsx`, `client/src/pages/Auth.jsx` and `client/src/pages/Login.jsx`. A call's outcome is a `Reply` parameter.
- `App.AppState.HandleAdd`: `adding` is true only while the request is in flight. The method has no await, so only the final value (false) is stated. Likewise `loading` is stated only at the end of `LoadTasks`.
- Asynchrony: races between concurrent requests are left out. Each handler is run as one step, after its reply is known. So is React's batching of state updates: the updater functions are applied directly.
- Rendering: JSX and CSS, the locale date formatting, the floating-point progress percentage and `client/src/components/TaskList.jsx` are left out, as are the row's delete button and its `onDelete(task._id)` callback, which passes the id through unchanged.
- `App.AppState.HandleToggle` and `App.AppState.HandleEdit`: the request they send, `updateTask(id, { completed })` and `updateTask(id, { title })` (`client/src/App.jsx:57,67`), passes the handler's arguments through unchanged and is not modelled; its body is `Interplay.ToggleFlipsCompleted` and `Interplay.RowEditAcceptedByUpdate` on the server side, and its answer is the `reply` parameter.
- `maxLength={200}`: this is a browser input attribute with no server counterpart, so it is not an invariant of the model.
- `App.RemainingCount`: this function has no contract of its own. `App.RemainingIsOpen` relates it to the independent definition `App.OpenCount`.
- `TaskRoutes.Patch`: this function has no contract of its own. Its properties are the lemmas `PatchChangesOnlySupplied`, `PatchIdempotent` and `PatchSaves`.
- Unicode: `Text.Trim` works on code points. It removes the white-space and line-terminator code points of ECMAScript (the WhiteSpace and LineTerminator productions of ECMA-262); strings are sequences of characters, not UTF-16 code units.
