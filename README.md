# Kanban board: client store, controller and Go task backend

A Dafny model of a small kanban board. Tasks have an id, a title, an
optional description, a `completed` flag and one of three statuses:
`todo`, `in_progress` and `done`. Each status is shown as a column.

The model has two halves:

- **The TypeScript client.** It holds the tasks in a reducer-driven store:
  `taskReducer` with six actions (`wrappers.dfy`, `sequences.dfy`,
  `task_reducer.dfy`). It shows them through status filters
  (`helpers.dfy`). A controller issues at most one gateway call per gesture,
  and none for opening, closing or editing the form. Every other handler
  dispatches only when its call succeeds; the initial load installs whatever
  `fetchAllTasks` returned, `[]` on failure (`app.dfy`). An
  add/edit form builds the submitted payload from trimmed input
  (`js_strings.dfy`, `task_modal.dfy`).
- **The Go backend.** It stores task pointers in an in-memory map
  (`models.dfy`, `errors.dfy`, `task_repository.dfy`). It validates and
  applies partial updates in a service (`task_service.dfy`). It routes HTTP
  requests and maps errors to status codes, as in RFC 9110 section 15
  (`task_handler.dfy`). `wire.dfy` relates the client's column names to the
  server's status strings.

The different parts of the source are modelled in different styles:

- **Pure code.** The reducer, the views, the form payload and the status
  tables are functions, with lemmas about them.
- **State-changing code.** Each of these is a class with `modifies` clauses:
  - the controller, whose fields are the store, the modal flag and the
    edited id;
  - the form's two fields;
  - the repository's map;
  - the Go `Task`, a heap object shared between the repository and the
    service.

In Go, `UpdateTask` writes the title and description into the stored
pointer before it checks the status. So an update that is rejected for its
status still leaves its title and description in the repository. The model
keeps this behaviour and proves it (`RejectedStatusStillWritesFields`, and
the postcondition of `Service.TaskService.UpdateTask`).

Calls into external code are replaced by parameters:

- **Client gateway.** Each client handler returns the gateway call it
  would issue. It takes the gateway's answer as an argument: a task or
  none, or a success flag.
- **Server ids.** The server's `generateID` is the `newId` parameter of
  `CreateTask`.
- **Request bodies.** A decoded body is an `Option`, where None means the
  JSON did not decode.

## Model

| member | source | states |
|---|---|---|
| Sequences.Map | frontend/src/reducers/taskReducer.ts:26-30 | `Array.prototype.map`: the result has the input's length and holds the function's value of the element at every index |
| Sequences.Filter | frontend-todo-challenge-main/src/helpers/helpers.ts:101 | `Array.prototype.filter`: keeps exactly the elements satisfying the predicate, each as often as in the input, as a subsequence of the input |
| Sequences.FilterKeepsAll | frontend/src/reducers/taskReducer.ts:36 | filtering a list all of whose elements pass returns the list unchanged |
| Sequences.FilterIdempotent | frontend-todo-challenge-main/src/helpers/helpers.ts:101 | filtering twice by the same predicate is filtering once |
| Sequences.Find | frontend/src/screen/App.tsx:47 | `Array.prototype.find`: no result iff no element matches; otherwise the result is the matching element with no match before it |
| Helpers.StatusName | frontend-todo-challenge-main/src/helpers/helpers.ts:11 | the wire string of each column: "todo", "in_progress", "done"; `Wire.ColumnNamesRoundTrip` states they are exactly the statuses the server accepts |
| Helpers.GetTasksByStatus | frontend-todo-challenge-main/src/helpers/helpers.ts:100-102 | the result is a subsequence of the list, every task in it has the status, and it holds every task with that status as often as the list does |
| Helpers.GetTasksByStatusIdempotent | frontend-todo-challenge-main/src/helpers/helpers.ts:101 | filtering a column's tasks again by the same status returns them unchanged |
| Helpers.GetPendingTasks | frontend-todo-challenge-main/src/helpers/helpers.ts:105-107 | the todo column; what it holds is stated by `GetTasksByStatus` and `ViewsPartition` |
| Helpers.GetInProgressTasks | frontend-todo-challenge-main/src/helpers/helpers.ts:110-112 | the in-progress column; what it holds is stated by `GetTasksByStatus` and `ViewsPartition` |
| Helpers.GetCompletedTasks | frontend-todo-challenge-main/src/helpers/helpers.ts:115-117 | the done column; what it holds is stated by `GetTasksByStatus` and `ViewsPartition` |
| Helpers.ViewsPartition | frontend-todo-challenge-main/src/helpers/helpers.ts:105-117 | the pending, in-progress and completed views together hold every task exactly once (multiset union), so their lengths sum to the list's |
| Helpers.ToggleTaskStatus | frontend-todo-challenge-main/src/helpers/helpers.ts:120-124 | length kept; at every index id, title, description and status are kept and `completed` flips exactly when the id matches |
| Helpers.ToggleTaskStatusInvolution | frontend-todo-challenge-main/src/helpers/helpers.ts:120-124 | toggling the same id twice restores the list |
| TaskReducer.InitialTaskState | frontend/src/reducers/taskReducer.ts:73-75 | `initialTaskState`: no tasks, so every column starts empty |
| TaskReducer.Reduce | frontend/src/reducers/taskReducer.ts:15-70 | ADD_TASK grows the list by one, TOGGLE, UPDATE and MOVE keep its length, DELETE never grows it, SET_TASKS installs the payload; each action's exact effect is stated by the lemmas below |
| TaskReducer.AddTaskAppends | frontend/src/reducers/taskReducer.ts:17-21 | ADD_TASK grows the list by one, the old list is a prefix and the payload is last; no id check is made |
| TaskReducer.ToggleTaskFlipsMatching | frontend/src/reducers/taskReducer.ts:23-31 | TOGGLE_TASK keeps length; matching tasks differ only in `completed`, flipped, and every other task is untouched |
| TaskReducer.ToggleTaskInvolution | frontend/src/reducers/taskReducer.ts:23-31 | TOGGLE_TASK twice with the same id restores the state |
| TaskReducer.ToggleTaskMatchesHelper | frontend/src/reducers/taskReducer.ts:26-30 | the reducer's toggle and the helper `toggleTaskStatus` give the same list on every input |
| TaskReducer.DeleteTaskRemovesAll | frontend/src/reducers/taskReducer.ts:33-37 | after DELETE_TASK no task has the id, the rest keep their order as a subsequence and every other task keeps its multiplicity |
| TaskReducer.DeleteTaskIdempotent | frontend/src/reducers/taskReducer.ts:33-37 | a second DELETE_TASK with the same id is a no-op |
| TaskReducer.DeleteTaskAbsentIsNoop | frontend/src/reducers/taskReducer.ts:36 | DELETE_TASK of an id no task has leaves the state unchanged |
| TaskReducer.UpdateTaskReplacesMatching | frontend/src/reducers/taskReducer.ts:39-45 | UPDATE_TASK keeps length and replaces every task with the payload's id by the payload wholesale, and no other |
| TaskReducer.UpdateTaskAbsentIsNoop | frontend/src/reducers/taskReducer.ts:42-44 | UPDATE_TASK whose id matches nothing leaves the state unchanged |
| TaskReducer.MoveTaskSetsStatus | frontend/src/reducers/taskReducer.ts:47-59 | MOVE_TASK keeps length; on matching tasks status becomes the new status and `completed` whether it is done, whatever they were, other fields kept; other tasks untouched |
| TaskReducer.MoveTaskMakesMatchingConsistent | frontend/src/reducers/taskReducer.ts:50-58 | after MOVE_TASK every matching task has `completed` exactly when its status is done |
| TaskReducer.MoveTaskIdempotent | frontend/src/reducers/taskReducer.ts:47-59 | moving the same id to the same status twice is moving it once |
| TaskReducer.SetTasksReplaces | frontend/src/reducers/taskReducer.ts:61-65 | SET_TASKS makes the list exactly the payload, and so every column is the payload's |
| TaskReducer.Examples | frontend/src/reducers/taskReducer.ts:15-75 | moving a todo task to done marks it completed; adding to the initial empty state gives a one-task list |
| JsStrings.LeadingCount | frontend-todo-challenge-main/src/components/AddTodoTaskModal.tsx:23 | the length of the longest prefix of white space and line terminators |
| JsStrings.TrailingCount | frontend-todo-challenge-main/src/components/AddTodoTaskModal.tsx:23 | the length of the longest suffix of white space and line terminators |
| JsStrings.Trim | frontend-todo-challenge-main/src/components/AddTodoTaskModal.tsx:23-26 | `String.prototype.trim`; its meaning is stated by `TrimStripsExactlyTheEnds`, `TrimEmptyIff`, `TrimmedEnds` and `TrimIdempotent` |
| JsStrings.TrimStripsExactlyTheEnds | frontend-todo-challenge-main/src/components/AddTodoTaskModal.tsx:25-26 | `trim()` returns a contiguous slice of its input, with everything outside the slice white space |
| JsStrings.TrimEmptyIff | frontend-todo-challenge-main/src/components/AddTodoTaskModal.tsx:23 | `trim()` is empty iff every character of the input is white space or a line terminator |
| JsStrings.TrimmedEnds | frontend-todo-challenge-main/src/components/AddTodoTaskModal.tsx:25-26 | a non-empty trimmed string neither starts nor ends with white space |
| JsStrings.TrimIdempotent | frontend-todo-challenge-main/src/components/AddTodoTaskModal.tsx:25-26 | trimming a trimmed string changes nothing |
| TaskModal.InitialTitle | frontend-todo-challenge-main/src/components/AddTodoTaskModal.tsx:15 | the edited task's title, or "" when none is edited; used by the form's constructor and by `ResubmitIsStable` |
| TaskModal.InitialDescription | frontend-todo-challenge-main/src/components/AddTodoTaskModal.tsx:16-18 | the edited task's description, or "" when none is edited or it has none; used by the form's constructor and by `ResubmitIsStable` |
| TaskModal.SubmitPayload | frontend-todo-challenge-main/src/components/AddTodoTaskModal.tsx:23-29 | no payload iff the title is all white space; otherwise the trimmed title, the trimmed description or none when it trims to nothing, and `completed`/status of the edited task, defaulting to false and todo |
| TaskModal.ResubmitIsStable | frontend-todo-challenge-main/src/components/AddTodoTaskModal.tsx:15-29 | reopening the form on the task a payload built and submitting it untouched yields the same payload |
| TaskModal.AddTodoTaskModal.constructor | frontend-todo-challenge-main/src/components/AddTodoTaskModal.tsx:15-18 | the fields start from the edited task's title and description, or empty |
| TaskModal.AddTodoTaskModal.SetTitle | frontend-todo-challenge-main/src/components/AddTodoTaskModal.tsx:66 | the title input sets the title only |
| TaskModal.AddTodoTaskModal.SetDescription | frontend-todo-challenge-main/src/components/AddTodoTaskModal.tsx:79 | the description input sets the description only |
| TaskModal.AddTodoTaskModal.HandleSubmit | frontend-todo-challenge-main/src/components/AddTodoTaskModal.tsx:20-35 | the payload handed to `onAddTask` is `SubmitPayload` of the fields; the fields reset to "" exactly when a payload is sent |
| App.IsEditing | frontend/src/screen/App.tsx:133 | JavaScript truthiness of `editingTaskId`: set and not the empty string; `SubmitTask` and `EditingTask` branch on it |
| App.FindTask | frontend/src/screen/App.tsx:47 | no task iff no stored task has the id; otherwise the stored task with the id that has no task with the id before it |
| App.ToggleTarget | frontend/src/screen/App.tsx:50 | the toggle never asks for in_progress, and asks for done exactly when the task is not done |
| App.EditedTask | frontend/src/screen/App.tsx:143-147 | the spread merge `{...updated, ...task, id}` written out: the server's task, overridden by every key of the form's object, then by the edited id; `EditedTaskIsForm` states what survives |
| App.EditedTaskIsForm | frontend/src/screen/App.tsx:141-148 | no field of the server's answer survives the merge: the edited task is the form's fields under the edited id, whatever the server returned |
| App.ToggleKeepsCompletedConsistent | frontend/src/screen/App.tsx:50-54 | after a successful toggle every task with the id is todo or done, with `completed` exactly when done |
| App.Board.constructor | frontend/src/screen/App.tsx:21-23 | the store starts empty, the modal closed and no task edited |
| App.Board.LoadTasks | frontend/src/screen/App.tsx:27-31 | the initial load fetches all tasks and SET_TASKS makes the store the fetched list |
| App.Board.HandleToggleTask | frontend/src/screen/App.tsx:46-56 | an unknown id makes no call and no change; otherwise the first matching task's target status is sent and MOVE_TASK is applied only on a returned task |
| App.Board.HandleDeleteTask | frontend/src/screen/App.tsx:58-63 | the delete call is issued and DELETE_TASK applied only on success |
| App.Board.HandleMoveTask | frontend/src/screen/App.tsx:65-70 | the status update is issued and MOVE_TASK applied only on a returned task |
| App.Board.DropOnColumn | frontend-todo-challenge-main/src/components/TodoColumn.tsx:26-29 | a card dropped on its own column does nothing; otherwise it is moved as `handleMoveTask` says |
| App.Board.HandleEditTask | frontend/src/screen/App.tsx:72-75 | remembers the id and opens the form, store untouched |
| App.Board.OpenAddModal | frontend/src/screen/App.tsx:97 | opens the form, nothing else changes |
| App.Board.CloseModal | frontend/src/screen/App.tsx:128-131 | closes the form and clears the edited id, store untouched |
| App.Board.EditingTask | frontend/src/screen/App.tsx:77-81 | none when no (truthy) id is edited; otherwise the first stored task with that id, none only when no stored task has it |
| App.Board.SubmitTask | frontend/src/screen/App.tsx:132-160 | editing: sends title and description for the id and on success puts the form's task under that id; otherwise creates and on success appends the server's task; either way closes the form and clears the id |
| Models.Task.constructor | backend/models/task.go:11-17 | a task holds exactly the given field values |
| Repository.DistinctCard | backend/repository/task_repository.go:45-49 | a sequence without repeats is as long as its set, so the listing is as long as the map |
| Repository.InMemoryTaskRepository.constructor | backend/repository/task_repository.go:26-31 | a new repository is empty |
| Repository.InMemoryTaskRepository.Create | backend/repository/task_repository.go:34-39 | never fails and stores the pointer under its id, replacing any task already there |
| Repository.InMemoryTaskRepository.GetAll | backend/repository/task_repository.go:42-50 | exactly the stored pointers, one per key with every key visited once, in an unspecified order, so as many as the map holds |
| Repository.InMemoryTaskRepository.GetByID | backend/repository/task_repository.go:53-61 | the stored pointer itself when the id is a key, not-found otherwise |
| Repository.InMemoryTaskRepository.Update | backend/repository/task_repository.go:64-72 | replaces only the task's own key when present; not-found and no change otherwise |
| Repository.InMemoryTaskRepository.Delete | backend/repository/task_repository.go:75-83 | removes a present key only; not-found and no change otherwise |
| Repository.CreateThenGetByID | backend/repository/task_repository_test.go:14-34 | after storing a task, looking up its id returns the same pointer |
| Repository.DeleteThenGetByID | backend/repository/task_repository_test.go:68-86 | delete succeeds iff the id was stored, and afterwards the id is not found |
| Service.IsValidStatus | backend/service/task_service.go:104-111 | true exactly for "todo", "in_progress" and "done"; `Wire.ColumnOf` states that these are exactly the client's columns |
| Service.UpdateValidation | backend/service/task_service.go:73-85 | an empty given title is rejected first; otherwise a given status outside the three is rejected; nothing else is |
| Service.UpdateFailure | backend/service/task_service.go:67-93 | an unknown id is not-found; for a task stored under its id the error is exactly the validation error |
| Service.Patched | backend/service/task_service.go:73-89 | the stored task's fields after `UpdateTask`, accepted or rejected; stated by `AcceptedUpdateFields`, `RejectedTitleWritesNothing`, `RejectedStatusStillWritesFields` and `PatchedPreservesWellFormed`, and written by `ApplyRequest` |
| Service.AcceptedUpdateFields | backend/service/task_service.go:73-89 | an accepted update copies given fields, keeps absent ones, keeps the id and sets `completed` exactly when the new status is done |
| Service.RejectedTitleWritesNothing | backend/service/task_service.go:73-76 | an update rejected for its title changes no field |
| Service.RejectedStatusStillWritesFields | backend/service/task_service.go:77-85 | an update rejected for its status has still written its title and description; status and `completed` are kept |
| Service.PatchedPreservesWellFormed | backend/service/task_service.go:82-89 | accepted or rejected, an update keeps a task titled, with a valid status and `completed` exactly when done |
| Service.TaskService.constructor | backend/service/task_service.go:26-30 | the service wraps the given repository |
| Service.TaskService.CreateTask | backend/service/task_service.go:33-54 | an empty title is rejected with the map untouched; otherwise a fresh todo, not completed, task with the request's title and description is stored under the new id and returned |
| Service.TaskService.GetAllTasks | backend/service/task_service.go:57-59 | never fails; exactly the stored tasks, each key once |
| Service.TaskService.GetTaskByID | backend/service/task_service.go:62-64 | the stored pointer, or not-found |
| Service.TaskService.UpdateTask | backend/service/task_service.go:67-96 | not-found for an unknown id; otherwise the stored task's fields become `Patched`, even when the call then fails, and the result is the error `UpdateFailure` gives or the stored task; the well-formedness of the stored tasks is kept |
| Service.TaskService.ApplyRequest | backend/service/task_service.go:73-89 | returns the validation error and writes exactly the fields `Patched` says into the shared task |
| Service.TaskService.DeleteTask | backend/service/task_service.go:99-101 | removes a present id, not-found otherwise |
| Handlers.TrimPrefix | go-example-main/handlers/task_handler.go:41 | `strings.TrimPrefix`: a string with the prefix is prefix plus result, any other string is returned unchanged |
| Handlers.ExtractId | go-example-main/handlers/task_handler.go:41-47 | "/tasks" gives no id; a path under "/tasks/" gives everything after that prefix |
| Handlers.ExtractIdOfTaskPaths | go-example-main/handlers/task_handler.go:41-47 | "/tasks" and "/tasks/" give no id and "/tasks/x" gives x |
| Handlers.HandlerSliceIsExtractedId | go-example-main/handlers/task_handler.go:115 | on the routed paths `path[len("/tasks/"):]` is in range and equals the id whenever the id is not empty |
| Handlers.Dispatch | go-example-main/handlers/task_handler.go:49-76 | POST without id creates, GET lists without id and fetches with one, PUT and DELETE need an id; everything else is 405 |
| Handlers.CreateStatus | go-example-main/handlers/task_handler.go:80-98 | 201 on success; 400 for an undecodable body or an invalid title; 500 for any other error |
| Handlers.GetAllStatus | go-example-main/handlers/task_handler.go:102-111 | 200 on success, 500 on error |
| Handlers.GetByIDStatus | go-example-main/handlers/task_handler.go:114-133 | 400 without id, 404 for not-found, 500 for other errors, 200 otherwise |
| Handlers.UpdateStatus | go-example-main/handlers/task_handler.go:136-163 | 400 without id, for an undecodable body or an invalid status; 404 for not-found; 500 for every other error, an invalid title included; 200 otherwise |
| Handlers.DeleteStatus | go-example-main/handlers/task_handler.go:166-184 | 400 without id, 404 for not-found, 500 for other errors, 204 otherwise |
| Handlers.CreateFailure | backend/service/task_service.go:34-36 | the create error is none exactly for a non-empty title, and the invalid-title error otherwise |
| Handlers.LookupFailure | backend/repository/task_repository.go:56-59 | the lookup or delete error is none exactly when the id is stored, and not-found otherwise |
| Handlers.ExpectedStatus | go-example-main/handlers/task_handler.go:49-184 | the status of a routed request: the route `Dispatch` picks, answered by that handler's status table with the service's error for the stored tasks; `ServeHTTP` is proved to answer it and `ExpectedStatusTable` reads off its cases |
| Handlers.ExpectedStatusTable | go-example-main/handlers/task_handler.go:49-76 | PUT on "/tasks", DELETE on "/tasks/", POST on a task and unknown methods are 405; GET of a task is 200 or 404 and DELETE of one 204 or 404, by whether it is stored; a create with an empty title is 400 and an update of a stored task with one 500 |
| Handlers.TaskHandler.constructor | go-example-main/handlers/task_handler.go:28-32 | the handler wraps the given service |
| Handlers.TaskHandler.HandleCreate | go-example-main/handlers/task_handler.go:80-99 | the status is `CreateStatus`; only a 201 stores a task, the new one under the new id |
| Handlers.TaskHandler.HandleGetAll | go-example-main/handlers/task_handler.go:102-111 | always 200 over the in-memory repository |
| Handlers.TaskHandler.HandleGetByID | go-example-main/handlers/task_handler.go:114-133 | the status is `GetByIDStatus` for the id cut from the path |
| Handlers.TaskHandler.HandleUpdate | go-example-main/handlers/task_handler.go:136-163 | the status is `UpdateStatus` for the id, the body and the service's error; only the task under the id can change, and it receives the request's `Patched` writes whenever the id and body are present, even on a 400 for an invalid status; the stored id set never changes; the map changes only on 200, where the entry under the task's id is replaced by it |
| Handlers.TaskHandler.HandleDelete | go-example-main/handlers/task_handler.go:166-184 | the status is `DeleteStatus`, and only a 204 removes the id |
| Handlers.TaskHandler.ServeHTTP | go-example-main/handlers/task_handler.go:35-77 | on a path the mux routes here the status is the decision table's for the stored tasks; only the task under the path's id can change, and only on PUT; GET and 405 leave the map as it was; POST adds the fresh todo task under the new id only on 201; DELETE removes the id only on 204; PUT writes `Patched` into the task, even on an error answer, and replaces its entry only on 200 |
| Wire.ColumnOf | frontend-todo-challenge-main/src/helpers/helpers.ts:7-11 | a server status is a client column iff the service accepts it, and then its name is that status |
| Wire.ColumnNamesRoundTrip | backend/models/task.go:5-9 | every client column is a status the service accepts, and reads back as the same column |
| Wire.WellFormedIsClientConsistent | backend/service/task_service.go:86-88 | a task the service keeps well formed is a client task in a column, completed exactly when done |

The Go tests `backend/repository/task_repository_test.go` and
`go-example-main/service/task_service_test.go` state the same behaviour
that `CreateThenGetByID`, `DeleteThenGetByID`, `GetAll`, `CreateTask` and
`UpdateTask` state. Examples are the create-then-get round trip, not-found
on an absent id, and the rejection of an empty title or an invalid status.

## Left out

- The fetch wrappers of the client (`helpers.ts`, lines 17-97) are network
  calls. Each controller method returns the call it issues and takes the
  answer as a parameter.
- The React side is not modelled: rendering, the `loading` flag, the
  console logging, and the react-dnd wiring. The one exception is the drop
  guard, which `App.Board.DropOnColumn` states.
- JSON encoding and decoding and the `ResponseWriter` writes are not
  modelled, and neither are the error messages in the bodies. Only the
  status codes are.
- `go-example-main/main.go` is not part of this model. That covers the
  server start-up, the CORS headers and the OPTIONS answer.
  `Handlers.TaskHandler.ServeHTTP` assumes what the mux guarantees: the path
  is "/tasks" or starts with "/tasks/".
- `generateID` reads the clock and an atomic counter. It is the `newId`
  parameter, with no freshness assumption, since `Create` overwrites
  anyway.
- `sync.RWMutex`: the repository is modelled sequentially.
- `backend/repository/mock_repository.go` is a test double and is not part
  of this model.
- Service.TaskService.CreateTask: the in-memory repository never fails
  `Create`, so the branch that propagates a repository error is modelled
  but can never be taken. The propagation of errors from other
  repositories is not covered. The repository-error branch of
  `UpdateTask` (the task's own id is not a key) is taken only when a task
  is stored under a key other than its id. That cannot happen while
  `Service.TaskService.Valid` holds.
- `handleGetAll` answers 500 when the listing fails, and `GetAllStatus`
  states that. The 500 is unreachable over the in-memory repository, which
  never fails `GetAll`.
- JsStrings.Trim: strings are sequences of code points, not UTF-16 code
  units. The trimmed set is the ECMAScript white space and line terminator
  set.
- The "Task ID is required" answers of the sub-handlers cannot happen on a
  routed request. The sub-handlers are modelled with them, but
  `ServeHTTP` never reaches them.
- Each `App.Board` handler is one atomic step. In the source, a handler
  reads the state, awaits the gateway and then dispatches to whatever the
  state is when the answer arrives. Other gestures can interleave there.
  The contracts `state == Reduce(old(state), ...)` assume that nothing
  does.
- Raw Go strings versus valid UTF-8 is not modelled: strings are sequences
  of characters.
