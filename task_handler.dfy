/**
 * The HTTP layer's decisions: the id taken from the request path, the
 * route chosen by method and id, and the status code each handler answers
 * with (RFC 9110 section 15). JSON decoding and response writing are not
 * modelled: a body is given already decoded, None when decoding failed.
 */
module Handlers {
  import opened Wrappers
  import opened Models
  import opened Errors
  import opened Service

  const StatusOK: int := 200
  const StatusCreated: int := 201
  const StatusNoContent: int := 204
  const StatusBadRequest: int := 400
  const StatusNotFound: int := 404
  const StatusMethodNotAllowed: int := 405
  const StatusInternalServerError: int := 500

  const MethodGet: string := "GET"
  const MethodPost: string := "POST"
  const MethodPut: string := "PUT"
  const MethodDelete: string := "DELETE"

  /** `pathTasks`: the prefix the sub-handlers cut off the path. */
  const PathTasks: string := "/tasks/"

  /** `strings.TrimPrefix`. */
  function TrimPrefix(s: string, prefix: string): (r: string)
    ensures prefix <= s ==> s == prefix + r
    ensures !(prefix <= s) ==> r == s
  {
    if prefix <= s then s[|prefix|..] else s
  }

  /**
   * The id `ServeHTTP` takes from the path: empty for "/tasks", and
   * everything after "/tasks/" on a path under it.
   */
  function ExtractId(path: string): (id: string)
    ensures path == "/tasks" ==> id == ""
    ensures PathTasks <= path ==> id == path[|PathTasks|..]
  {
    var p := TrimPrefix(path, "/tasks");
    if p == "" || p == "/" then "" else TrimPrefix(p, "/")
  }

  /** The two collection paths give no id, and "/tasks/x" gives exactly x. */
  lemma ExtractIdOfTaskPaths(x: string)
    ensures ExtractId("/tasks") == "" && ExtractId("/tasks/") == ""
    ensures ExtractId(PathTasks + x) == x
  {
    assert "/tasks" <= "/tasks";
    assert "/tasks" <= "/tasks/";
    var path := PathTasks + x;
    assert path == "/tasks" + ("/" + x);
    assert "/tasks" <= path;
    assert TrimPrefix(path, "/tasks") == "/" + x;
    assert "/" <= "/" + x;
  }

  /** The paths the server's mux sends to this handler: "/tasks" and everything under "/tasks/". */
  predicate Routed(path: string) {
    path == "/tasks" || PathTasks <= path
  }

  /**
   * On every routed path with a non-empty id, the sub-handlers' own slice
   * `path[len(pathTasks):]` is in range and equals `ServeHTTP`'s id.
   */
  lemma HandlerSliceIsExtractedId(path: string)
    requires Routed(path) && ExtractId(path) != ""
    ensures |PathTasks| < |path| && path[|PathTasks|..] == ExtractId(path)
  {
    if PathTasks <= path {
      ExtractIdOfTaskPaths(path[|PathTasks|..]);
      assert path == PathTasks + path[|PathTasks|..];
    }
  }

  /** Where `ServeHTTP` sends a request. */
  datatype Route = ToCreate | ToGetAll | ToGetByID | ToUpdate | ToDelete | NotAllowed

  /** The method switch of `ServeHTTP`. */
  function Dispatch(verb: string, id: string): (r: Route)
    ensures r == ToCreate <==> verb == MethodPost && id == ""
    ensures r == ToGetAll <==> verb == MethodGet && id == ""
    ensures r == ToGetByID <==> verb == MethodGet && id != ""
    ensures r == ToUpdate <==> verb == MethodPut && id != ""
    ensures r == ToDelete <==> verb == MethodDelete && id != ""
  {
    if verb == MethodPost then (if id == "" then ToCreate else NotAllowed)
    else if verb == MethodGet then (if id == "" then ToGetAll else ToGetByID)
    else if verb == MethodPut then (if id != "" then ToUpdate else NotAllowed)
    else if verb == MethodDelete then (if id != "" then ToDelete else NotAllowed)
    else NotAllowed
  }

  /** `handleCreate`: an undecodable body or an invalid title is 400, any other error 500. */
  function CreateStatus(decoded: bool, err: Option<Error>): (code: int)
    ensures code == StatusCreated <==> decoded && err.None?
    ensures code == StatusBadRequest <==> !decoded || err == Some(InvalidTitle)
    ensures code == StatusInternalServerError <==> decoded && err.Some? && err.value != InvalidTitle
  {
    if !decoded then StatusBadRequest
    else if err.Some? then (if err.value == InvalidTitle then StatusBadRequest else StatusInternalServerError)
    else StatusCreated
  }

  /** `handleGetAll`. */
  function GetAllStatus(err: Option<Error>): (code: int)
    ensures code == StatusOK <==> err.None?
    ensures code == StatusInternalServerError <==> err.Some?
  {
    if err.Some? then StatusInternalServerError else StatusOK
  }

  /** `handleGetByID`: a missing id is 400, not-found 404, any other error 500. */
  function GetByIDStatus(id: string, err: Option<Error>): (code: int)
    ensures code == StatusBadRequest <==> id == ""
    ensures code == StatusNotFound <==> id != "" && err == Some(TaskNotFound)
    ensures code == StatusInternalServerError <==> id != "" && err.Some? && err.value != TaskNotFound
    ensures code == StatusOK <==> id != "" && err.None?
  {
    if id == "" then StatusBadRequest
    else if err.Some? then (if err.value == TaskNotFound then StatusNotFound else StatusInternalServerError)
    else StatusOK
  }

  /**
   * `handleUpdate`: a missing id, an undecodable body or an invalid status
   * is 400, not-found 404, and every other error, an invalid title
   * included, 500.
   */
  function UpdateStatus(id: string, decoded: bool, err: Option<Error>): (code: int)
    ensures code == StatusBadRequest <==> id == "" || !decoded || err == Some(InvalidStatus)
    ensures code == StatusNotFound <==> id != "" && decoded && err == Some(TaskNotFound)
    ensures code == StatusInternalServerError <==>
              id != "" && decoded && err.Some? && err.value != TaskNotFound && err.value != InvalidStatus
    ensures code == StatusOK <==> id != "" && decoded && err.None?
  {
    if id == "" || !decoded then StatusBadRequest
    else if err.Some? then
      (if err.value == TaskNotFound then StatusNotFound
       else if err.value == InvalidStatus then StatusBadRequest
       else StatusInternalServerError)
    else StatusOK
  }

  /** `handleDelete`: a missing id is 400, not-found 404, any other error 500. */
  function DeleteStatus(id: string, err: Option<Error>): (code: int)
    ensures code == StatusBadRequest <==> id == ""
    ensures code == StatusNotFound <==> id != "" && err == Some(TaskNotFound)
    ensures code == StatusInternalServerError <==> id != "" && err.Some? && err.value != TaskNotFound
    ensures code == StatusNoContent <==> id != "" && err.None?
  {
    if id == "" then StatusBadRequest
    else if err.Some? then (if err.value == TaskNotFound then StatusNotFound else StatusInternalServerError)
    else StatusNoContent
  }

  /** The error `CreateTask` returns for a decoded body. */
  function CreateFailure(req: CreateTaskRequest): (e: Option<Error>)
    ensures e.None? <==> req.title != ""
    ensures e.Some? ==> e.value == InvalidTitle
  {
    if req.title == "" then Some(InvalidTitle) else None
  }

  /** The error a lookup or a delete of `id` returns. */
  function LookupFailure(store: map<string, TaskValue>, id: string): (e: Option<Error>)
    ensures e.None? <==> id in store
    ensures e.Some? ==> e.value == TaskNotFound
  {
    if id in store then None else Some(TaskNotFound)
  }

  /** The status code the server answers a routed request with, given the stored tasks. */
  function ExpectedStatus(verb: string, path: string, createBody: Option<CreateTaskRequest>,
                          updateBody: Option<UpdateTaskRequest>, store: map<string, TaskValue>): int
  {
    var id := ExtractId(path);
    match Dispatch(verb, id)
    case ToCreate => CreateStatus(createBody.Some?, if createBody.Some? then CreateFailure(createBody.value) else None)
    case ToGetAll => GetAllStatus(None)
    case ToGetByID => GetByIDStatus(id, LookupFailure(store, id))
    case ToUpdate => UpdateStatus(id, updateBody.Some?,
                                  if updateBody.Some? then UpdateFailure(store, id, updateBody.value) else None)
    case ToDelete => DeleteStatus(id, LookupFailure(store, id))
    case NotAllowed => StatusMethodNotAllowed
  }

  /**
   * The answers of the decision table: PUT and DELETE on the collection,
   * POST on a task and any other method are 405; a GET or DELETE of a
   * task answers by whether it is stored, never with the "Task ID is
   * required" 400; an update with an empty title is 500 while a create with
   * one is 400.
   */
  lemma ExpectedStatusTable(verb: string, x: string, store: map<string, TaskValue>,
                            c: Option<CreateTaskRequest>, u: Option<UpdateTaskRequest>)
    requires x != ""
    ensures ExpectedStatus(MethodPut, "/tasks", c, u, store) == StatusMethodNotAllowed
    ensures ExpectedStatus(MethodDelete, "/tasks/", c, u, store) == StatusMethodNotAllowed
    ensures ExpectedStatus(MethodPost, PathTasks + x, c, u, store) == StatusMethodNotAllowed
    ensures verb !in {MethodGet, MethodPost, MethodPut, MethodDelete} ==>
              ExpectedStatus(verb, PathTasks + x, c, u, store) == StatusMethodNotAllowed
    ensures ExpectedStatus(MethodGet, PathTasks + x, c, u, store) ==
              if x in store then StatusOK else StatusNotFound
    ensures ExpectedStatus(MethodDelete, PathTasks + x, c, u, store) ==
              if x in store then StatusNoContent else StatusNotFound
    ensures ExpectedStatus(MethodPost, "/tasks", Some(CreateTaskRequest("", "")), u, store) == StatusBadRequest
    ensures x in store && store[x].id == x ==>
              ExpectedStatus(MethodPut, PathTasks + x, c, Some(UpdateTaskRequest(Some(""), None, None)), store)
              == StatusInternalServerError
  {
    ExtractIdOfTaskPaths(x);
  }

  /** `TaskHandler`. */
  class TaskHandler {
    const service: TaskService

    /** `NewTaskHandler`. */
    constructor (service: TaskService)
      ensures this.service == service
    {
      this.service := service;
    }

    /** `handleCreate`; `body` is the decoded request, `newId` the generated id. */
    method HandleCreate(body: Option<CreateTaskRequest>, newId: string) returns (status: int)
      modifies service.repo
      ensures status == CreateStatus(body.Some?, if body.Some? then CreateFailure(body.value) else None)
      ensures status != StatusCreated ==> service.repo.tasks == old(service.repo.tasks)
      ensures status == StatusCreated ==>
                && newId in service.repo.tasks && fresh(service.repo.tasks[newId])
                && service.repo.tasks[newId].Value() ==
                   TaskValue(newId, body.value.title, body.value.description, StatusTodo, false)
                && service.repo.tasks == old(service.repo.tasks)[newId := service.repo.tasks[newId]]
      ensures old(service.Valid()) ==> service.Valid()
    {
      if body.None? {
        return StatusBadRequest;
      }
      var r := service.CreateTask(body.value, newId);
      if r.Failure? {
        if r.error == InvalidTitle {
          status := StatusBadRequest;
        } else {
          status := StatusInternalServerError;
        }
        return;
      }
      status := StatusCreated;
    }

    /** `handleGetAll`. */
    method HandleGetAll() returns (status: int)
      ensures status == StatusOK
    {
      var r, order := service.GetAllTasks();
      if r.Failure? {
        return StatusInternalServerError;
      }
      status := StatusOK;
    }

    /** `handleGetByID`; a path shorter than `pathTasks` would make Go's slice panic. */
    method HandleGetByID(path: string) returns (status: int)
      requires |PathTasks| <= |path|
      ensures var id := path[|PathTasks|..];
              status == GetByIDStatus(id, LookupFailure(service.repo.Snapshot(), id))
    {
      var id := path[|PathTasks|..];
      if id == "" {
        return StatusBadRequest;
      }
      var r := service.GetTaskByID(id);
      if r.Failure? {
        if r.error == TaskNotFound {
          status := StatusNotFound;
        } else {
          status := StatusInternalServerError;
        }
        return;
      }
      status := StatusOK;
    }

    /**
     * `handleUpdate`; `body` is the decoded request. Only the task stored
     * under the path's id can change: it receives the request's writes as
     * `Patched` says, kept even when the answer is an error. The stored id
     * set never changes.
     */
    method HandleUpdate(path: string, body: Option<UpdateTaskRequest>) returns (status: int)
      requires |PathTasks| <= |path|
      modifies service.repo,
               if path[|PathTasks|..] in service.repo.tasks then {service.repo.tasks[path[|PathTasks|..]]} else {}
      ensures var id := path[|PathTasks|..];
              status == UpdateStatus(id, body.Some?,
                                     if body.Some? then UpdateFailure(old(service.repo.Snapshot()), id, body.value)
                                     else None)
      ensures var id := path[|PathTasks|..];
              id in old(service.repo.tasks) ==>
                old(service.repo.tasks)[id].Value() ==
                  if id != "" && body.Some? then Patched(old(service.repo.tasks[id].Value()), body.value)
                  else old(service.repo.tasks[id].Value())
      ensures service.repo.tasks.Keys == old(service.repo.tasks.Keys)
      ensures status != StatusOK ==> service.repo.tasks == old(service.repo.tasks)
      ensures var id := path[|PathTasks|..];
              status == StatusOK ==>
                && id in old(service.repo.tasks)
                && service.repo.tasks == old(service.repo.tasks)[old(service.repo.tasks[id].id) := old(service.repo.tasks)[id]]
      ensures old(service.Valid()) ==> service.Valid()
    {
      var id := path[|PathTasks|..];
      if id == "" || body.None? {
        status := StatusBadRequest;
      } else {
        var r := service.UpdateTask(id, body.value);
        status := match r
          case Success(_) => StatusOK
          case Failure(TaskNotFound) => StatusNotFound
          case Failure(InvalidStatus) => StatusBadRequest
          case Failure(_) => StatusInternalServerError;
      }
    }

    /** `handleDelete`. */
    method HandleDelete(path: string) returns (status: int)
      requires |PathTasks| <= |path|
      modifies service.repo
      ensures var id := path[|PathTasks|..];
              && status == DeleteStatus(id, LookupFailure(old(service.repo.Snapshot()), id))
              && service.repo.tasks == if status == StatusNoContent then old(service.repo.tasks) - {id}
                                       else old(service.repo.tasks)
      ensures old(service.Valid()) ==> service.Valid()
    {
      var id := path[|PathTasks|..];
      if id == "" {
        return StatusBadRequest;
      }
      var err := service.DeleteTask(id);
      if err.Some? {
        if err.value == TaskNotFound {
          status := StatusNotFound;
        } else {
          status := StatusInternalServerError;
        }
        return;
      }
      status := StatusNoContent;
    }

    /**
     * `ServeHTTP` on a path the mux routes here. The status code is the one
     * the decision table gives for the stored tasks. Only the task stored
     * under the path's id can change, and only a PUT changes it. A list, a
     * fetch or a 405 leaves the store as it was; a create adds the new task
     * only on 201; a delete removes the id only on 204; an update writes the
     * request into the task as `Patched` says, even when it answers an
     * error, and replaces the entry under the task's id only on 200.
     */
    method ServeHTTP(verb: string, path: string, createBody: Option<CreateTaskRequest>,
                     updateBody: Option<UpdateTaskRequest>, newId: string) returns (status: int)
      requires Routed(path)
      modifies service.repo, if ExtractId(path) in service.repo.tasks then {service.repo.tasks[ExtractId(path)]} else {}
      ensures status == ExpectedStatus(verb, path, createBody, updateBody, old(service.repo.Snapshot()))
      ensures var route := Dispatch(verb, ExtractId(path));
              (route.ToGetAll? || route.ToGetByID? || route.NotAllowed?) ==>
                service.repo.tasks == old(service.repo.tasks)
      ensures var id := ExtractId(path);
              !Dispatch(verb, id).ToUpdate? && id in old(service.repo.tasks) ==>
                old(service.repo.tasks)[id].Value() == old(service.repo.tasks[id].Value())
      ensures Dispatch(verb, ExtractId(path)).ToCreate? ==>
                if status == StatusCreated then
                  && createBody.Some?
                  && newId in service.repo.tasks && fresh(service.repo.tasks[newId])
                  && service.repo.tasks[newId].Value() ==
                     TaskValue(newId, createBody.value.title, createBody.value.description, StatusTodo, false)
                  && service.repo.tasks == old(service.repo.tasks)[newId := service.repo.tasks[newId]]
                else service.repo.tasks == old(service.repo.tasks)
      ensures var id := ExtractId(path);
              Dispatch(verb, id).ToDelete? ==>
                service.repo.tasks == if status == StatusNoContent then old(service.repo.tasks) - {id}
                                      else old(service.repo.tasks)
      ensures var id := ExtractId(path);
              Dispatch(verb, id).ToUpdate? ==>
                && (id in old(service.repo.tasks) ==>
                      old(service.repo.tasks)[id].Value() ==
                        if updateBody.Some? then Patched(old(service.repo.tasks[id].Value()), updateBody.value)
                        else old(service.repo.tasks[id].Value()))
                && (if status == StatusOK
                    then id in old(service.repo.tasks) &&
                         service.repo.tasks == old(service.repo.tasks)[old(service.repo.tasks[id].id) := old(service.repo.tasks)[id]]
                    else service.repo.tasks == old(service.repo.tasks))
      ensures status !in {StatusCreated, StatusOK, StatusNoContent} ==> service.repo.tasks == old(service.repo.tasks)
      ensures old(service.Valid()) ==> service.Valid()
    {
      // Naming the entry state's validity once keeps its proof per branch small.
      ghost var wasValid := service.Valid();
      var id := ExtractId(path);
      if id != "" {
        HandlerSliceIsExtractedId(path);
      }
      match Dispatch(verb, id)
      case ToCreate =>
        status := HandleCreate(createBody, newId);
      case ToGetAll =>
        status := HandleGetAll();
      case ToGetByID =>
        status := HandleGetByID(path);
      case ToUpdate =>
        status := HandleUpdate(path, updateBody);
      case ToDelete =>
        status := HandleDelete(path);
      case NotAllowed =>
        status := StatusMethodNotAllowed;
    }
  }
}
