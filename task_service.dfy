/**
 * The task service: title and status validation, partial updates and the
 * propagation of repository errors. `UpdateTask` writes the fields of the
 * task pointer it got from the repository one by one, so the title and
 * description it writes stay in the stored task even when it then rejects
 * the status.
 */
module Service {
  import opened Wrappers
  import opened Models
  import opened Errors
  import opened Repository

  /** `isValidStatus`: the three statuses of the board. */
  predicate IsValidStatus(status: Status) {
    status == StatusTodo || status == StatusInProgress || status == StatusDone
  }

  /** A task as the service keeps it: a title, a valid status, and `completed` exactly when done. */
  predicate WellFormed(v: TaskValue) {
    v.title != "" && IsValidStatus(v.status) && v.completed == (v.status == StatusDone)
  }

  /** The validation error `UpdateTask` reports for a request, in the order it checks. */
  function UpdateValidation(req: UpdateTaskRequest): (e: Option<Error>)
    ensures e == Some(InvalidTitle) <==> req.title == Some("")
    ensures e == Some(InvalidStatus) <==>
              req.title != Some("") && req.status.Some? && !IsValidStatus(req.status.value)
    ensures e.None? || e == Some(InvalidTitle) || e == Some(InvalidStatus)
  {
    if req.title == Some("") then Some(InvalidTitle)
    else if req.status.Some? && !IsValidStatus(req.status.value) then Some(InvalidStatus)
    else None
  }

  /**
   * The field values of the stored task after `UpdateTask`, accepted or
   * rejected: nothing is written when the title is empty; otherwise the
   * given title and description are written, and then the status and
   * `completed` when the status is valid.
   */
  function Patched(v: TaskValue, req: UpdateTaskRequest): TaskValue {
    if req.title == Some("") then v
    else
      var v1 := v.(title := req.title.GetOr(v.title), description := req.description.GetOr(v.description));
      if req.status.Some? && IsValidStatus(req.status.value)
      then v1.(status := req.status.value, completed := req.status.value == StatusDone)
      else v1
  }

  /** The error `UpdateTask` returns for a stored-state snapshot, or None when it succeeds. */
  function UpdateFailure(store: map<string, TaskValue>, id: string, req: UpdateTaskRequest): (e: Option<Error>)
    ensures id !in store ==> e == Some(TaskNotFound)
    ensures id in store && store[id].id == id ==> e == UpdateValidation(req)
  {
    if id !in store then Some(TaskNotFound)
    else if UpdateValidation(req).Some? then UpdateValidation(req)
    else if store[id].id !in store then Some(TaskNotFound)
    else None
  }

  /**
   * An accepted update keeps the id, copies the given fields, keeps the
   * absent ones, and sets `completed` exactly when the new status is done.
   */
  lemma AcceptedUpdateFields(v: TaskValue, req: UpdateTaskRequest)
    requires UpdateValidation(req).None?
    ensures var p := Patched(v, req);
            && p.id == v.id
            && p.title == (if req.title.Some? then req.title.value else v.title)
            && p.description == (if req.description.Some? then req.description.value else v.description)
            && (req.status.Some? ==> p.status == req.status.value && p.completed == (p.status == StatusDone))
            && (req.status.None? ==> p.status == v.status && p.completed == v.completed)
  {
  }

  /** A request rejected for its title leaves the task as it was. */
  lemma RejectedTitleWritesNothing(v: TaskValue, req: UpdateTaskRequest)
    requires UpdateValidation(req) == Some(InvalidTitle)
    ensures Patched(v, req) == v
  {
  }

  /**
   * A request rejected for its status still leaves its title and
   * description in the stored task; only status and `completed` are kept.
   */
  lemma RejectedStatusStillWritesFields(v: TaskValue, req: UpdateTaskRequest)
    requires UpdateValidation(req) == Some(InvalidStatus)
    ensures var p := Patched(v, req);
            && p == v.(title := req.title.GetOr(v.title), description := req.description.GetOr(v.description))
            && p.status == v.status && p.completed == v.completed
            && (req.title.Some? && req.title.value != v.title ==> p != v)
  {
  }

  /** Whatever the request, accepted or rejected, a well-formed task stays well-formed. */
  lemma PatchedPreservesWellFormed(v: TaskValue, req: UpdateTaskRequest)
    requires WellFormed(v)
    ensures WellFormed(Patched(v, req))
  {
  }

  /** `TaskService` over the in-memory repository. */
  class TaskService {
    const repo: InMemoryTaskRepository

    /** `NewTaskService`. */
    constructor (repo: InMemoryTaskRepository)
      ensures this.repo == repo
    {
      this.repo := repo;
    }

    /** Every task is stored under its own id and is well-formed. */
    ghost predicate Valid()
      reads this, repo, repo.tasks.Values
    {
      forall k :: k in repo.tasks ==> repo.tasks[k].id == k && WellFormed(repo.tasks[k].Value())
    }

    /**
     * `CreateTask`; `newId` is the value `generateID` returns. An empty title
     * is rejected before the repository is touched; otherwise a new task in
     * Todo, not completed, is stored under `newId`.
     */
    method CreateTask(req: CreateTaskRequest, newId: string) returns (r: Result<Task, Error>)
      modifies repo
      ensures req.title == "" ==> r == Failure(InvalidTitle) && repo.tasks == old(repo.tasks)
      ensures req.title != "" ==>
                && r.Success? && fresh(r.value)
                && r.value.Value() == TaskValue(newId, req.title, req.description, StatusTodo, false)
                && repo.tasks == old(repo.tasks)[newId := r.value]
      ensures old(Valid()) ==> Valid()
    {
      if req.title == "" {
        return Failure(InvalidTitle);
      }
      var task := new Task(newId, req.title, req.description, StatusTodo, false);
      var err := repo.Create(task);
      r := match err case None => Success(task) case Some(e) => Failure(e);
    }

    /** `GetAllTasks`. */
    method GetAllTasks() returns (r: Result<seq<Task>, Error>, ghost order: seq<string>)
      ensures r.Success? && |r.value| == |repo.tasks|
      ensures forall t :: t in r.value <==> t in repo.tasks.Values
      ensures |order| == |r.value| && Distinct(order) && (set k | k in order) == repo.tasks.Keys
      ensures forall i :: 0 <= i < |order| ==> order[i] in repo.tasks && r.value[i] == repo.tasks[order[i]]
    {
      var all;
      all, order := repo.GetAll();
      r := Success(all);
    }

    /** `GetTaskByID`. */
    method GetTaskByID(id: string) returns (r: Result<Task, Error>)
      ensures id in repo.tasks ==> r == Success(repo.tasks[id])
      ensures id !in repo.tasks ==> r == Failure(TaskNotFound)
    {
      r := repo.GetByID(id);
    }

    /**
     * `UpdateTask`: fails with not-found for an unknown id; otherwise writes
     * the request into the stored task as `Patched` says and fails, with that
     * write kept, when `UpdateFailure` says so; on success the stored task
     * is returned.
     */
    method UpdateTask(id: string, req: UpdateTaskRequest) returns (r: Result<Task, Error>)
      modifies repo, if id in repo.tasks then {repo.tasks[id]} else {}
      ensures id !in old(repo.tasks) ==> r == Failure(TaskNotFound) && repo.tasks == old(repo.tasks)
      ensures id in old(repo.tasks) ==>
                old(repo.tasks)[id].Value() == Patched(old(repo.tasks[id].Value()), req)
      ensures id in old(repo.tasks) ==>
                var e := UpdateFailure(old(repo.Snapshot()), id, req);
                r == if e.Some? then Failure(e.value) else Success(old(repo.tasks)[id])
      ensures id in old(repo.tasks) ==>
                var t := old(repo.tasks)[id];
                repo.tasks == if UpdateFailure(old(repo.Snapshot()), id, req).None?
                              then old(repo.tasks)[t.id := t] else old(repo.tasks)
      ensures old(Valid()) ==> Valid()
    {
      var got := repo.GetByID(id);
      if got.Failure? {
        return Failure(got.error);
      }
      var task := got.value;
      var e := ApplyRequest(task, req);
      if e.Some? {
        r := Failure(e.value);
      } else {
        var err := repo.Update(task);
        r := match err case None => Success(task) case Some(e) => Failure(e);
      }
      if old(Valid()) {
        PatchedPreservesWellFormed(old(task.Value()), req);
      }
    }

    /**
     * The validation and the field writes of `UpdateTask`: an empty title is
     * rejected before anything is written; the title and description are
     * written before the status is checked, so a status rejection keeps them.
     */
    method ApplyRequest(task: Task, req: UpdateTaskRequest) returns (e: Option<Error>)
      modifies task
      ensures e == UpdateValidation(req)
      ensures task.Value() == Patched(old(task.Value()), req)
    {
      if req.title.Some? {
        if req.title.value == "" {
          return Some(InvalidTitle);
        }
        task.title := req.title.value;
      }
      if req.description.Some? {
        task.description := req.description.value;
      }
      if req.status.Some? {
        if !IsValidStatus(req.status.value) {
          return Some(InvalidStatus);
        }
        task.status := req.status.value;
        task.completed := req.status.value == StatusDone;
      }
      e := None;
    }

    /** `DeleteTask`. */
    method DeleteTask(id: string) returns (err: Option<Error>)
      modifies repo
      ensures id in old(repo.tasks) ==> err == None && repo.tasks == old(repo.tasks) - {id}
      ensures id !in old(repo.tasks) ==> err == Some(TaskNotFound) && repo.tasks == old(repo.tasks)
      ensures old(Valid()) ==> Valid()
    {
      err := repo.Delete(id);
    }
  }
}
