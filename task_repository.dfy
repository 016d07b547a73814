/** The in-memory task repository: a map from id to task pointer. */
module Repository {
  import opened Wrappers
  import opened Models
  import opened Errors

  /** No key occurs twice in the sequence. */
  predicate Distinct<T(==)>(s: seq<T>) {
    forall i, j :: 0 <= i < j < |s| ==> s[i] != s[j]
  }

  /** A distinct sequence is as long as the set of its elements. */
  lemma {:induction false} DistinctCard<T>(s: seq<T>)
    requires Distinct(s)
    ensures |set x | x in s| == |s|
  {
    if s != [] {
      DistinctCard(s[1..]);
      assert (set x | x in s) == (set x | x in s[1..]) + {s[0]};
      assert s[0] !in (set x | x in s[1..]);
    }
  }

  class InMemoryTaskRepository {
    var tasks: map<string, Task>

    /** `NewInMemoryTaskRepository`. */
    constructor ()
      ensures tasks == map[]
    {
      tasks := map[];
    }

    /** The field values of every stored task, by key. */
    function Snapshot(): (m: map<string, TaskValue>)
      reads this, tasks.Values
      ensures m.Keys == tasks.Keys
      ensures forall k :: k in tasks ==> m[k] == tasks[k].Value()
    {
      map k | k in tasks :: tasks[k].Value()
    }

    /** `Create`: never fails, and silently replaces a task already stored under the id. */
    method Create(task: Task) returns (err: Option<Error>)
      modifies this
      ensures err == None
      ensures tasks == old(tasks)[task.id := task]
    {
      tasks := tasks[task.id := task];
      err := None;
    }

    /**
     * `GetAll`: one pointer per stored key, in an order the model leaves
     * open; `order` is the key sequence the iteration visited.
     */
    method GetAll() returns (all: seq<Task>, ghost order: seq<string>)
      ensures |all| == |tasks|
      ensures forall t :: t in all <==> t in tasks.Values
      ensures |order| == |all| && Distinct(order) && (set k | k in order) == tasks.Keys
      ensures forall i :: 0 <= i < |order| ==> order[i] in tasks && all[i] == tasks[order[i]]
    {
      all, order := [], [];
      var remaining := tasks.Keys;
      while remaining != {}
        invariant remaining <= tasks.Keys
        invariant |all| == |order|
        invariant Distinct(order)
        invariant forall i :: 0 <= i < |order| ==> order[i] in tasks && order[i] !in remaining
        invariant forall i :: 0 <= i < |order| ==> all[i] == tasks[order[i]]
        invariant (set k | k in order) + remaining == tasks.Keys
        decreases remaining
      {
        var k :| k in remaining;
        all, order := all + [tasks[k]], order + [k];
        remaining := remaining - {k};
      }
      DistinctCard(order);
      assert |tasks.Keys| == |tasks|;
      forall t | t in tasks.Values ensures t in all {
        var k :| k in tasks && tasks[k] == t;
        assert k in (set k | k in order);
        var i :| 0 <= i < |order| && order[i] == k;
        assert all[i] == t;
      }
    }

    /** `GetByID`: the stored pointer itself, or `ErrTaskNotFound`. */
    method GetByID(id: string) returns (r: Result<Task, Error>)
      ensures id in tasks ==> r == Success(tasks[id])
      ensures id !in tasks ==> r == Failure(TaskNotFound)
    {
      if id !in tasks {
        return Failure(TaskNotFound);
      }
      r := Success(tasks[id]);
    }

    /** `Update`: replaces the pointer under the task's id, or fails when no task has that key. */
    method Update(task: Task) returns (err: Option<Error>)
      modifies this
      ensures task.id in old(tasks) ==> err == None && tasks == old(tasks)[task.id := task]
      ensures task.id !in old(tasks) ==> err == Some(TaskNotFound) && tasks == old(tasks)
    {
      if task.id !in tasks {
        return Some(TaskNotFound);
      }
      tasks := tasks[task.id := task];
      err := None;
    }

    /** `Delete`: removes the key, or fails when it is absent. */
    method Delete(id: string) returns (err: Option<Error>)
      modifies this
      ensures id in old(tasks) ==> err == None && tasks == old(tasks) - {id}
      ensures id !in old(tasks) ==> err == Some(TaskNotFound) && tasks == old(tasks)
    {
      if id !in tasks {
        return Some(TaskNotFound);
      }
      tasks := tasks - {id};
      err := None;
    }
  }

  /** Storing a task and reading its id back returns the same pointer. */
  method CreateThenGetByID(repo: InMemoryTaskRepository, task: Task) returns (r: Result<Task, Error>)
    modifies repo
    ensures r == Success(task)
  {
    var _ := repo.Create(task);
    r := repo.GetByID(task.id);
  }

  /** After a successful delete the id is not found any more. */
  method DeleteThenGetByID(repo: InMemoryTaskRepository, id: string) returns (err: Option<Error>, r: Result<Task, Error>)
    modifies repo
    ensures id in old(repo.tasks) <==> err == None
    ensures r == Failure(TaskNotFound)
  {
    err := repo.Delete(id);
    r := repo.GetByID(id);
  }
}
