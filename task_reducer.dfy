/**
 * The client task store: a total, pure transition function over the task
 * list. Every map-based action touches every task whose id matches, and
 * ADD_TASK does not check that the id is new.
 */
module TaskReducer {
  import opened Wrappers
  import opened Sequences
  import opened Helpers

  /** `TaskAction`: one constructor per action tag. */
  datatype TaskAction =
    | AddTask(task: Task)                             // "ADD_TASK"
    | ToggleTask(taskId: string)                      // "TOGGLE_TASK"
    | DeleteTask(taskId: string)                      // "DELETE_TASK"
    | UpdateTask(task: Task)                          // "UPDATE_TASK"
    | SetTasks(tasks: seq<Task>)                      // "SET_TASKS"
    | MoveTask(taskId: string, newStatus: ColumnType) // "MOVE_TASK"

  datatype TaskState = TaskState(tasks: seq<Task>)

  /** `initialTaskState`: no tasks, so every column starts empty. */
  function InitialTaskState(): (s: TaskState)
    ensures forall c :: GetTasksByStatus(s.tasks, c) == []
  {
    TaskState([])
  }

  /**
   * `taskReducer`: ADD_TASK grows the list by one, TOGGLE, UPDATE and MOVE
   * keep its length, DELETE never grows it and SET_TASKS installs the
   * payload. The lemmas below state each action's effect exactly.
   */
  function Reduce(state: TaskState, action: TaskAction): (r: TaskState)
    ensures action.AddTask? ==> |r.tasks| == |state.tasks| + 1
    ensures action.ToggleTask? || action.UpdateTask? || action.MoveTask? ==> |r.tasks| == |state.tasks|
    ensures action.DeleteTask? ==> |r.tasks| <= |state.tasks|
    ensures action.SetTasks? ==> r.tasks == action.tasks
  {
    match action
    case AddTask(t) =>
      TaskState(state.tasks + [t])
    case ToggleTask(id) =>
      TaskState(Map((task: Task) => if task.id == id then task.(completed := !task.completed) else task,
                    state.tasks))
    case DeleteTask(id) =>
      TaskState(Filter((task: Task) => task.id != id, state.tasks))
    case UpdateTask(t) =>
      TaskState(Map((task: Task) => if task.id == t.id then t else task, state.tasks))
    case MoveTask(id, s) =>
      TaskState(Map((task: Task) => if task.id == id then task.(status := s, completed := s == Done) else task,
                    state.tasks))
    case SetTasks(ts) =>
      TaskState(ts)
  }

  /** True when some task in the list has the id. */
  predicate HasId(tasks: seq<Task>, id: string) {
    exists i :: 0 <= i < |tasks| && tasks[i].id == id
  }

  /** ADD_TASK appends the payload: the old list is a prefix and the payload is last. */
  lemma AddTaskAppends(state: TaskState, t: Task)
    ensures var r := Reduce(state, AddTask(t)).tasks;
            |r| == |state.tasks| + 1 && r[..|state.tasks|] == state.tasks && r[|state.tasks|] == t
  {
  }

  /**
   * TOGGLE_TASK keeps length and positions, flips `completed` exactly on the
   * tasks with the id and changes nothing else, in particular not `status`.
   */
  lemma ToggleTaskFlipsMatching(state: TaskState, id: string)
    ensures var r := Reduce(state, ToggleTask(id)).tasks;
            |r| == |state.tasks| &&
            forall i :: 0 <= i < |r| ==>
              if state.tasks[i].id == id
              then r[i] == state.tasks[i].(completed := !state.tasks[i].completed)
              else r[i] == state.tasks[i]
  {
  }

  /** TOGGLE_TASK twice with the same id restores the state. */
  lemma ToggleTaskInvolution(state: TaskState, id: string)
    ensures Reduce(Reduce(state, ToggleTask(id)), ToggleTask(id)) == state
  {
    var r := Reduce(Reduce(state, ToggleTask(id)), ToggleTask(id)).tasks;
    assert forall i :: 0 <= i < |r| ==> r[i] == state.tasks[i];
  }

  /** The reducer's TOGGLE_TASK and the helper `toggleTaskStatus` agree on every input. */
  lemma ToggleTaskMatchesHelper(state: TaskState, id: string)
    ensures Reduce(state, ToggleTask(id)).tasks == ToggleTaskStatus(state.tasks, id)
  {
    var r, h := Reduce(state, ToggleTask(id)).tasks, ToggleTaskStatus(state.tasks, id);
    assert forall i :: 0 <= i < |r| ==> r[i] == h[i];
  }

  /**
   * DELETE_TASK removes every task with the id and keeps every other task,
   * with its multiplicity, in the original order.
   */
  lemma DeleteTaskRemovesAll(state: TaskState, id: string)
    ensures var r := Reduce(state, DeleteTask(id)).tasks;
            && !HasId(r, id)
            && IsSubsequence(r, state.tasks)
            && forall t: Task :: t.id != id ==> multiset(r)[t] == multiset(state.tasks)[t]
  {
  }

  /** A second DELETE_TASK with the same id is a no-op. */
  lemma DeleteTaskIdempotent(state: TaskState, id: string)
    ensures var once := Reduce(state, DeleteTask(id));
            Reduce(once, DeleteTask(id)) == once
  {
    FilterIdempotent((task: Task) => task.id != id, state.tasks);
  }

  /** DELETE_TASK with an id that matches nothing leaves the state unchanged. */
  lemma DeleteTaskAbsentIsNoop(state: TaskState, id: string)
    requires !HasId(state.tasks, id)
    ensures Reduce(state, DeleteTask(id)) == state
  {
    FilterKeepsAll((task: Task) => task.id != id, state.tasks);
  }

  /** UPDATE_TASK replaces every task with the payload's id by the payload, wholesale. */
  lemma UpdateTaskReplacesMatching(state: TaskState, t: Task)
    ensures var r := Reduce(state, UpdateTask(t)).tasks;
            |r| == |state.tasks| &&
            forall i :: 0 <= i < |r| ==> r[i] == if state.tasks[i].id == t.id then t else state.tasks[i]
  {
  }

  /** UPDATE_TASK whose id matches nothing leaves the state unchanged. */
  lemma UpdateTaskAbsentIsNoop(state: TaskState, t: Task)
    requires !HasId(state.tasks, t.id)
    ensures Reduce(state, UpdateTask(t)) == state
  {
    var r := Reduce(state, UpdateTask(t)).tasks;
    assert forall i :: 0 <= i < |r| ==> r[i] == state.tasks[i];
  }

  /**
   * MOVE_TASK sets `status` to the new status and `completed` to whether it
   * is Done on every task with the id, whatever they were before; id, title
   * and description are kept and every other task is untouched.
   */
  lemma MoveTaskSetsStatus(state: TaskState, id: string, s: ColumnType)
    ensures var r := Reduce(state, MoveTask(id, s)).tasks;
            |r| == |state.tasks| &&
            forall i :: 0 <= i < |r| ==>
              if state.tasks[i].id == id
              then && r[i].status == s && r[i].completed == (s == Done)
                   && r[i].id == id && r[i].title == state.tasks[i].title
                   && r[i].description == state.tasks[i].description
              else r[i] == state.tasks[i]
  {
  }

  /** After MOVE_TASK every task with the id has `completed` exactly when its status is Done. */
  lemma MoveTaskMakesMatchingConsistent(state: TaskState, id: string, s: ColumnType)
    ensures var r := Reduce(state, MoveTask(id, s)).tasks;
            forall i :: 0 <= i < |r| && r[i].id == id ==> r[i].completed == (r[i].status == Done)
  {
  }

  /** Moving to the same status a second time is a no-op. */
  lemma MoveTaskIdempotent(state: TaskState, id: string, s: ColumnType)
    ensures var once := Reduce(state, MoveTask(id, s));
            Reduce(once, MoveTask(id, s)) == once
  {
    var once := Reduce(state, MoveTask(id, s)).tasks;
    var twice := Reduce(Reduce(state, MoveTask(id, s)), MoveTask(id, s)).tasks;
    assert forall i :: 0 <= i < |twice| ==> twice[i] == once[i];
  }

  /** SET_TASKS makes the list exactly the payload, so the columns are the payload's status partition. */
  lemma SetTasksReplaces(state: TaskState, ts: seq<Task>, s: ColumnType)
    ensures Reduce(state, SetTasks(ts)).tasks == ts
    ensures GetTasksByStatus(Reduce(state, SetTasks(ts)).tasks, s) == GetTasksByStatus(ts, s)
  {
  }

  /** Two worked examples of the store's behaviour. */
  lemma Examples()
    ensures Reduce(TaskState([Task("1", "a", None, false, Todo)]), MoveTask("1", Done))
            == TaskState([Task("1", "a", None, true, Done)])
    ensures Reduce(InitialTaskState(), AddTask(Task("2", "x", None, false, Todo)))
            == TaskState([Task("2", "x", None, false, Todo)])
  {
  }
}
