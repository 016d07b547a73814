/**
 * The client's task type and its derived views: the three board columns are
 * filters of the task list by status, and `toggleTaskStatus` flips the
 * completion flag of the tasks with a given id.
 */
module Helpers {
  import opened Wrappers
  import opened Sequences

  /** `ColumnType`: the three statuses, one per board column. */
  datatype ColumnType = Todo | InProgress | Done

  /** The wire spelling of each status: "todo", "in_progress", "done". */
  function StatusName(s: ColumnType): string {
    match s
    case Todo => "todo"
    case InProgress => "in_progress"
    case Done => "done"
  }

  /** A task as the client holds it; `description` is optional. */
  datatype Task = Task(id: string, title: string, description: Option<string>,
                       completed: bool, status: ColumnType)

  /** `getTasksByStatus`: the tasks of one column, in list order. */
  function GetTasksByStatus(tasks: seq<Task>, status: ColumnType): (r: seq<Task>)
    ensures forall i :: 0 <= i < |r| ==> r[i].status == status
    ensures IsSubsequence(r, tasks)
    ensures forall t :: multiset(r)[t] == if t.status == status then multiset(tasks)[t] else 0
  {
    Filter((t: Task) => t.status == status, tasks)
  }

  function GetPendingTasks(tasks: seq<Task>): seq<Task> {
    GetTasksByStatus(tasks, Todo)
  }

  function GetInProgressTasks(tasks: seq<Task>): seq<Task> {
    GetTasksByStatus(tasks, InProgress)
  }

  function GetCompletedTasks(tasks: seq<Task>): seq<Task> {
    GetTasksByStatus(tasks, Done)
  }

  /** A column re-filtered by its own status is unchanged. */
  lemma GetTasksByStatusIdempotent(tasks: seq<Task>, status: ColumnType)
    ensures GetTasksByStatus(GetTasksByStatus(tasks, status), status) == GetTasksByStatus(tasks, status)
  {
    FilterIdempotent((t: Task) => t.status == status, tasks);
  }

  /**
   * The three columns partition the list: every task occurrence lands in
   * exactly one column, so the column lengths add up to the list length.
   */
  lemma {:induction false} ViewsPartition(tasks: seq<Task>)
    ensures multiset(GetPendingTasks(tasks)) + multiset(GetInProgressTasks(tasks))
            + multiset(GetCompletedTasks(tasks)) == multiset(tasks)
    ensures |GetPendingTasks(tasks)| + |GetInProgressTasks(tasks)| + |GetCompletedTasks(tasks)| == |tasks|
  {
    var p, ip, d := GetPendingTasks(tasks), GetInProgressTasks(tasks), GetCompletedTasks(tasks);
    assert multiset(p) + multiset(ip) + multiset(d) == multiset(tasks) by {
      forall t ensures (multiset(p) + multiset(ip) + multiset(d))[t] == multiset(tasks)[t] {
        match t.status
        case Todo =>
        case InProgress =>
        case Done =>
      }
    }
    assert |multiset(p) + multiset(ip) + multiset(d)| == |p| + |ip| + |d|;
  }

  /** Flips `completed` on a task with the given id; any other task is returned as is. */
  function ToggleIfMatches(taskId: string, t: Task): Task {
    if t.id == taskId then t.(completed := !t.completed) else t
  }

  /**
   * `toggleTaskStatus`: every task keeps its position, id, title,
   * description and status; `completed` is flipped exactly where the id matches.
   */
  function ToggleTaskStatus(tasks: seq<Task>, taskId: string): (r: seq<Task>)
    ensures |r| == |tasks|
    ensures forall i :: 0 <= i < |tasks| ==>
              && r[i].id == tasks[i].id && r[i].title == tasks[i].title
              && r[i].description == tasks[i].description && r[i].status == tasks[i].status
              && r[i].completed == (tasks[i].completed != (tasks[i].id == taskId))
  {
    Map((t: Task) => ToggleIfMatches(taskId, t), tasks)
  }

  /** Toggling the same id twice restores the list. */
  lemma ToggleTaskStatusInvolution(tasks: seq<Task>, taskId: string)
    ensures ToggleTaskStatus(ToggleTaskStatus(tasks, taskId), taskId) == tasks
  {
    var r := ToggleTaskStatus(ToggleTaskStatus(tasks, taskId), taskId);
    assert forall i :: 0 <= i < |tasks| ==> r[i] == tasks[i];
  }
}
