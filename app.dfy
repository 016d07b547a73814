/**
 * The board's controller: it owns the store and issues at most one gateway
 * call per gesture; opening, closing or editing the form, a toggle of an
 * unknown id and a drop on the task's own column issue none. Every handler but
 * the initial load dispatches only when its call succeeds; the initial load
 * installs whatever `fetchAllTasks` returned, `[]` on failure.
 * The gateway is not modelled: every handler returns the call it issues and
 * takes the gateway's answer (a task or null, or a success flag) as an argument.
 */
module App {
  import opened Wrappers
  import opened Sequences
  import opened Helpers
  import opened TaskReducer
  import opened TaskModal

  /** The `Partial<{title, description, status}>` body of an update; None is an absent key. */
  datatype TaskUpdates = TaskUpdates(title: Option<string>, description: Option<string>,
                                     status: Option<ColumnType>)

  /** The gateway operations of the client. */
  datatype GatewayCall =
    | FetchAllTasksCall
    | CreateTaskCall(title: string, description: Option<string>)
    | UpdateTaskCall(id: string, updates: TaskUpdates)
    | DeleteTaskCall(id: string)

  /** `tasks.find(t => t.id === id)`: the first task with the id, if any. */
  function FindTask(tasks: seq<Task>, id: string): (r: Option<Task>)
    ensures r.None? <==> forall i :: 0 <= i < |tasks| ==> tasks[i].id != id
    ensures r.Some? ==> exists i :: 0 <= i < |tasks| && tasks[i] == r.value && r.value.id == id &&
                                    forall j :: 0 <= j < i ==> tasks[j].id != id
  {
    Find((t: Task) => t.id == id, tasks)
  }

  /** The status a toggle asks for: Done becomes Todo, anything else becomes Done. */
  function ToggleTarget(s: ColumnType): (r: ColumnType)
    ensures r != InProgress
    ensures r == Done <==> s != Done
  {
    if s == Done then Todo else Done
  }

  /**
   * `{ ...updated, ...task, id: editingTaskId }`. The form's object carries
   * every task field but the id (its `description` key is present even when
   * undefined), so the server's answer contributes no field.
   */
  function EditedTask(updated: Task, form: TaskInput, id: string): Task {
    updated.(title := form.title, description := form.description,
             completed := form.completed, status := form.status).(id := id)
  }

  /** The edited task is the form's fields under the edited id, whatever the server answered. */
  lemma EditedTaskIsForm(u1: Task, u2: Task, form: TaskInput, id: string)
    ensures EditedTask(u1, form, id) == EditedTask(u2, form, id) == AsTask(id, form)
  {
  }

  /** A successful toggle leaves every task with that id consistent: completed exactly when Done. */
  lemma ToggleKeepsCompletedConsistent(state: TaskState, id: string, current: ColumnType)
    ensures var r := Reduce(state, MoveTask(id, ToggleTarget(current))).tasks;
            forall i :: 0 <= i < |r| && r[i].id == id ==>
              r[i].completed == (r[i].status == Done) && r[i].status != InProgress
  {
    MoveTaskMakesMatchingConsistent(state, id, ToggleTarget(current));
  }

  /** JavaScript truthiness of `editingTaskId`: non-null and not the empty string. */
  predicate IsEditing(editingTaskId: Option<string>) {
    editingTaskId.Some? && editingTaskId.value != ""
  }

  /** The `App` component's state. */
  class Board {
    var state: TaskState
    var openModal: bool
    var editingTaskId: Option<string>

    constructor ()
      ensures state == InitialTaskState() && !openModal && editingTaskId == None
    {
      state := InitialTaskState();
      openModal := false;
      editingTaskId := None;
    }

    /** The initial load: the fetched list (empty when the fetch failed) becomes the state. */
    method LoadTasks(fetched: seq<Task>) returns (call: GatewayCall)
      modifies this
      ensures call == FetchAllTasksCall
      ensures state == Reduce(old(state), SetTasks(fetched)) && state.tasks == fetched
      ensures openModal == old(openModal) && editingTaskId == old(editingTaskId)
    {
      call := FetchAllTasksCall;
      state := Reduce(state, SetTasks(fetched));
    }

    /**
     * `handleToggleTask`: nothing happens for an unknown id; otherwise the
     * status of the first task with the id is sent as Todo when it is Done
     * and as Done otherwise, and on success the store applies MOVE_TASK.
     */
    method HandleToggleTask(taskId: string, response: Option<Task>) returns (call: Option<GatewayCall>)
      modifies this
      ensures FindTask(old(state.tasks), taskId).None? ==> call == None && state == old(state)
      ensures FindTask(old(state.tasks), taskId).Some? ==>
                var target := ToggleTarget(FindTask(old(state.tasks), taskId).value.status);
                && call == Some(UpdateTaskCall(taskId, TaskUpdates(None, None, Some(target))))
                && state == if response.Some? then Reduce(old(state), MoveTask(taskId, target)) else old(state)
      ensures openModal == old(openModal) && editingTaskId == old(editingTaskId)
    {
      var task := FindTask(state.tasks, taskId);
      if task.None? {
        return None;
      }
      var newStatus := if task.value.status == Done then Todo else Done;
      call := Some(UpdateTaskCall(taskId, TaskUpdates(None, None, Some(newStatus))));
      if response.Some? {
        state := Reduce(state, MoveTask(taskId, newStatus));
      }
    }

    /** `handleDeleteTask`: DELETE_TASK is applied only when the gateway reports success. */
    method HandleDeleteTask(taskId: string, success: bool) returns (call: GatewayCall)
      modifies this
      ensures call == DeleteTaskCall(taskId)
      ensures state == if success then Reduce(old(state), DeleteTask(taskId)) else old(state)
      ensures openModal == old(openModal) && editingTaskId == old(editingTaskId)
    {
      call := DeleteTaskCall(taskId);
      if success {
        state := Reduce(state, DeleteTask(taskId));
      }
    }

    /** `handleMoveTask`: MOVE_TASK is applied only when the gateway returns a task. */
    method HandleMoveTask(taskId: string, newStatus: ColumnType, response: Option<Task>) returns (call: GatewayCall)
      modifies this
      ensures call == UpdateTaskCall(taskId, TaskUpdates(None, None, Some(newStatus)))
      ensures state == if response.Some? then Reduce(old(state), MoveTask(taskId, newStatus)) else old(state)
      ensures openModal == old(openModal) && editingTaskId == old(editingTaskId)
    {
      call := UpdateTaskCall(taskId, TaskUpdates(None, None, Some(newStatus)));
      if response.Some? {
        state := Reduce(state, MoveTask(taskId, newStatus));
      }
    }

    /**
     * A card dropped on a column: the move handler runs only when the
     * dragged task's status differs from the column's.
     */
    method DropOnColumn(dragged: Task, columnType: ColumnType, response: Option<Task>) returns (call: Option<GatewayCall>)
      modifies this
      ensures dragged.status == columnType ==> call == None && state == old(state)
      ensures dragged.status != columnType ==>
                && call == Some(UpdateTaskCall(dragged.id, TaskUpdates(None, None, Some(columnType))))
                && state == if response.Some? then Reduce(old(state), MoveTask(dragged.id, columnType)) else old(state)
      ensures openModal == old(openModal) && editingTaskId == old(editingTaskId)
    {
      if dragged.status != columnType {
        var c := HandleMoveTask(dragged.id, columnType, response);
        call := Some(c);
      } else {
        call := None;
      }
    }

    /** `handleEditTask`: remembers the task and opens the form. */
    method HandleEditTask(taskId: string)
      modifies this
      ensures editingTaskId == Some(taskId) && openModal && state == old(state)
    {
      editingTaskId := Some(taskId);
      openModal := true;
    }

    /** The add button opens the form. */
    method OpenAddModal()
      modifies this
      ensures openModal && editingTaskId == old(editingTaskId) && state == old(state)
    {
      openModal := true;
    }

    /** The form's `onClose`. */
    method CloseModal()
      modifies this
      ensures !openModal && editingTaskId == None && state == old(state)
    {
      openModal := false;
      editingTaskId := None;
    }

    /** `getEditingTask`: the first task with the edited id, or none when not editing. */
    function EditingTask(): (r: Option<Task>)
      reads this
      ensures !IsEditing(editingTaskId) ==> r.None?
      ensures r.Some? ==> r.value.id == editingTaskId.value &&
                          exists i :: 0 <= i < |state.tasks| && state.tasks[i] == r.value &&
                                      forall j :: 0 <= j < i ==> state.tasks[j].id != editingTaskId.value
      ensures IsEditing(editingTaskId) && r.None? ==>
                forall i :: 0 <= i < |state.tasks| ==> state.tasks[i].id != editingTaskId.value
    {
      if IsEditing(editingTaskId) then FindTask(state.tasks, editingTaskId.value) else None
    }

    /**
     * `onAddTask`: when editing, send the form's title and description for
     * the edited id and, on success, replace that task by the form's fields;
     * otherwise create the task and, on success, append the server's task.
     * Either way the form is closed and the edited id cleared.
     */
    method SubmitTask(task: TaskInput, response: Option<Task>) returns (call: GatewayCall)
      modifies this
      ensures IsEditing(old(editingTaskId)) ==>
                var id := old(editingTaskId).value;
                && call == UpdateTaskCall(id, TaskUpdates(Some(task.title), task.description, None))
                && state == if response.Some?
                            then Reduce(old(state), UpdateTask(AsTask(id, task)))
                            else old(state)
      ensures !IsEditing(old(editingTaskId)) ==>
                && call == CreateTaskCall(task.title, task.description)
                && state == if response.Some? then Reduce(old(state), AddTask(response.value)) else old(state)
      ensures !openModal && editingTaskId == None
    {
      if editingTaskId.Some? && editingTaskId.value != "" {
        var id := editingTaskId.value;
        call := UpdateTaskCall(id, TaskUpdates(Some(task.title), task.description, None));
        if response.Some? {
          state := Reduce(state, UpdateTask(EditedTask(response.value, task, id)));
        }
      } else {
        call := CreateTaskCall(task.title, task.description);
        if response.Some? {
          state := Reduce(state, AddTask(response.value));
        }
      }
      openModal := false;
      editingTaskId := None;
    }
  }
}
