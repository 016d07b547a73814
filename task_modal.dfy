/**
 * The add/edit form: its initial field values, the payload `handleSubmit`
 * hands to `onAddTask`, and the reset of the fields after a submit.
 */
module TaskModal {
  import opened Wrappers
  import opened Helpers
  import opened JsStrings

  /** `Omit<Task, "id">`: the form's payload. */
  datatype TaskInput = TaskInput(title: string, description: Option<string>,
                                 completed: bool, status: ColumnType)

  /** `editingTask?.title || ""`. */
  function InitialTitle(editing: Option<Task>): string {
    if editing.Some? then editing.value.title else ""
  }

  /** `editingTask?.description || ""`. */
  function InitialDescription(editing: Option<Task>): string {
    if editing.Some? && editing.value.description.Some? then editing.value.description.value else ""
  }

  /**
   * The body of `handleSubmit`: no payload when the trimmed title is empty;
   * otherwise the trimmed title, the trimmed description (absent when it
   * trims to nothing), and `completed` and `status` from the task being
   * edited, defaulting to `false` and Todo.
   */
  function SubmitPayload(title: string, description: string, editing: Option<Task>): (r: Option<TaskInput>)
    ensures r.None? <==> forall i :: 0 <= i < |title| ==> IsTrimmable(title[i])
    ensures r.Some? ==>
              && r.value.title == Trim(title) && r.value.title != []
              && (r.value.description.None? <==> forall i :: 0 <= i < |description| ==> IsTrimmable(description[i]))
              && (r.value.description.Some? ==> r.value.description.value == Trim(description) != [])
              && r.value.completed == (editing.Some? && editing.value.completed)
              && r.value.status == (if editing.Some? then editing.value.status else Todo)
  {
    TrimEmptyIff(title);
    TrimEmptyIff(description);
    var t, d := Trim(title), Trim(description);
    if t != [] then
      Some(TaskInput(t, if d != [] then Some(d) else None,
                     if editing.Some? then editing.value.completed else false,
                     if editing.Some? then editing.value.status else Todo))
    else
      None
  }

  /** The task a payload describes, under the id the store gives it. */
  function AsTask(id: string, p: TaskInput): Task {
    Task(id, p.title, p.description, p.completed, p.status)
  }

  /**
   * Reopening the form on a task built from a submitted payload and
   * submitting it untouched yields the same payload again.
   */
  lemma ResubmitIsStable(title: string, description: string, editing: Option<Task>, id: string)
    requires SubmitPayload(title, description, editing).Some?
    ensures var p := SubmitPayload(title, description, editing).value;
            var e := Some(AsTask(id, p));
            SubmitPayload(InitialTitle(e), InitialDescription(e), e) == Some(p)
  {
    TrimIdempotent(title);
    TrimIdempotent(description);
  }

  /** `AddTodoTaskModal`: the two controlled form fields and the task being edited. */
  class AddTodoTaskModal {
    const editingTask: Option<Task>
    var title: string
    var description: string

    /** The fields start from the task being edited, or empty. */
    constructor (editingTask: Option<Task>)
      ensures this.editingTask == editingTask
      ensures title == InitialTitle(editingTask) && description == InitialDescription(editingTask)
    {
      this.editingTask := editingTask;
      title := if editingTask.Some? then editingTask.value.title else "";
      description := if editingTask.Some? && editingTask.value.description.Some?
                     then editingTask.value.description.value else "";
    }

    /** The title input's `onChange`. */
    method SetTitle(v: string)
      modifies this
      ensures title == v && description == old(description)
    {
      title := v;
    }

    /** The description textarea's `onChange`. */
    method SetDescription(v: string)
      modifies this
      ensures description == v && title == old(title)
    {
      description := v;
    }

    /**
     * `handleSubmit`: returns the payload passed to `onAddTask` (None when no
     * call is made); the fields are reset to "" only when a payload is sent.
     */
    method HandleSubmit() returns (submitted: Option<TaskInput>)
      modifies this
      ensures submitted == SubmitPayload(old(title), old(description), editingTask)
      ensures submitted.Some? ==> title == "" && description == ""
      ensures submitted.None? ==> title == old(title) && description == old(description)
    {
      var t := Trim(title);
      if t != "" {
        var d := Trim(description);
        submitted := Some(TaskInput(t, if d != "" then Some(d) else None,
                                    if editingTask.Some? then editingTask.value.completed else false,
                                    if editingTask.Some? then editingTask.value.status else Todo));
        title := "";
        description := "";
      } else {
        submitted := None;
      }
    }
  }
}
