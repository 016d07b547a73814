/** The server's task record, shared by pointer between the repository and the service. */
module Models {
  import opened Wrappers

  /** Go's `Status` is a string type: any string can be stored, three are meaningful. */
  type Status = string

  const StatusTodo: Status := "todo"
  const StatusInProgress: Status := "in_progress"
  const StatusDone: Status := "done"

  /** The field values of a task at one moment. */
  datatype TaskValue = TaskValue(id: string, title: string, description: string,
                                 status: Status, completed: bool)

  /** `models.Task`, a heap object: whoever holds the pointer can change its fields. */
  class Task {
    var id: string
    var title: string
    var description: string
    var status: Status
    var completed: bool

    constructor (id: string, title: string, description: string, status: Status, completed: bool)
      ensures Value() == TaskValue(id, title, description, status, completed)
    {
      this.id := id;
      this.title := title;
      this.description := description;
      this.status := status;
      this.completed := completed;
    }

    function Value(): TaskValue
      reads this
    {
      TaskValue(id, title, description, status, completed)
    }
  }

  /** `CreateTaskRequest`: an absent description decodes as "". */
  datatype CreateTaskRequest = CreateTaskRequest(title: string, description: string)

  /** `UpdateTaskRequest`: each field is a pointer; None is a key absent from the body. */
  datatype UpdateTaskRequest = UpdateTaskRequest(title: Option<string>, description: Option<string>,
                                                 status: Option<Status>)
}
