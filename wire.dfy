/**
 * The status strings the client and the server exchange. The client types
 * a task's status as one of three column names and casts the server's
 * answer to that type; the server stores any string but accepts only the
 * same three names.
 */
module Wire {
  import opened Wrappers
  import Helpers
  import opened Models
  import opened Service

  /** The column a server status names; None for any other string. */
  function ColumnOf(s: Status): (r: Option<Helpers.ColumnType>)
    ensures r.Some? <==> IsValidStatus(s)
    ensures r.Some? ==> Helpers.StatusName(r.value) == s
  {
    if s == StatusTodo then Some(Helpers.Todo)
    else if s == StatusInProgress then Some(Helpers.InProgress)
    else if s == StatusDone then Some(Helpers.Done)
    else None
  }

  /** Every column the client sends is a status the service accepts, and it comes back as the same column. */
  lemma ColumnNamesRoundTrip(c: Helpers.ColumnType)
    ensures IsValidStatus(Helpers.StatusName(c))
    ensures ColumnOf(Helpers.StatusName(c)) == Some(c)
  {
    match c
    case Todo =>
    case InProgress =>
    case Done =>
  }

  /**
   * A task the service keeps well formed reads as a client task whose
   * `completed` flag agrees with its column, the consistency the client's
   * `MOVE_TASK` and toggle maintain.
   */
  lemma WellFormedIsClientConsistent(v: TaskValue)
    requires WellFormed(v)
    ensures ColumnOf(v.status).Some?
    ensures v.completed == (ColumnOf(v.status).value == Helpers.Done)
  {
  }
}
