/** Values shared by the timer, the task store and the views. */
module Common {

  datatype Option<+T> = None | Some(value: T)

  /** A wall-clock reading in milliseconds since the epoch, as `Date.now()`
      returns it. Such readings are positive, so "the timestamp is set" and
      "the timestamp is truthy" coincide. */
  type Timestamp = t: int | t > 0 witness 1

  /** Task ids are the strings `uuidv4()` produces. */
  type TaskId = string

  /** JavaScript truthiness of an optional task id: `null` and `""` are falsy. */
  predicate IdTruthy(id: Option<TaskId>)
  {
    id.Some? && id.value != ""
  }

  /** `id || undefined`: a falsy id becomes absent. */
  function TruthyId(id: Option<TaskId>): (r: Option<TaskId>)
    ensures r.Some? <==> IdTruthy(id)
    ensures r.Some? ==> r == id
  {
    if IdTruthy(id) then id else None
  }
}
