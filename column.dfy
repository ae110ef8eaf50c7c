/** One board column: the drop handler and the column titles
    (src/components/task-column.tsx). */
module Column {
  import opened Wrappers
  import opened Types

  /** The status change a drop asks the page to make. */
  datatype StatusChange = StatusChange(id: string, status: TaskStatus)

  /** The drop handler. `payload` is the `taskId` the drag carried (the empty
      string when there is none); a non-empty one asks to move that task to this
      column's status, whatever its status is now. */
  function DropCommand(payload: string, column: TaskStatus): (r: Option<StatusChange>)
    ensures r.None? <==> payload == ""
    ensures r.Some? ==> r.value.id == payload && r.value.status == column
  {
    if payload != "" then Some(StatusChange(payload, column)) else None
  }

  /** The column title. The switch covers the closed status enumeration, so the
      source's fallback branch cannot be reached and has no counterpart here. */
  function StatusDisplayName(s: TaskStatus): (title: string)
    ensures s == Todo <==> title == "Pending Intel"
    ensures s == InProgress <==> title == "Mission Active"
    ensures s == Done <==> title == "Case Closed"
  {
    match s
    case Todo => "Pending Intel"
    case InProgress => "Mission Active"
    case Done => "Case Closed"
  }

  /** Distinct columns have distinct titles. */
  lemma DisplayNameInjective(a: TaskStatus, b: TaskStatus)
    ensures StatusDisplayName(a) == StatusDisplayName(b) ==> a == b
  {
  }
}
