/** The task record and its two closed enumerations (src/types/index.ts). */
module Types {
  import opened Wrappers

  /** A calendar day, counted from an arbitrary epoch. Dates are opaque to the
      model: only their presence and equality matter. */
  type Day = int

  datatype Priority = Low | Medium | High

  datatype TaskStatus = Todo | InProgress | Done

  /** A task. `description`, `dueDate` and `tags` are optional fields that may be
      absent from the record. */
  datatype Task = Task(
    id: string,
    name: string,
    description: Option<string>,
    dueDate: Option<Day>,
    priority: Priority,
    status: TaskStatus,
    tags: Option<seq<string>>)

  /** The string literal of a priority, as it appears in the form and in storage. */
  function PriorityName(p: Priority): string {
    match p
    case Low => "Low"
    case Medium => "Medium"
    case High => "High"
  }

  /** The string literal of a status. */
  function StatusName(s: TaskStatus): string {
    match s
    case Todo => "Todo"
    case InProgress => "InProgress"
    case Done => "Done"
  }

  /** Membership of a string in the closed priority enumeration. */
  function ParsePriority(s: string): (r: Option<Priority>)
    ensures r.Some? <==> (s == "Low" || s == "Medium" || s == "High")
    ensures r.Some? ==> PriorityName(r.value) == s
  {
    if s == "Low" then Some(Low)
    else if s == "Medium" then Some(Medium)
    else if s == "High" then Some(High)
    else None
  }

  /** Membership of a string in the closed status enumeration. */
  function ParseStatus(s: string): (r: Option<TaskStatus>)
    ensures r.Some? <==> (s == "Todo" || s == "InProgress" || s == "Done")
    ensures r.Some? ==> StatusName(r.value) == s
  {
    if s == "Todo" then Some(Todo)
    else if s == "InProgress" then Some(InProgress)
    else if s == "Done" then Some(Done)
    else None
  }

  /** Every priority is accepted back from its own name, and names are distinct. */
  lemma PriorityRoundTrip(p: Priority, q: Priority)
    ensures ParsePriority(PriorityName(p)) == Some(p)
    ensures PriorityName(p) == PriorityName(q) ==> p == q
  {
  }

  /** Every status is accepted back from its own name, and names are distinct. */
  lemma StatusRoundTrip(s: TaskStatus, t: TaskStatus)
    ensures ParseStatus(StatusName(s)) == Some(s)
    ensures StatusName(s) == StatusName(t) ==> s == t
  {
  }
}
