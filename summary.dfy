/** The summary dialog: which tasks it sends to the summarising collaborator and
    how its loading, error and summary state evolves
    (src/components/task-summarization-dialog.tsx). */
module Summary {
  import opened Wrappers
  import opened Types
  import opened Seqs

  const NoOpenTasksMessage: string := "No open tasks to summarize."
  const FailureMessage: string := "Failed to generate task summary. Please try again."
  const NoDescription: string := "No description"

  /** One entry of the request sent to the collaborator. */
  datatype OpenTaskInfo = OpenTaskInfo(name: string, description: string)

  /** What the collaborator did: returned a summary, or threw. */
  datatype Outcome = Success(summary: string) | Failure

  function IsOpen(): Task -> bool {
    (t: Task) => t.status != Done
  }

  /** The tasks that are not Done, in list order. */
  function OpenTasks(tasks: seq<Task>): (r: seq<Task>)
    ensures forall t :: t in r <==> t in tasks && t.status != Done
  {
    Keep(tasks, IsOpen())
  }

  /** The open tasks keep their relative order, and filtering them again (as the
      dialog does with the list the page already filtered) changes nothing. */
  lemma OpenTasksOrder(tasks: seq<Task>)
    ensures IsSubsequence(OpenTasks(tasks), tasks)
    ensures OpenTasks(OpenTasks(tasks)) == OpenTasks(tasks)
  {
    KeepIsSubsequence(tasks, IsOpen());
    KeepIdempotent(tasks, IsOpen());
  }

  /** The description sent for a task: its own when present and non-empty,
      otherwise the placeholder; never empty. */
  function SentDescription(t: Task): (d: string)
    ensures d != ""
    ensures t.description.Some? && t.description.value != "" ==> d == t.description.value
    ensures t.description.None? || t.description.value == "" ==> d == NoDescription
  {
    if t.description.Some? && t.description.value != "" then t.description.value else NoDescription
  }

  /** The request: one entry per open task, in order, with the name copied. */
  function Request(open: seq<Task>): (r: seq<OpenTaskInfo>)
    ensures |r| == |open|
    ensures forall i :: 0 <= i < |r| ==>
      r[i].name == open[i].name && r[i].description == SentDescription(open[i])
  {
    if open == [] then []
    else [OpenTaskInfo(open[0].name, SentDescription(open[0]))] + Request(open[1..])
  }

  /** No description sent to the collaborator is empty. */
  lemma RequestDescriptionsNonEmpty(open: seq<Task>, i: int)
    requires 0 <= i < |open|
    ensures Request(open)[i].description != ""
  {
  }

  /** The dialog's state. */
  class SummaryDialog {
    var summary: Option<string>
    var isLoading: bool
    var error: Option<string>

    constructor ()
      ensures summary == None && !isLoading && error == None
    {
      summary, isLoading, error := None, false, None;
    }

    /** The first step of `fetchSummary`: show the loading state, clear the rest. */
    method Start()
      modifies this
      ensures isLoading && error == None && summary == None
    {
      isLoading := true;
      error := None;
      summary := None;
    }

    /** `fetchSummary`. The collaborator's behaviour is the input `outcome`; the
        returned `request` is what was sent to it, or None when it was not called. */
    method FetchSummary(tasks: seq<Task>, outcome: Outcome) returns (request: Option<seq<OpenTaskInfo>>)
      modifies this
      ensures request.None? <==> OpenTasks(tasks) == []
      ensures request.Some? ==> request.value == Request(OpenTasks(tasks))
      ensures !isLoading
      ensures request.None? ==> summary == Some(NoOpenTasksMessage) && error == None
      ensures request.Some? && outcome.Success? ==> summary == Some(outcome.summary) && error == None
      ensures request.Some? && outcome.Failure? ==> summary == None && error == Some(FailureMessage)
    {
      Start();
      var open := OpenTasks(tasks);
      if |open| == 0 {
        summary := Some(NoOpenTasksMessage);
        isLoading := false;
        request := None;
        return;
      }
      request := Some(Request(open));
      match outcome {
        case Success(s) =>
          summary := Some(s);
        case Failure =>
          error := Some(FailureMessage);
      }
      isLoading := false;
    }

    /** The effect that runs when the dialog's `isOpen` or `tasks` change: it fetches
        only while the dialog is open. */
    method Effect(isOpen: bool, tasks: seq<Task>, outcome: Outcome) returns (request: Option<seq<OpenTaskInfo>>)
      modifies this
      ensures !isOpen ==>
        (request.None? && summary == old(summary) && isLoading == old(isLoading) && error == old(error))
      ensures isOpen ==> (request.None? <==> OpenTasks(tasks) == []) && !isLoading
      ensures isOpen && request.Some? ==> request.value == Request(OpenTasks(tasks))
      ensures isOpen && request.None? ==> summary == Some(NoOpenTasksMessage) && error == None
      ensures isOpen && request.Some? && outcome.Success? ==> summary == Some(outcome.summary) && error == None
      ensures isOpen && request.Some? && outcome.Failure? ==> summary == None && error == Some(FailureMessage)
    {
      request := None;
      if isOpen {
        request := FetchSummary(tasks, outcome);
      }
    }
  }
}
