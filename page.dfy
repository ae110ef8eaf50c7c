/** The task page: the task store with its list operations, the demo seed and the
    load/save effects, and the open tasks handed to the summary dialog
    (src/app/page.tsx). */
module Page {
  import opened Wrappers
  import opened Types
  import opened Seqs
  import opened Board
  import opened Form
  import opened Column
  import opened Summary

  /** What the storage slot gave back: nothing, the empty string (falsy, so treated
      as nothing), text that fails to parse, or a parsed task list. Parsed data is
      not shape-checked by the page. */
  datatype StoredValue = Missing | EmptyText | Malformed | Parsed(tasks: seq<Task>)

  predicate HasId(tasks: seq<Task>, id: string) {
    exists t :: t in tasks && t.id == id
  }

  predicate Distinct(ids: seq<string>) {
    forall i, j :: 0 <= i < j < |ids| ==> ids[i] != ids[j]
  }

  /** The ids of the tasks, in list order. */
  function Ids(tasks: seq<Task>): (ids: seq<string>)
    ensures |ids| == |tasks| && forall i :: 0 <= i < |tasks| ==> ids[i] == tasks[i].id
  {
    seq(|tasks|, i requires 0 <= i < |tasks| => tasks[i].id)
  }

  /** No two tasks of the list share an id. */
  predicate UniqueIds(tasks: seq<Task>) {
    Distinct(Ids(tasks))
  }

  /** The record a submission becomes under the given id: every submitted field
      replaces the old one. */
  function FromFields(id: string, d: FormData): Task {
    Task(id, d.name, Some(d.description), d.dueDate, d.priority, d.status, Some(d.tags))
  }

  /** `tasks.map(task => task.id === id ? g(task) : task)`. */
  function Replace(tasks: seq<Task>, id: string, g: Task -> Task): (r: seq<Task>)
    ensures |r| == |tasks|
    ensures forall i :: 0 <= i < |tasks| ==> r[i] == (if tasks[i].id == id then g(tasks[i]) else tasks[i])
  {
    if tasks == [] then []
    else [if tasks[0].id == id then g(tasks[0]) else tasks[0]] + Replace(tasks[1..], id, g)
  }

  function WithFields(d: FormData): Task -> Task {
    (t: Task) => FromFields(t.id, d)
  }

  function WithStatus(s: TaskStatus): Task -> Task {
    (t: Task) => t.(status := s)
  }

  function IdIsNot(id: string): Task -> bool {
    (t: Task) => t.id != id
  }

  /** Update by id: every task with id `id` gets the submitted fields, keeping its id. */
  function UpdateById(tasks: seq<Task>, id: string, d: FormData): (r: seq<Task>)
    ensures |r| == |tasks|
    ensures forall i :: 0 <= i < |tasks| ==> r[i] == (if tasks[i].id == id then FromFields(id, d) else tasks[i])
  {
    Replace(tasks, id, WithFields(d))
  }

  /** Set status by id: every task with id `id` gets status `s`, nothing else changes. */
  function SetStatusById(tasks: seq<Task>, id: string, s: TaskStatus): (r: seq<Task>)
    ensures |r| == |tasks|
    ensures forall i :: 0 <= i < |tasks| ==> r[i] == (if tasks[i].id == id then tasks[i].(status := s) else tasks[i])
  {
    Replace(tasks, id, WithStatus(s))
  }

  /** Delete by id: the tasks whose id differs from `id`, in order. */
  function DeleteById(tasks: seq<Task>, id: string): (r: seq<Task>)
    ensures forall t :: t in r <==> t in tasks && t.id != id
  {
    Keep(tasks, IdIsNot(id))
  }

  /** The list after `handleTaskSubmit`: an edit that carries an id updates by that
      id; anything else is appended under the fresh id. */
  function AfterSubmit(tasks: seq<Task>, sub: Submission, isEditing: bool, freshId: string): (r: seq<Task>)
    ensures isEditing && sub.id.Some? ==>
      |r| == |tasks| && forall i :: 0 <= i < |r| ==> r[i].id == tasks[i].id
    ensures !(isEditing && sub.id.Some?) ==>
      |r| == |tasks| + 1 && r[..|tasks|] == tasks && r[|tasks|].id == freshId
      && r[|tasks|].name == sub.data.name && r[|tasks|].status == sub.data.status
  {
    if isEditing && sub.id.Some? then UpdateById(tasks, sub.id.value, sub.data)
    else tasks + [FromFields(freshId, sub.data)]
  }

  /** The text of the demo seed (`initialDemoTasks`). */
  const PenguinName: string := "Investigate Penguin's Smuggling Ring"
  const PenguinText: string := "Suspicious activity reported at the docks. Gather intel on Cobblepot's latest operation."
  const PenguinTags: seq<string> := ["investigation", "Penguin", "docks"]
  const JokerName: string := "Analyze Joker's Laughing Gas Sample"
  const JokerText: string := "New variant of Joker toxin recovered. Identify components and develop antidote."
  const JokerTags: seq<string> := ["forensics", "Joker", "toxin", "lab"]
  const BatmobileName: string := "Repair Batmobile"
  const BatmobileText: string := "Minor damage sustained during last patrol. Needs new tires and armor reinforcement."
  const BatmobileTags: seq<string> := ["maintenance", "Batmobile", "vehicle"]
  const TwoFaceName: string := "Tail Two-Face's Goons"
  const TwoFaceText: string := "Observe movements of Two-Face's crew near the old Janus Cosmetics building."
  const TwoFaceTags: seq<string> := ["surveillance", "Two-Face", "Janus"]
  const GordonName: string := "Meet with Commissioner Gordon"
  const GordonText: string := "Discussed recent spike in organized crime and coordinated GCPD efforts."
  const GordonTags: seq<string> := ["meeting", "GCPD", "Gordon"]
  const CatwomanName: string := "Apprehend Catwoman (Attempt #3)"
  const CatwomanText: string := "Successfully recovered the stolen diamond from Selina Kyle. She slipped away... again."
  const CatwomanTags: seq<string> := ["apprehension", "Catwoman", "theft", "recovery"]

  /** The demo seed, each record under the corresponding fresh id; due dates are
      offsets from `today`. */
  function Seed(ids: seq<string>, today: Day): (r: seq<Task>)
    requires |ids| == 6
    ensures |r| == 6
    ensures forall i :: 0 <= i < 6 ==> r[i].id == ids[i]
  {
    [ Task(ids[0], PenguinName, Some(PenguinText), Some(today + 3), High, Todo, Some(PenguinTags)),
      Task(ids[1], JokerName, Some(JokerText), Some(today + 5), High, Todo, Some(JokerTags)),
      Task(ids[2], BatmobileName, Some(BatmobileText), Some(today + 1), Medium, InProgress, Some(BatmobileTags)),
      Task(ids[3], TwoFaceName, Some(TwoFaceText), Some(today), Medium, InProgress, Some(TwoFaceTags)),
      Task(ids[4], GordonName, Some(GordonText), Some(today - 2), Medium, Done, Some(GordonTags)),
      Task(ids[5], CatwomanName, Some(CatwomanText), Some(today - 1), Low, Done, Some(CatwomanTags)) ]
  }

  /** What the save effect writes to storage: nothing while loading, otherwise the
      whole list. */
  function Saved(tasks: seq<Task>, isLoading: bool): (w: Option<seq<Task>>)
    ensures w.Some? <==> !isLoading
    ensures w.Some? ==> w.value == tasks
  {
    if isLoading then None else Some(tasks)
  }

  /** The list the load effect installs: the parsed list when there is one,
      otherwise the demo seed. */
  function Loaded(stored: StoredValue, ids: seq<string>, today: Day): (r: seq<Task>)
    requires |ids| == 6
    ensures stored.Parsed? ==> r == stored.tasks
    ensures !stored.Parsed? ==> r == Seed(ids, today)
  {
    match stored
    case Parsed(tasks) => tasks
    case _ => Seed(ids, today)
  }

  /** The task store of the page. */
  class TaskStore {
    var tasks: seq<Task>
    var isLoading: bool

    constructor ()
      ensures tasks == [] && isLoading
    {
      tasks, isLoading := [], true;
    }

    /** The load effect: raise the loading flag and install the stored list, or the
        demo seed under six fresh ids. */
    method Load(stored: StoredValue, freshIds: seq<string>, today: Day)
      requires |freshIds| == 6 && Distinct(freshIds)
      modifies this
      ensures isLoading
      ensures tasks == Loaded(stored, freshIds, today)
    {
      isLoading := true;
      tasks := Loaded(stored, freshIds, today);
    }

    /** The timer that ends the loading phase. */
    method FinishLoading()
      modifies this
      ensures !isLoading && tasks == old(tasks)
    {
      isLoading := false;
    }

    /** The save effect: the list written to storage, or None while loading. */
    method Save() returns (written: Option<seq<Task>>)
      ensures written == Saved(tasks, isLoading)
    {
      if !isLoading {
        written := Some(tasks);
      } else {
        written := None;
      }
    }

    /** `handleTaskSubmit`; `freshId` stands for `crypto.randomUUID()` and is used
        only when the submission is appended. */
    method HandleTaskSubmit(sub: Submission, isEditing: bool, freshId: string)
      requires !(isEditing && sub.id.Some?) ==> !HasId(tasks, freshId)
      modifies this
      ensures tasks == AfterSubmit(old(tasks), sub, isEditing, freshId)
      ensures isLoading == old(isLoading)
    {
      tasks := AfterSubmit(tasks, sub, isEditing, freshId);
    }

    /** `handleDeleteTask`; `found` says whether a task with that id existed (the
        page then shows the deletion toast). */
    method HandleDeleteTask(id: string) returns (found: bool)
      modifies this
      ensures found <==> HasId(old(tasks), id)
      ensures tasks == DeleteById(old(tasks), id)
      ensures isLoading == old(isLoading)
    {
      found := HasId(tasks, id);
      tasks := DeleteById(tasks, id);
    }

    /** `handleUpdateTaskStatus`. */
    method HandleUpdateTaskStatus(id: string, s: TaskStatus)
      modifies this
      ensures tasks == SetStatusById(old(tasks), id, s)
      ensures isLoading == old(isLoading)
    {
      tasks := SetStatusById(tasks, id, s);
    }

    /** The list handed to the summary dialog: exactly the tasks that are not Done,
        in list order. */
    method DialogTasks() returns (open: seq<Task>)
      ensures open == OpenTasks(tasks)
      ensures forall t :: t in open <==> t in tasks && t.status != Done
      ensures forall t :: multiset(open)[t] == if t.status != Done then multiset(tasks)[t] else 0
      ensures IsSubsequence(open, tasks)
    {
      open := OpenTasks(tasks);
      OpenTasksOrder(tasks);
      KeepMultiset(tasks, IsOpen());
    }
  }

  /** The seed has six tasks under the six fresh ids, so its ids are unique; two
      are Todo, two InProgress and two Done. */
  lemma SeedShape(ids: seq<string>, today: Day)
    requires |ids| == 6 && Distinct(ids)
    ensures UniqueIds(Seed(ids, today))
    ensures |Bucket(Seed(ids, today), Todo)| == 2
    ensures |Bucket(Seed(ids, today), InProgress)| == 2
    ensures |Bucket(Seed(ids, today), Done)| == 2
  {
    var r := Seed(ids, today);
    var statuses := [r[0].status, r[1].status, r[2].status, r[3].status, r[4].status, r[5].status];
    assert statuses == [Todo, Todo, InProgress, InProgress, Done, Done];
    PairsPerStatus(r, Todo);
    PairsPerStatus(r, InProgress);
    PairsPerStatus(r, Done);
  }

  /** A six-task list whose statuses run Todo, Todo, InProgress, InProgress, Done,
      Done has two tasks in each bucket. */
  lemma PairsPerStatus(r: seq<Task>, st: TaskStatus)
    requires |r| == 6
    requires [r[0].status, r[1].status, r[2].status, r[3].status, r[4].status, r[5].status]
          == [Todo, Todo, InProgress, InProgress, Done, Done]
    ensures |Bucket(r, st)| == 2
  {
    var p := HasStatus(st);
    assert r == [r[0]] + ([r[1]] + ([r[2]] + ([r[3]] + ([r[4]] + ([r[5]] + [])))));
    KeepCons(r[5], [], p);
    KeepCons(r[4], [r[5]] + [], p);
    KeepCons(r[3], [r[4]] + ([r[5]] + []), p);
    KeepCons(r[2], [r[3]] + ([r[4]] + ([r[5]] + [])), p);
    KeepCons(r[1], [r[2]] + ([r[3]] + ([r[4]] + ([r[5]] + []))), p);
    KeepCons(r[0], [r[1]] + ([r[2]] + ([r[3]] + ([r[4]] + ([r[5]] + [])))), p);
  }

  /** Once loading is over, what the save effect writes loads back unchanged, so a
      reload restores the list; while loading nothing is written, and the next
      load then falls back to the seed. */
  lemma LoadAfterSave(tasks: seq<Task>, ids: seq<string>, today: Day)
    requires |ids| == 6
    ensures var w := Saved(tasks, false);
      w.Some? && Loaded(Parsed(w.value), ids, today) == tasks
    ensures Saved(tasks, true).None? && Loaded(Missing, ids, today) == Seed(ids, today)
  {
  }

  /** Create appends exactly one task, under the fresh id, after the unchanged old
      list, whatever the list holds; when the old ids are unique and the fresh id is
      unused, the ids stay unique. */
  lemma CreateAppends(tasks: seq<Task>, sub: Submission, isEditing: bool, freshId: string)
    requires !(isEditing && sub.id.Some?)
    ensures var r := AfterSubmit(tasks, sub, isEditing, freshId);
      |r| == |tasks| + 1 && r[..|tasks|] == tasks && r[|tasks|] == FromFields(freshId, sub.data)
    ensures UniqueIds(tasks) && !HasId(tasks, freshId) ==> UniqueIds(AfterSubmit(tasks, sub, isEditing, freshId))
  {
    var r := AfterSubmit(tasks, sub, isEditing, freshId);
    if !HasId(tasks, freshId) {
      forall i | 0 <= i < |tasks| ensures r[i].id != freshId {
        assert tasks[i] in tasks;
      }
    }
  }

  /** Update keeps the length, the order and every id, so it keeps ids unique; an
      id not in the list leaves the list unchanged. */
  lemma UpdateKeepsIds(tasks: seq<Task>, id: string, d: FormData)
    ensures var r := UpdateById(tasks, id, d);
      (forall i :: 0 <= i < |r| ==> r[i].id == tasks[i].id)
      && (UniqueIds(tasks) ==> UniqueIds(r))
      && (!HasId(tasks, id) ==> r == tasks)
  {
    var r := UpdateById(tasks, id, d);
    if !HasId(tasks, id) {
      forall i | 0 <= i < |tasks| ensures r[i] == tasks[i] {
        assert tasks[i] in tasks;
      }
    }
  }

  /** Set-status keeps every id and every other field; an absent id changes nothing. */
  lemma SetStatusKeepsFields(tasks: seq<Task>, id: string, s: TaskStatus)
    ensures var r := SetStatusById(tasks, id, s);
      (forall i :: 0 <= i < |r| ==> r[i].(status := tasks[i].status) == tasks[i])
      && (UniqueIds(tasks) ==> UniqueIds(r))
      && (!HasId(tasks, id) ==> r == tasks)
  {
    var r := SetStatusById(tasks, id, s);
    if !HasId(tasks, id) {
      forall i | 0 <= i < |tasks| ensures r[i] == tasks[i] {
        assert tasks[i] in tasks;
      }
    }
  }

  /** With unique ids, setting the status of a task in the list leaves exactly one
      task with that id, and it is the old task with the new status, whatever the
      old status was. */
  lemma SetStatusExactlyOne(tasks: seq<Task>, k: int, s: TaskStatus)
    requires UniqueIds(tasks) && 0 <= k < |tasks|
    ensures var r := SetStatusById(tasks, tasks[k].id, s);
      r[k] == tasks[k].(status := s)
      && forall j :: 0 <= j < |r| && r[j].id == tasks[k].id ==> j == k
  {
  }

  /** Delete removes every task with the id and keeps the others in order; an
      absent id is a no-op, so deleting twice is deleting once. */
  lemma DeleteProperties(tasks: seq<Task>, id: string)
    ensures !HasId(DeleteById(tasks, id), id)
    ensures UniqueIds(tasks) ==> UniqueIds(DeleteById(tasks, id))
    ensures IsSubsequence(DeleteById(tasks, id), tasks)
    ensures forall t :: multiset(DeleteById(tasks, id))[t] == if t.id != id then multiset(tasks)[t] else 0
    ensures !HasId(tasks, id) ==> DeleteById(tasks, id) == tasks
    ensures DeleteById(DeleteById(tasks, id), id) == DeleteById(tasks, id)
  {
    KeepIsSubsequence(tasks, IdIsNot(id));
    KeepMultiset(tasks, IdIsNot(id));
    KeepIdempotent(tasks, IdIsNot(id));
    if !HasId(tasks, id) {
      KeepAll(tasks, IdIsNot(id));
    }
    if UniqueIds(tasks) {
      KeepUnique(tasks, IdIsNot(id));
    }
  }

  /** Filtering a list with unique ids keeps its ids unique. */
  lemma {:induction false} KeepUnique(tasks: seq<Task>, p: Task -> bool)
    requires UniqueIds(tasks)
    ensures UniqueIds(Keep(tasks, p))
    decreases |tasks|
  {
    if tasks != [] {
      var rest := Keep(tasks[1..], p);
      KeepUnique(tasks[1..], p);
      if p(tasks[0]) {
        forall t | t in rest ensures t.id != tasks[0].id {
          var k :| 1 <= k < |tasks| && tasks[k] == t;
        }
        var r := [tasks[0]] + rest;
        forall i, j | 0 <= i < j < |r| ensures r[i].id != r[j].id {
          if i == 0 {
            assert r[j] in rest;
          } else {
            assert r[i] == rest[i - 1] && r[j] == rest[j - 1];
          }
        }
      }
    }
  }

  /** Submitting the edit form as it opens, tags untouched, rewrites the task with
      its own fields, turning a missing description into "" and missing tags into
      [], and leaves every other task as it was. */
  lemma EditRoundTrip(tasks: seq<Task>, k: int)
    requires UniqueIds(tasks) && 0 <= k < |tasks| && tasks[k].name != ""
    ensures TagsField in ValidateAsWritten(EditPrefill(tasks[k])).error
    ensures var t := tasks[k];
      Validate(EditPrefill(t)).Ok?
      && var (sub, isEditing) := Submit(Some(t), Validate(EditPrefill(t)).value);
      var r := AfterSubmit(tasks, sub, isEditing, "");
      |r| == |tasks|
      && r[k] == t.(description := Some(t.description.GetOr("")), tags := Some(t.tags.GetOr([])))
      && forall j :: 0 <= j < |tasks| && j != k ==> r[j] == tasks[j]
  {
    UntouchedTagsAccepted(tasks[k]);
  }

  /** Creating "Patrol Docks" with High priority, everything else left at the
      create-mode values, appends a Todo task of High priority under the fresh id. */
  lemma CreateScenario(tasks: seq<Task>, freshId: string)
    ensures ValidateAsWritten(CreateDefaults().(name := "Patrol Docks", priority := "High"))
      == Err({TagsField})
    ensures var v := CreateDefaults().(name := "Patrol Docks", priority := "High");
      Validate(v).Ok?
      && var (sub, isEditing) := Submit(None, Validate(v).value);
      AfterSubmit(tasks, sub, isEditing, freshId)
        == tasks + [Task(freshId, "Patrol Docks", Some(""), None, High, Todo, Some([]))]
  {
    var v := CreateDefaults().(name := "Patrol Docks", priority := "High");
    assert Rejected(v, TagsAccepted(v.tags)) == {};
    assert Rejected(v, TagsAsWritten(v.tags)) == {TagsField};
  }

  /** Dragging a task (its id is the drag payload) onto a column moves that task,
      and only it, to the column's status. */
  lemma DropMovesTask(tasks: seq<Task>, k: int, column: TaskStatus)
    requires UniqueIds(tasks) && 0 <= k < |tasks| && tasks[k].id != ""
    ensures var cmd := DropCommand(tasks[k].id, column);
      cmd.Some?
      && var r := SetStatusById(tasks, cmd.value.id, cmd.value.status);
      r[k] == tasks[k].(status := column)
      && forall j :: 0 <= j < |tasks| && j != k ==> r[j] == tasks[j]
  {
  }

  /** The dialog's open tasks split into the Todo and InProgress columns of the
      unfiltered board. */
  lemma {:induction false} OpenTasksAreTodoAndInProgress(tasks: seq<Task>)
    ensures multiset(OpenTasks(tasks)) == multiset(Bucket(tasks, Todo)) + multiset(Bucket(tasks, InProgress))
    decreases |tasks|
  {
    if tasks != [] {
      OpenTasksAreTodoAndInProgress(tasks[1..]);
      assert tasks == [tasks[0]] + tasks[1..];
    }
  }
}
