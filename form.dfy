/** The task editor: its validation schema, its reset values per mode, and the
    payload it submits (src/components/task-form.tsx). */
module Form {
  import opened Wrappers
  import opened Types
  import opened Seqs
  import opened Text

  /** What the tags field holds: text the user typed, the array that the defaults
      and `form.reset` put there, or nothing at all. */
  datatype TagsValue = TagsText(text: string) | TagsArray(list: seq<string>) | TagsUnset

  /** The raw field state of the form. Priority and status are held as the strings
      the select widgets produce. */
  datatype FormValues = FormValues(
    name: string,
    description: string,
    dueDate: Option<Day>,
    priority: string,
    status: string,
    tags: TagsValue)

  /** The fields the schema can reject. */
  datatype Field = NameField | PriorityField | StatusField | TagsField

  /** The validated data the schema produces (also the payload without an id). */
  datatype FormData = FormData(
    name: string,
    description: string,
    dueDate: Option<Day>,
    priority: Priority,
    status: TaskStatus,
    tags: seq<string>)

  /** A submitted record: `id` is present exactly for an edit. */
  datatype Submission = Submission(id: Option<string>, data: FormData)

  predicate NonEmpty(s: string) { s != "" }

  /** `pieces.map(tag => tag.trim())`. */
  function TrimAll(pieces: seq<string>): (r: seq<string>)
    ensures |r| == |pieces|
    ensures forall i :: 0 <= i < |pieces| ==> r[i] == Trim(pieces[i])
  {
    seq(|pieces|, i requires 0 <= i < |pieces| => Trim(pieces[i]))
  }

  /** The tags transform: split the text on ',', trim each piece, drop the empty
      ones; an absent or empty text gives no tags. A tag is exactly a non-empty
      trimmed piece, so it carries no comma and no whitespace at either end; the
      tags keep the order of their pieces and appear as often as their pieces do. */
  function ParseTags(text: string): (tags: seq<string>)
    ensures forall tag :: tag in tags <==> tag != "" && exists p :: p in Split(text, ',') && tag == Trim(p)
    ensures forall tag :: tag in tags ==> ',' !in tag && !IsSpace(tag[0]) && !IsSpace(tag[|tag| - 1])
    ensures IsSubsequence(tags, TrimAll(Split(text, ',')))
    ensures multiset(tags) == multiset(TrimAll(Split(text, ',')))["" := 0]
  {
    if text == "" then
      assert Split(text, ',') == [""];
      assert Trim("") == "";
      assert TrimAll(Split(text, ',')) == [""];
      assert multiset([""])["" := 0] == multiset{};
      []
    else
      var trimmed := TrimAll(Split(text, ','));
      KeepIsSubsequence(trimmed, NonEmpty);
      DropEmptyMultiset(trimmed);
      Keep(trimmed, NonEmpty)
  }

  /** Dropping the empty strings removes every copy of "" and nothing else. */
  lemma DropEmptyMultiset(s: seq<string>)
    ensures multiset(Keep(s, NonEmpty)) == multiset(s)["" := 0]
  {
    KeepMultiset(s, NonEmpty);
  }

  /** The tags rule of the schema as written, `z.string().optional()`: an array in
      the field is a type error. */
  function TagsAsWritten(v: TagsValue): (r: Option<seq<string>>)
    ensures v.TagsArray? <==> r.None?
  {
    match v
    case TagsText(s) => Some(ParseTags(s))
    case TagsArray(_) => None
    case TagsUnset => Some([])
  }

  /** The tags rule as the form evidently intends it: an untouched array is kept. */
  function TagsAccepted(v: TagsValue): (r: Option<seq<string>>)
    ensures r.Some?
    ensures v.TagsArray? ==> r.value == v.list
    ensures !v.TagsArray? ==> r == TagsAsWritten(v)
  {
    match v
    case TagsArray(list) => Some(list)
    case _ => TagsAsWritten(v)
  }

  /** The fields the schema rejects, given the outcome of the tags rule. */
  function Rejected(v: FormValues, tags: Option<seq<string>>): set<Field> {
    (if |v.name| < 1 then {NameField} else {})
    + (if ParsePriority(v.priority).None? then {PriorityField} else {})
    + (if ParseStatus(v.status).None? then {StatusField} else {})
    + (if tags.None? then {TagsField} else {})
  }

  /** Runs the schema with the given outcome of the tags rule. */
  function Check(v: FormValues, tags: Option<seq<string>>): (r: Result<FormData, set<Field>>)
    ensures r.Ok? <==> Rejected(v, tags) == {}
    ensures r.Err? ==> r.error == Rejected(v, tags)
    ensures r.Ok? ==>
      (r.value.name == v.name && r.value.description == v.description
       && r.value.dueDate == v.dueDate && r.value.tags == tags.value
       && PriorityName(r.value.priority) == v.priority && StatusName(r.value.status) == v.status)
  {
    var errors := Rejected(v, tags);
    if errors != {} then Err(errors)
    else Ok(FormData(v.name, v.description, v.dueDate,
                     ParsePriority(v.priority).value, ParseStatus(v.status).value, tags.value))
  }

  /** The schema as written: it agrees with the corrected schema except that an
      array in the tags field is always rejected. */
  function ValidateAsWritten(v: FormValues): (r: Result<FormData, set<Field>>)
    ensures v.tags.TagsArray? ==> r.Err? && TagsField in r.error
    ensures !v.tags.TagsArray? ==> r == Validate(v)
  {
    Check(v, TagsAsWritten(v.tags))
  }

  /** The schema with the tags rule corrected; the rest of the model uses this one.
      It never rejects the tags, and it keeps an untouched array as the tags. */
  function Validate(v: FormValues): (r: Result<FormData, set<Field>>)
    ensures r.Err? ==> TagsField !in r.error
    ensures r.Ok? && v.tags.TagsArray? ==> r.value.tags == v.tags.list
    ensures r.Ok? && v.tags.TagsText? ==> r.value.tags == ParseTags(v.tags.text)
  {
    Check(v, TagsAccepted(v.tags))
  }

  /** The name rule: only the empty name is rejected; it is not trimmed, so a name
      of spaces passes. Priority and status pass exactly when they name a member
      of their enumeration. The corrected schema accepts any tags value; the
      schema as written also needs the tags field not to hold an array. */
  lemma ValidateFields(v: FormValues)
    ensures Validate(v).Ok? <==>
      |v.name| >= 1
      && (v.priority == "Low" || v.priority == "Medium" || v.priority == "High")
      && (v.status == "Todo" || v.status == "InProgress" || v.status == "Done")
    ensures Validate(v).Err? ==>
      (NameField in Validate(v).error <==> v.name == "")
      && TagsField !in Validate(v).error
    ensures ValidateAsWritten(v).Ok? <==> Validate(v).Ok? && !v.tags.TagsArray?
  {
  }

  /** The values of the form in create mode: the defaults and the reset both use them. */
  function CreateDefaults(): (v: FormValues)
    ensures v.name == "" && v.description == "" && v.dueDate == None
    ensures ParsePriority(v.priority) == Some(Medium) && ParseStatus(v.status) == Some(Todo)
    ensures v.tags == TagsArray([])
  {
    FormValues("", "", None, "Medium", "Todo", TagsArray([]))
  }

  /** The values of the form in edit mode: the task's fields, a missing description
      becoming "" and missing tags becoming []. */
  function EditPrefill(t: Task): (v: FormValues)
    ensures v.name == t.name && v.dueDate == t.dueDate
    ensures v.description == (if t.description.Some? then t.description.value else "")
    ensures ParsePriority(v.priority) == Some(t.priority) && ParseStatus(v.status) == Some(t.status)
    ensures v.tags == TagsArray(if t.tags.Some? then t.tags.value else [])
  {
    FormValues(t.name, t.description.GetOr(""), t.dueDate,
               PriorityName(t.priority), StatusName(t.status), TagsArray(t.tags.GetOr([])))
  }

  /** The submit handler: the edited task's id is attached in edit mode and only
      then; the second component is the `isEditing` flag. */
  function Submit(taskToEdit: Option<Task>, data: FormData): (r: (Submission, bool))
    ensures r.1 <==> taskToEdit.Some?
    ensures r.0.id.Some? <==> taskToEdit.Some?
    ensures taskToEdit.Some? ==> r.0.id == Some(taskToEdit.value.id)
    ensures r.0.data == data
  {
    match taskToEdit
    case Some(t) => (Submission(Some(t.id), data), true)
    case None => (Submission(None, data), false)
  }

  /** The form's field state, overwritten by `form.reset` when the dialog opens. */
  class TaskForm {
    var values: FormValues

    constructor ()
      ensures values == CreateDefaults()
    {
      values := CreateDefaults();
    }

    /** The reset effect: on open, prefill from the task in edit mode, restore the
        defaults in create mode; while closed, leave the fields alone. */
    method Reset(isOpen: bool, taskToEdit: Option<Task>)
      modifies this
      ensures !isOpen ==> values == old(values)
      ensures isOpen && taskToEdit.Some? ==> values == EditPrefill(taskToEdit.value)
      ensures isOpen && taskToEdit.None? ==> values == CreateDefaults()
    {
      if isOpen && taskToEdit.Some? {
        values := EditPrefill(taskToEdit.value);
      } else if isOpen && taskToEdit.None? {
        values := CreateDefaults();
      }
    }

    /** `form.handleSubmit(handleSubmit)`: validate the fields, and submit only when
        they pass; otherwise report the rejected fields. */
    method HandleSubmit(taskToEdit: Option<Task>) returns (r: Result<(Submission, bool), set<Field>>)
      ensures r.Err? <==> Validate(values).Err?
      ensures r.Err? ==> r.error == Validate(values).error && r.error != {}
      ensures r.Ok? ==> r.value.0.data == Validate(values).value
      ensures r.Ok? ==> (r.value.1 <==> taskToEdit.Some?)
      ensures r.Ok? && taskToEdit.Some? ==> r.value.0.id == Some(taskToEdit.value.id)
      ensures r.Ok? && taskToEdit.None? ==> r.value.0.id == None
    {
      var checked := Validate(values);
      if checked.Err? {
        r := Err(checked.error);
      } else {
        r := Ok(Submit(taskToEdit, checked.value));
      }
    }
  }

  /** An empty tags text gives no tags. */
  lemma ParseTagsEmpty()
    ensures ParseTags("") == []
    ensures TagsAsWritten(TagsUnset) == Some([])
  {
  }

  /** The tags field shows an array as `value.join(', ')`; parsing that text gives
      the array back whenever its tags are non-empty, comma-free and trimmed, so
      retyping nothing but what is shown keeps the tags. */
  lemma ParseJoinedTags(tags: seq<string>)
    requires forall tag :: tag in tags ==>
      tag != "" && ',' !in tag && !IsSpace(tag[0]) && !IsSpace(tag[|tag| - 1])
    ensures ParseTags(Join(tags, ", ")) == tags
  {
    if tags != [] {
      var text := Join(tags, ", ");
      assert tags[0] in tags;
      assert text[..|tags[0]|] == tags[0];
      TrimJoinedPieces(tags);
      KeepAll(tags, NonEmpty);
    }
  }

  /** The pieces of the joined text trim back to the tags. */
  lemma TrimJoinedPieces(tags: seq<string>)
    requires tags != []
    requires forall tag :: tag in tags ==>
      tag != "" && ',' !in tag && !IsSpace(tag[0]) && !IsSpace(tag[|tag| - 1])
    ensures TrimAll(Split(Join(tags, ", "), ',')) == tags
  {
    assert [','] + " " == ", ";
    SplitJoin(tags, ',', " ");
    TrimPaddedPieces(tags, Split(Join(tags, ", "), ','));
  }

  /** Trimming the first tag and the others behind one space gives the tags back. */
  lemma TrimPaddedPieces(tags: seq<string>, pieces: seq<string>)
    requires tags != []
    requires forall tag :: tag in tags ==>
      tag != "" && !IsSpace(tag[0]) && !IsSpace(tag[|tag| - 1])
    requires |pieces| == |tags| && pieces[0] == tags[0]
    requires forall i :: 1 <= i < |tags| ==> pieces[i] == " " + tags[i]
    ensures TrimAll(pieces) == tags
  {
    forall i | 0 <= i < |tags| ensures Trim(pieces[i]) == tags[i] {
      TrimPaddedPiece(tags, pieces, i);
    }
  }

  lemma TrimPaddedPiece(tags: seq<string>, pieces: seq<string>, i: int)
    requires 0 <= i < |tags|
    requires forall tag :: tag in tags ==>
      tag != "" && !IsSpace(tag[0]) && !IsSpace(tag[|tag| - 1])
    requires |pieces| == |tags| && pieces[0] == tags[0]
    requires forall i :: 1 <= i < |tags| ==> pieces[i] == " " + tags[i]
    ensures Trim(pieces[i]) == tags[i]
  {
    assert tags[i] in tags;
    if i == 0 {
      assert pieces[0] == "" + tags[0];
      TrimmedTag(tags[0], "");
    } else {
      TrimmedTag(tags[i], " ");
    }
  }

  /** A trimmed tag behind whitespace trims to itself. */
  lemma TrimmedTag(tag: string, pad: string)
    requires tag != [] && !IsSpace(tag[0]) && !IsSpace(tag[|tag| - 1])
    requires forall k :: 0 <= k < |pad| ==> IsSpace(pad[k])
    ensures Trim(pad + tag) == tag
  {
    var s := pad + tag;
    assert s[|pad|..|pad| + |tag|] == tag;
    TrimCharacterised(s, tag, |pad|);
  }

  /** Create mode cannot be submitted as it opens: the corrected schema rejects the
      empty name only, the schema as written the empty name and the array tags. */
  lemma DefaultsRejectName()
    ensures Validate(CreateDefaults()) == Err({NameField})
    ensures ValidateAsWritten(CreateDefaults()) == Err({NameField, TagsField})
  {
    assert Rejected(CreateDefaults(), TagsAccepted(TagsArray([]))) == {NameField};
    assert Rejected(CreateDefaults(), TagsAsWritten(TagsArray([]))) == {NameField, TagsField};
  }

  /** As written, the schema rejects every form whose tags field was left as the
      array the reset put there: an edit that leaves tags untouched, and a create
      whose name was typed but whose tags were not. */
  lemma UntouchedTagsRejectedAsWritten(t: Task, name: string)
    ensures TagsField in ValidateAsWritten(EditPrefill(t)).error
    ensures TagsField in ValidateAsWritten(CreateDefaults().(name := name)).error
  {
  }

  /** With the corrected rule, the untouched edit form validates back to the task's
      own fields whenever the task has a name. */
  lemma UntouchedTagsAccepted(t: Task)
    requires t.name != ""
    ensures Validate(EditPrefill(t)) ==
      Ok(FormData(t.name, t.description.GetOr(""), t.dueDate, t.priority, t.status, t.tags.GetOr([])))
  {
    var v := EditPrefill(t);
    assert Rejected(v, TagsAccepted(v.tags)) == {};
  }
}
