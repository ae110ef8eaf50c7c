/** The search filter and the three status columns of the board
    (src/components/task-board.tsx). */
module Board {
  import opened Wrappers
  import opened Types
  import opened Seqs
  import opened Text

  /** The columns of the board, in display order. */
  const Statuses: seq<TaskStatus> := [Todo, InProgress, Done]

  /** The search predicate: the lower-cased term occurs in the lower-cased name, in
      the lower-cased description when that is present and non-empty (an empty
      string is falsy), or in some lower-cased tag when tags are present. The
      empty term therefore matches every task. */
  predicate Matches(t: Task, term: string)
    ensures term == "" ==> Matches(t, term)
  {
    var q := Lower(term);
    Includes(Lower(t.name), q)
    || (t.description.Some? && t.description.value != "" && Includes(Lower(t.description.value), q))
    || (t.tags.Some? && exists tag :: tag in t.tags.value && Includes(Lower(tag), q))
  }

  /** `Matches` as a value, so that every filter with one term uses one predicate. */
  function MatchesTerm(term: string): Task -> bool {
    (t: Task) => Matches(t, term)
  }

  /** The filtered task list shown on the board. */
  function Filter(tasks: seq<Task>, term: string): (r: seq<Task>)
    ensures forall t :: t in r <==> t in tasks && Matches(t, term)
  {
    Keep(tasks, MatchesTerm(term))
  }

  function HasStatus(s: TaskStatus): Task -> bool {
    (t: Task) => t.status == s
  }

  /** The tasks of one column: those of `tasks` whose status is `s`, in order. */
  function Bucket(tasks: seq<Task>, s: TaskStatus): (r: seq<Task>)
    ensures forall t :: t in r <==> t in tasks && t.status == s
  {
    Keep(tasks, HasStatus(s))
  }

  /** The rendered board: one column per entry of `Statuses`, each holding the
      filtered tasks of that status. */
  function Columns(tasks: seq<Task>, term: string): (cols: seq<seq<Task>>)
    ensures |cols| == |Statuses|
    ensures forall i, t :: 0 <= i < |cols| ==>
      (t in cols[i] <==> t in tasks && Matches(t, term) && t.status == Statuses[i])
  {
    var f := Filter(tasks, term);
    [Bucket(f, Statuses[0]), Bucket(f, Statuses[1]), Bucket(f, Statuses[2])]
  }

  /** The independent reading of the search: a case-insensitive substring test on
      the name, the present non-empty description, or any present tag. */
  ghost predicate ContainsTerm(t: Task, term: string) {
    var q := Lower(term);
    (exists i :: OccursAt(Lower(t.name), q, i))
    || (t.description.Some? && t.description.value != "" && exists i :: OccursAt(Lower(t.description.value), q, i))
    || (t.tags.Some? && exists tag, i :: tag in t.tags.value && OccursAt(Lower(tag), q, i))
  }

  lemma {:induction false} MatchesIffSubstring(t: Task, term: string)
    ensures Matches(t, term) <==> ContainsTerm(t, term)
  {
    var q := Lower(term);
    IncludesIffOccurs(Lower(t.name), q);
    var inDescription := t.description.Some? && t.description.value != "" && Includes(Lower(t.description.value), q);
    if t.description.Some? {
      IncludesIffOccurs(Lower(t.description.value), q);
    }
    var inTags := t.tags.Some? && exists tag :: tag in t.tags.value && Includes(Lower(tag), q);
    var occursInTags := t.tags.Some? && exists tag, i :: tag in t.tags.value && OccursAt(Lower(tag), q, i);
    if inTags {
      var tag :| tag in t.tags.value && Includes(Lower(tag), q);
      IncludesIffOccurs(Lower(tag), q);
      var i :| OccursAt(Lower(tag), q, i);
    }
    if occursInTags {
      var tag, i :| tag in t.tags.value && OccursAt(Lower(tag), q, i);
      IncludesIffOccurs(Lower(tag), q);
    }
    assert inTags == occursInTags;
    assert Matches(t, term) == (Includes(Lower(t.name), q) || inDescription || inTags);
  }

  /** An absent (or empty) description and absent (or empty) tags contribute no
      match: only the name is searched. */
  lemma NameOnlyMatch(t: Task, term: string)
    requires t.description == None || t.description == Some("")
    requires t.tags == None || t.tags == Some([])
    ensures Matches(t, term) <==> Includes(Lower(t.name), Lower(term))
  {
  }

  /** An empty search term keeps every task, in order. */
  lemma {:induction false} FilterEmptyTerm(tasks: seq<Task>)
    ensures Filter(tasks, "") == tasks
  {
    forall t | t in tasks ensures MatchesTerm("")(t) {
      IncludesEmpty(Lower(t.name));
    }
    KeepAll(tasks, MatchesTerm(""));
  }

  /** The filtered list is a subsequence of the task list. */
  lemma FilterIsSubsequence(tasks: seq<Task>, term: string)
    ensures IsSubsequence(Filter(tasks, term), tasks)
  {
    KeepIsSubsequence(tasks, MatchesTerm(term));
  }

  /** The filter keeps every copy of a matching task and no copy of the others. */
  lemma FilterKeepsCopies(tasks: seq<Task>, term: string)
    ensures forall t :: multiset(Filter(tasks, term))[t] == if Matches(t, term) then multiset(tasks)[t] else 0
  {
    KeepMultiset(tasks, MatchesTerm(term));
  }

  /** Filtering the filtered list again with the same term changes nothing. */
  lemma FilterIdempotent(tasks: seq<Task>, term: string)
    ensures Filter(Filter(tasks, term), term) == Filter(tasks, term)
  {
    KeepIdempotent(tasks, MatchesTerm(term));
  }

  /** The three buckets of a list contain, together, exactly its tasks, each as
      often as in the list. */
  lemma {:induction false} BucketsCover(tasks: seq<Task>)
    ensures multiset(Bucket(tasks, Todo) + Bucket(tasks, InProgress) + Bucket(tasks, Done))
         == multiset(tasks)
    decreases |tasks|
  {
    if tasks != [] {
      var t, rest := tasks[0], tasks[1..];
      BucketsCover(rest);
      assert tasks == [t] + rest;
      var a, b, c := Bucket(rest, Todo), Bucket(rest, InProgress), Bucket(rest, Done);
      match t.status
      case Todo =>
        assert Bucket(tasks, Todo) == [t] + a;
        assert Bucket(tasks, InProgress) == b && Bucket(tasks, Done) == c;
      case InProgress =>
        assert Bucket(tasks, InProgress) == [t] + b;
        assert Bucket(tasks, Todo) == a && Bucket(tasks, Done) == c;
      case Done =>
        assert Bucket(tasks, Done) == [t] + c;
        assert Bucket(tasks, Todo) == a && Bucket(tasks, InProgress) == b;
    }
  }

  /** The board has three columns in the fixed order Todo, InProgress, Done; a
      filtered task is in a column exactly when the column's status is its status. */
  lemma ColumnOfTask(tasks: seq<Task>, term: string, t: Task, i: int)
    requires 0 <= i < 3
    ensures |Columns(tasks, term)| == 3 && Statuses == [Todo, InProgress, Done]
    ensures t in Columns(tasks, term)[i] <==> t in Filter(tasks, term) && Statuses[i] == t.status
  {
  }

  /** The columns are a disjoint cover of the filtered list: their concatenation
      is a permutation of it, so the column sizes add up to its length. */
  lemma ColumnsCover(tasks: seq<Task>, term: string)
    ensures var cols, f := Columns(tasks, term), Filter(tasks, term);
      multiset(cols[0] + cols[1] + cols[2]) == multiset(f)
      && |cols[0]| + |cols[1]| + |cols[2]| == |f|
  {
    var cols, f := Columns(tasks, term), Filter(tasks, term);
    BucketsCover(f);
    assert |multiset(cols[0] + cols[1] + cols[2])| == |cols[0] + cols[1] + cols[2]|;
  }

  /** Each column keeps the relative order of the filtered list. */
  lemma ColumnsKeepOrder(tasks: seq<Task>, term: string, i: int)
    requires 0 <= i < 3
    ensures IsSubsequence(Columns(tasks, term)[i], Filter(tasks, term))
  {
    KeepIsSubsequence(Filter(tasks, term), HasStatus(Statuses[i]));
  }
}
