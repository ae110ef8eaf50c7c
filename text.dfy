/** The string primitives the board and the form rely on: `toLowerCase` (ASCII
    letters only), `includes`, `split` on one separator character and `trim`. */
module Text {

  /** The characters JavaScript's `String.prototype.trim` removes: the ECMAScript
      WhiteSpace and LineTerminator code points. */
  predicate IsSpace(c: char) {
    c == ' ' || c == '\t' || c == '\n' || c == '\r' || c == '\U{000B}' || c == '\U{000C}'
    || c == '\U{00A0}' || c == '\U{1680}' || ('\U{2000}' <= c <= '\U{200A}')
    || c == '\U{2028}' || c == '\U{2029}' || c == '\U{202F}' || c == '\U{205F}'
    || c == '\U{3000}' || c == '\U{FEFF}'
  }

  function LowerChar(c: char): (d: char)
    ensures 'A' <= c <= 'Z' ==> 'a' <= d <= 'z' && d as int - c as int == 32
    ensures !('A' <= c <= 'Z') ==> d == c
  {
    if 'A' <= c <= 'Z' then (c as int + 32) as char else c
  }

  /** Lower-cases every character, position by position. */
  function Lower(s: string): (r: string)
    ensures |r| == |s|
    ensures forall i :: 0 <= i < |s| ==> r[i] == LowerChar(s[i])
  {
    if s == [] then [] else [LowerChar(s[0])] + Lower(s[1..])
  }

  /** `needle` occurs in `s` starting at position `i`. */
  predicate OccursAt(s: string, needle: string, i: int) {
    0 <= i && i + |needle| <= |s| && s[i..i + |needle|] == needle
  }

  /** JavaScript's `s.includes(needle)`: scan for a position where `needle` starts. */
  function Includes(s: string, needle: string): bool
    decreases |s|
  {
    if |needle| <= |s| && s[..|needle|] == needle then true
    else if s == [] then false
    else Includes(s[1..], needle)
  }

  /** `Includes` finds exactly the occurrences `OccursAt` describes. */
  lemma {:induction false} IncludesIffOccurs(s: string, needle: string)
    ensures Includes(s, needle) <==> exists i :: OccursAt(s, needle, i)
    decreases |s|
  {
    if |needle| <= |s| && s[..|needle|] == needle {
      assert OccursAt(s, needle, 0);
    } else if s != [] {
      IncludesIffOccurs(s[1..], needle);
      if exists i :: OccursAt(s[1..], needle, i) {
        var i :| OccursAt(s[1..], needle, i);
        OccursShift(s, needle, i + 1);
      }
      if exists i :: OccursAt(s, needle, i) {
        var i :| OccursAt(s, needle, i);
        assert i != 0;
        OccursShift(s, needle, i);
      }
    }
  }

  /** An occurrence at a positive position of `s` is an occurrence one position
      earlier in the tail of `s`, and conversely. */
  lemma OccursShift(s: string, needle: string, i: int)
    requires s != [] && 1 <= i
    ensures OccursAt(s, needle, i) <==> OccursAt(s[1..], needle, i - 1)
  {
    if i + |needle| <= |s| {
      assert s[1..][i - 1..i - 1 + |needle|] == s[i..i + |needle|];
    }
  }

  /** The empty string occurs in every string. */
  lemma IncludesEmpty(s: string)
    ensures Includes(s, "")
  {
  }

  /** JavaScript's `s.split(sep)` for a one-character separator: the pieces between
      separators, including empty ones; the empty string gives one empty piece. */
  function Split(s: string, sep: char): (r: seq<string>)
    ensures |r| >= 1
    ensures forall p :: p in r ==> sep !in p
  {
    if s == [] then [[]]
    else
      var rest := Split(s[1..], sep);
      if s[0] == sep then [[]] + rest
      else [[s[0]] + rest[0]] + rest[1..]
  }

  /** JavaScript's `pieces.join(sep)`: the pieces glued together with `sep`
      between neighbours. */
  function Join(pieces: seq<string>, sep: string): string
  {
    if pieces == [] then []
    else if |pieces| == 1 then pieces[0]
    else pieces[0] + sep + Join(pieces[1..], sep)
  }

  /** Splitting loses nothing: joining the pieces with the separator restores the
      input. */
  lemma {:induction false} JoinSplit(s: string, sep: char)
    ensures Join(Split(s, sep), [sep]) == s
  {
    if s != [] {
      var rest := Split(s[1..], sep);
      JoinSplit(s[1..], sep);
      if s[0] == sep {
        assert Split(s, sep) == [[]] + rest;
        assert ([[]] + rest)[1..] == rest;
        assert s == [] + [sep] + s[1..];
      } else {
        var r := [[s[0]] + rest[0]] + rest[1..];
        assert Split(s, sep) == r;
        assert r[1..] == rest[1..];
        if |rest| == 1 {
          assert Join(rest, [sep]) == rest[0];
        } else {
          assert Join(rest, [sep]) == rest[0] + [sep] + Join(rest[1..], [sep]);
        }
        assert s == [s[0]] + s[1..];
      }
    }
  }

  /** A separator-free prefix extends the first piece of the split. */
  lemma {:induction false} SplitPrefix(a: string, x: string, sep: char)
    requires sep !in a
    ensures Split(a + x, sep) == [a + Split(x, sep)[0]] + Split(x, sep)[1..]
    decreases |a|
  {
    if a != [] {
      SplitPrefix(a[1..], x, sep);
      assert (a + x)[0] == a[0] && (a + x)[1..] == a[1..] + x;
      assert [a[0]] + (a[1..] + Split(x, sep)[0]) == a + Split(x, sep)[0];
    } else {
      var r := Split(x, sep);
      assert a + x == x && a + r[0] == r[0];
      assert r == [r[0]] + r[1..];
    }
  }

  /** Splitting the pieces joined with the separator followed by a separator-free
      padding gives back the first piece and the padded others. */
  lemma {:induction false} SplitJoin(pieces: seq<string>, sep: char, pad: string)
    requires pieces != [] && sep !in pad
    requires forall p :: p in pieces ==> sep !in p
    ensures var r := Split(Join(pieces, [sep] + pad), sep);
      |r| == |pieces| && r[0] == pieces[0]
      && forall i :: 1 <= i < |pieces| ==> r[i] == pad + pieces[i]
    decreases |pieces|
  {
    if |pieces| == 1 {
      SplitPrefix(pieces[0], [], sep);
      assert pieces[0] + [] == pieces[0];
    } else {
      var rest := pieces[1..];
      var j := Join(rest, [sep] + pad);
      SplitJoin(rest, sep, pad);
      assert rest[0] in pieces;
      assert Join(pieces, [sep] + pad) == pieces[0] + ([sep] + pad) + j;
      SplitGlued(pieces[0], pad, j, sep);
    }
  }

  /** Splitting `a`, the separator, `pad` and `x` in a row, with neither `a` nor
      `pad` holding the separator, gives `a`, then `pad` in front of the first
      piece of `x`, then the other pieces of `x`. */
  lemma SplitGlued(a: string, pad: string, x: string, sep: char)
    requires sep !in a && sep !in pad
    ensures var r := Split(x, sep);
      Split(a + ([sep] + pad) + x, sep) == [a] + ([pad + r[0]] + r[1..])
  {
    SplitPrefix(pad, x, sep);
    assert [sep] + (pad + x) == ([sep] + pad) + x;
    assert Split([sep] + (pad + x), sep) == [[]] + Split(pad + x, sep);
    SplitPrefix(a, [sep] + (pad + x), sep);
    assert a + ([sep] + pad) + x == a + ([sep] + (pad + x));
    assert a + [] == a;
  }

  /** Drops leading whitespace. */
  function TrimStart(s: string): (r: string)
    ensures |r| <= |s| && r == s[|s| - |r|..]
    ensures forall k :: 0 <= k < |s| - |r| ==> IsSpace(s[k])
    ensures r == [] || !IsSpace(r[0])
  {
    if s != [] && IsSpace(s[0]) then TrimStart(s[1..]) else s
  }

  /** Drops trailing whitespace. */
  function TrimEnd(s: string): (r: string)
    ensures |r| <= |s| && r == s[..|r|]
    ensures forall k :: |r| <= k < |s| ==> IsSpace(s[k])
    ensures r == [] || !IsSpace(r[|r| - 1])
  {
    if s != [] && IsSpace(s[|s| - 1]) then TrimEnd(s[..|s| - 1]) else s
  }

  /** JavaScript's `s.trim()`: a contiguous slice of `s` with no whitespace at
      either end, all of whose removed characters are whitespace. */
  function Trim(s: string): (r: string)
    ensures exists i :: TrimmedAt(s, r, i)
    ensures forall c :: c in r ==> c in s
  {
    TrimBothEnds(s);
    TrimEnd(TrimStart(s))
  }

  /** Trimming the start and then the end removes whitespace only, and leaves the
      slice that starts where the leading whitespace stops. */
  lemma TrimBothEnds(s: string)
    ensures var r := TrimEnd(TrimStart(s));
      TrimmedAt(s, r, |s| - |TrimStart(s)|) && forall c :: c in r ==> c in s
  {
    var a := TrimStart(s);
    var b := TrimEnd(a);
    var i := |s| - |a|;
    PrefixOfSuffix(s, a, b, i);
    TrailingSpace(s, a, b, i);
    OccursChars(s, b, i);
  }

  /** A prefix of the suffix of `s` from `i` occurs in `s` at `i`. */
  lemma PrefixOfSuffix(s: string, a: string, b: string, i: int)
    requires 0 <= i <= |s| && a == s[i..] && |b| <= |a| && b == a[..|b|]
    ensures OccursAt(s, b, i) && (b != [] ==> b[0] == a[0])
  {
    assert s[i..i + |b|] == s[i..][..|b|];
  }

  /** Every character of a slice is a character of the whole. */
  lemma OccursChars(s: string, r: string, i: int)
    requires OccursAt(s, r, i)
    ensures forall c :: c in r ==> c in s
  {
    forall c | c in r ensures c in s {
      var k :| 0 <= k < |r| && r[k] == c;
      assert s[i + k] == c;
    }
  }

  /** What `TrimEnd` removes from a suffix of `s` is whitespace of `s`. */
  lemma TrailingSpace(s: string, a: string, b: string, i: int)
    requires 0 <= i <= |s| && a == s[i..] && b == TrimEnd(a)
    ensures forall k :: i + |b| <= k < |s| ==> IsSpace(s[k])
  {
    forall k | i + |b| <= k < |s| ensures IsSpace(s[k]) {
      assert s[k] == a[k - i];
    }
  }

  /** `r` is `s` with the whitespace before position `i` and after `r` removed, and
      `r` neither starts nor ends with whitespace. */
  predicate TrimmedAt(s: string, r: string, i: int) {
    OccursAt(s, r, i)
    && (forall k :: 0 <= k < i ==> IsSpace(s[k]))
    && (forall k :: i + |r| <= k < |s| ==> IsSpace(s[k]))
    && (r == [] || (!IsSpace(r[0]) && !IsSpace(r[|r| - 1])))
  }

  /** Only one slice of `s` is trimmed in that sense, so `Trim` is the only function
      with its contract: any such slice is `Trim(s)`. */
  lemma TrimCharacterised(s: string, r: string, i: int)
    requires TrimmedAt(s, r, i)
    ensures r == Trim(s)
  {
    var t := Trim(s);
    var j :| TrimmedAt(s, t, j);
    if r != [] {
      assert s[i] == r[0] && s[i + |r| - 1] == r[|r| - 1];
    }
    if t != [] {
      assert s[j] == t[0] && s[j + |t| - 1] == t[|t| - 1];
    }
    assert r != [] && t != [] ==> i == j && |r| == |t|;
  }
}
