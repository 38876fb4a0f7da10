/** Strings as character sequences: joining, splitting at a character, trimming. */
module Text {

  function Join(parts: seq<string>, sep: string): string {
    if parts == [] then ""
    else if |parts| == 1 then parts[0]
    else parts[0] + sep + Join(parts[1..], sep)
  }

  /** The pieces between the separators; one more than there are separators. */
  function Split(s: string, sep: char): (parts: seq<string>)
    ensures |parts| >= 1
  {
    if s == "" then [""] else Before(s[0], Split(s[1..], sep), sep)
  }

  /** The pieces of a text with one more character in front. */
  function Before(c: char, parts: seq<string>, sep: char): (r: seq<string>)
    requires parts != []
    ensures |r| >= 1
  {
    if c == sep then [""] + parts else [[c] + parts[0]] + parts[1..]
  }

  lemma {:induction false} BeforeConcat(c: char, xs: seq<string>, ys: seq<string>, sep: char)
    requires xs != []
    ensures Before(c, xs + ys, sep) == Before(c, xs, sep) + ys
  {
    assert (xs + ys)[1..] == xs[1..] + ys;
  }

  predicate Free(s: string, c: char) {
    c !in s
  }

  predicate AllFree(parts: seq<string>, c: char) {
    forall p :: p in parts ==> Free(p, c)
  }

  lemma {:induction false} SplitFree(s: string, sep: char)
    requires Free(s, sep)
    ensures Split(s, sep) == [s]
  {
    if s != "" {
      SplitFree(s[1..], sep);
      assert [s[0]] + s[1..] == s;
    }
  }

  /** Splitting cuts at every separator. */
  lemma {:induction false} SplitAt(a: string, b: string, sep: char)
    ensures Split(a + [sep] + b, sep) == Split(a, sep) + Split(b, sep)
  {
    var s := a + [sep] + b;
    if a == "" {
      assert s[1..] == b;
    } else {
      assert s[1..] == a[1..] + [sep] + b;
      SplitAt(a[1..], b, sep);
      BeforeConcat(a[0], Split(a[1..], sep), Split(b, sep), sep);
    }
  }

  lemma {:induction false} SplitFirst(a: string, b: string, sep: char)
    requires Free(a, sep)
    ensures Split(a + [sep] + b, sep) == [a] + Split(b, sep)
  {
    SplitAt(a, b, sep);
    SplitFree(a, sep);
  }

  /** Splitting undoes joining. */
  lemma {:induction false} SplitJoin(parts: seq<string>, sep: char)
    requires parts != [] && AllFree(parts, sep)
    ensures Split(Join(parts, [sep]), sep) == parts
  {
    if |parts| == 1 {
      SplitFree(parts[0], sep);
    } else {
      var rest := parts[1..];
      assert parts[0] in parts && forall p :: p in rest ==> p in parts;
      SplitJoin(rest, sep);
      SplitFirst(parts[0], Join(rest, [sep]), sep);
      assert parts == [parts[0]] + rest;
    }
  }

  lemma {:induction false} JoinBefore(c: char, parts: seq<string>, sep: char)
    requires parts != []
    ensures Join(Before(c, parts, sep), [sep]) == [c] + Join(parts, [sep])
  {
    var r := Before(c, parts, sep);
    if c == sep {
      assert r[1..] == parts;
    } else {
      assert r[1..] == parts[1..] && r[0] == [c] + parts[0];
    }
  }

  lemma {:induction false} BeforeIsFree(c: char, parts: seq<string>, sep: char)
    requires parts != [] && AllFree(parts, sep)
    ensures AllFree(Before(c, parts, sep), sep)
  {
    assert parts[0] in parts && Free(parts[0], sep);
    forall p | p in Before(c, parts, sep)
      ensures Free(p, sep)
    {
      assert p == "" || p == [c] + parts[0] || p in parts;
    }
  }

  /** Joining undoes splitting, and no piece holds a separator. */
  lemma {:induction false} JoinSplit(s: string, sep: char)
    ensures AllFree(Split(s, sep), sep)
    ensures Join(Split(s, sep), [sep]) == s
  {
    if s != "" {
      JoinSplit(s[1..], sep);
      JoinBefore(s[0], Split(s[1..], sep), sep);
      BeforeIsFree(s[0], Split(s[1..], sep), sep);
    }
  }

  lemma {:induction false} JoinConcat(xs: seq<string>, ys: seq<string>, sep: string)
    requires xs != [] && ys != []
    ensures Join(xs + ys, sep) == Join(xs, sep) + sep + Join(ys, sep)
  {
    if |xs| == 1 {
      assert (xs + ys)[1..] == ys;
    } else {
      JoinConcat(xs[1..], ys, sep);
      assert (xs + ys)[1..] == xs[1..] + ys;
    }
  }

  lemma {:induction false} JoinFree(parts: seq<string>, sep: string, c: char)
    requires AllFree(parts, c) && Free(sep, c)
    ensures Free(Join(parts, sep), c)
  {
    if parts != [] {
      assert parts[0] in parts;
      JoinFree(parts[1..], sep, c);
    }
  }

  // ── Trimming ──

  function TrimStart(s: string, space: char -> bool): (t: string)
    ensures t == "" || !space(t[0])
    ensures |t| <= |s| && t == s[|s| - |t|..]
  {
    if s != "" && space(s[0]) then TrimStart(s[1..], space) else s
  }

  function TrimEnd(s: string, space: char -> bool): (t: string)
    ensures t == "" || !space(t[|t| - 1])
    ensures |t| <= |s| && t == s[..|t|]
  {
    if s != "" && space(s[|s| - 1]) then TrimEnd(s[..|s| - 1], space) else s
  }

  function Trim(s: string, space: char -> bool): (t: string)
    ensures t == "" || (!space(t[0]) && !space(t[|t| - 1]))
  {
    TrimEnd(TrimStart(s, space), space)
  }

  predicate NoSpace(s: string, space: char -> bool) {
    forall c :: c in s ==> !space(c)
  }

  predicate AllSpace(s: string, space: char -> bool) {
    forall c :: c in s ==> space(c)
  }

  lemma {:induction false} TrimAllSpace(s: string, space: char -> bool)
    requires AllSpace(s, space)
    ensures TrimStart(s, space) == ""
  {
    if s != "" {
      TrimAllSpace(s[1..], space);
    }
  }

  lemma {:induction false} TrimStartPadded(before: string, s: string, space: char -> bool)
    requires AllSpace(before, space)
    ensures TrimStart(before + s, space) == TrimStart(s, space)
  {
    if before == "" {
      assert before + s == s;
    } else {
      TrimStartPadded(before[1..], s, space);
      assert (before + s)[1..] == before[1..] + s;
      assert (before + s)[0] in before;
    }
  }

  lemma {:induction false} TrimEndPadded(s: string, after: string, space: char -> bool)
    requires AllSpace(after, space) && s != "" && !space(s[|s| - 1])
    ensures TrimEnd(s + after, space) == s
  {
    if after == "" {
      assert s + after == s;
    } else {
      var n := |after| - 1;
      TrimEndPadded(s, after[..n], space);
      assert (s + after)[..|s + after| - 1] == s + after[..n];
      assert after[n] in after;
    }
  }

  lemma {:induction false} TrimEndKeepsStart(s: string, space: char -> bool)
    requires s != "" && !space(s[0])
    ensures TrimEnd(s, space) != "" && TrimEnd(s, space) <= s
  {
    if space(s[|s| - 1]) {
      TrimEndKeepsStart(s[..|s| - 1], space);
    }
  }

  /** Trimming removes padding and nothing else. */
  lemma {:induction false} TrimPadded(before: string, s: string, after: string, space: char -> bool)
    requires AllSpace(before, space) && AllSpace(after, space)
    requires s == "" || (!space(s[0]) && !space(s[|s| - 1]))
    ensures Trim(before + s + after, space) == s
  {
    assert before + s + after == before + (s + after);
    TrimStartPadded(before, s + after, space);
    if s == "" {
      assert s + after == after;
      TrimAllSpace(after, space);
    } else {
      TrimEndPadded(s, after, space);
    }
  }

  /** The length of the leading run of white space. */
  function SpaceRun(s: string, space: char -> bool): (n: nat)
    ensures n <= |s|
    ensures forall i :: 0 <= i < n ==> space(s[i])
    ensures n < |s| ==> !space(s[n])
  {
    if s != "" && space(s[0]) then 1 + SpaceRun(s[1..], space) else 0
  }

  lemma {:induction false} SpaceRunOf(gap: string, rest: string, space: char -> bool)
    requires AllSpace(gap, space) && (rest != "" ==> !space(rest[0]))
    ensures SpaceRun(gap + rest, space) == |gap|
  {
    if gap == "" {
      assert gap + rest == rest;
    } else {
      assert (gap + rest)[1..] == gap[1..] + rest;
      SpaceRunOf(gap[1..], rest, space);
      assert gap[0] in gap;
    }
  }
}
