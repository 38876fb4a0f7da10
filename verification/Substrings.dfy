/** Occurrences of one string in another, and replacing them. */
module Substrings {
  import opened Text

  predicate OccursAt(s: string, sub: string, i: nat) {
    i <= |s| && sub <= s[i..]
  }

  predicate Contains(s: string, sub: string) {
    sub <= s || (s != "" && Contains(s[1..], sub))
  }

  lemma {:induction false} ContainsIff(s: string, sub: string)
    ensures Contains(s, sub) <==> exists i :: 0 <= i <= |s| && OccursAt(s, sub, i)
  {
    assert s[0..] == s;
    assert sub <= s ==> OccursAt(s, sub, 0);
    if s != "" {
      ContainsIff(s[1..], sub);
      assert forall i :: 0 <= i < |s| ==> s[1..][i..] == s[i + 1..];
      assert forall i :: 0 <= i < |s| ==> (OccursAt(s[1..], sub, i) <==> OccursAt(s, sub, i + 1));
      if i :| 0 <= i <= |s| && OccursAt(s, sub, i) {
        assert i > 0 ==> OccursAt(s[1..], sub, i - 1);
      }
    }
  }

  /** All occurrences replaced, from left to right, without overlap. */
  function Replace(s: string, sub: string, repl: string): string
    requires sub != ""
    decreases |s|
  {
    if |s| < |sub| then s
    else if sub <= s then repl + Replace(s[|sub|..], sub, repl)
    else [s[0]] + Replace(s[1..], sub, repl)
  }

  lemma {:induction false} ReplaceNothing(s: string, sub: string, repl: string)
    requires sub != "" && !Contains(s, sub)
    ensures Replace(s, sub, repl) == s
    decreases |s|
  {
    if |s| >= |sub| {
      ReplaceNothing(s[1..], sub, repl);
    }
  }

  lemma {:induction false} OccursInTail(s: string, sub: string, i: nat)
    requires i < |s|
    ensures OccursAt(s[1..], sub, i) <==> OccursAt(s, sub, i + 1)
  {
    assert s[1..][i..] == s[i + 1..];
  }

  /** Replacing the first occurrence leaves the rest to be looked at. */
  lemma {:induction false} ReplaceFirst(before: string, sub: string, after: string, repl: string)
    requires sub != "" && forall i :: 0 <= i < |before| ==> !OccursAt(before + sub + after, sub, i)
    ensures Replace(before + sub + after, sub, repl) == before + repl + Replace(after, sub, repl)
    decreases |before|
  {
    var s := before + sub + after;
    if before == "" {
      assert s[|sub|..] == after;
      assert s[..|sub|] == sub;
    } else {
      var rest := before[1..] + sub + after;
      assert s[1..] == rest && s == [before[0]] + rest;
      forall i | 0 <= i < |before[1..]|
        ensures !OccursAt(rest, sub, i)
      {
        OccursInTail(s, sub, i);
      }
      ReplaceFirst(before[1..], sub, after, repl);
      assert s[0..] == s && !OccursAt(s, sub, 0);
      ReplaceLater(s, sub, repl);
    }
  }

  lemma {:induction false} ReplaceLater(s: string, sub: string, repl: string)
    requires sub != "" && |s| >= |sub| && !(sub <= s)
    ensures Replace(s, sub, repl) == [s[0]] + Replace(s[1..], sub, repl)
  {
  }

  /** A string that occurs once is replaced there, and everything around it stays. */
  lemma {:induction false} ReplaceOnly(before: string, sub: string, after: string, repl: string)
    requires sub != ""
    requires forall i :: 0 <= i <= |before + sub + after| && OccursAt(before + sub + after, sub, i) ==> i == |before|
    ensures Contains(before + sub + after, sub)
    ensures Replace(before + sub + after, sub, repl) == before + repl + after
  {
    var s := before + sub + after;
    assert s[|before|..] == sub + after;
    assert OccursAt(s, sub, |before|);
    ContainsIff(s, sub);
    ReplaceFirst(before, sub, after, repl);
    ContainsIff(after, sub);
    forall i | 0 <= i <= |after|
      ensures !OccursAt(after, sub, i)
    {
      assert after[i..] == s[|before| + |sub| + i..];
      assert !OccursAt(s, sub, |before| + |sub| + i);
    }
    ReplaceNothing(after, sub, repl);
  }

  // ── Occurrences and lines ──

  predicate EndsWith(s: string, t: string) {
    |t| <= |s| && s[|s| - |t|..] == t
  }

  /** The position in the joined text at which line `i` starts. */
  function Offset(lines: seq<string>, i: nat): nat
    requires i <= |lines|
  {
    if i == 0 then 0 else |lines[0]| + 1 + Offset(lines[1..], i - 1)
  }

  lemma {:induction false} JoinHead(lines: seq<string>)
    requires |lines| > 1
    ensures Join(lines, "\n") == lines[0] + "\n" + Join(lines[1..], "\n")
  {
  }

  /** A newline-free string occurs in joined lines only inside one of them. */
  lemma {:induction false} OccursInLine(lines: seq<string>, sub: string, k: nat) returns (i: nat)
    requires lines != [] && Free(sub, '\n') && sub != ""
    requires OccursAt(Join(lines, "\n"), sub, k)
    ensures i < |lines| && Offset(lines, i) <= k && OccursAt(lines[i], sub, k - Offset(lines, i))
  {
    var s := Join(lines, "\n");
    if |lines| == 1 {
      i := 0;
    } else if k + |sub| <= |lines[0]| {
      i := 0;
      assert lines[0][k..k + |sub|] == s[k..k + |sub|] == sub;
    } else {
      JoinHead(lines);
      assert s[|lines[0]|] == '\n';
      assert k > |lines[0]|;
      assert s[k..] == Join(lines[1..], "\n")[k - |lines[0]| - 1..];
      i := OccursInLine(lines[1..], sub, k - |lines[0]| - 1);
      i := i + 1;
    }
  }

  /** A newline-free string that occurs in no line is not contained in the joined text. */
  lemma {:induction false} NotInLines(lines: seq<string>, sub: string)
    requires lines != [] && Free(sub, '\n') && sub != ""
    requires forall l, o: nat :: l in lines ==> !OccursAt(l, sub, o)
    ensures !Contains(Join(lines, "\n"), sub)
  {
    var s := Join(lines, "\n");
    ContainsIff(s, sub);
    if k :| 0 <= k <= |s| && OccursAt(s, sub, k) {
      var i := OccursInLine(lines, sub, k);
    }
  }

  /** Somewhere in the text `b` follows a newline. */
  predicate AfterBreak(line: string, b: string) {
    exists q :: 0 <= q < |line| && line[q] == '\n' && b <= line[q + 1..]
  }

  predicate NoneAfterBreak(lines: seq<string>, b: string) {
    forall l :: l in lines ==> !AfterBreak(l, b)
  }

  /** A string with one newline occurs in joined lines only across two of them, unless one of them has it inside. */
  lemma {:induction false} OccursAcross(lines: seq<string>, a: string, b: string, k: nat) returns (i: nat)
    requires lines != [] && NoneAfterBreak(lines, b) && Free(a, '\n') && Free(b, '\n')
    requires OccursAt(Join(lines, "\n"), a + "\n" + b, k)
    ensures i + 1 < |lines| && EndsWith(lines[i], a) && b <= lines[i + 1]
    ensures k == Offset(lines, i) + |lines[i]| - |a|
  {
    BreaksBetween(lines, a, b, k);
    JoinHead(lines);
    var rest := Join(lines[1..], "\n");
    if k + |a| == |lines[0]| {
      i := 0;
      AcrossFirst(lines[0], rest, a, b, k);
      PrefixWithinLine(lines[1..], b);
    } else {
      AfterFirst(lines[0], rest, a, b, k);
      i := OccursAcross(lines[1..], a, b, k - |lines[0]| - 1);
      i := i + 1;
    }
  }

  /** Its newline is not one of the first line's own. */
  lemma {:induction false} BreaksBetween(lines: seq<string>, a: string, b: string, k: nat)
    requires lines != [] && NoneAfterBreak(lines, b) && Free(b, '\n')
    requires OccursAt(Join(lines, "\n"), a + "\n" + b, k)
    ensures |lines| > 1 && k + |a| >= |lines[0]|
  {
    var after := NextLine(lines, "");
    assert lines[0] in lines;
    BreakAt(Join(lines, "\n"), a, b, k);
    if k + |a| < |lines[0]| {
      BreakInside(lines[0], after, b, k + |a|);
    }
  }

  lemma {:induction false} BreakInside(line: string, after: string, b: string, q: nat)
    requires q < |line| && line[q] == '\n' && Free(b, '\n') && b <= (line + after)[q + 1..]
    requires after == "" || after[0] == '\n'
    ensures AfterBreak(line, b)
  {
    SliceHead(line, after, q + 1);
    PrefixBefore(line[q + 1..], after, b);
  }

  lemma {:induction false} BreakAt(s: string, a: string, b: string, k: nat)
    requires OccursAt(s, a + "\n" + b, k)
    ensures k + |a| < |s| && s[k + |a|] == '\n' && b <= s[k + |a| + 1..]
  {
    var sub := a + "\n" + b;
    assert s[k..][|a|] == sub[|a|] == '\n';
    assert b == sub[|a| + 1..] == s[k..][|a| + 1..|sub|] == s[k + |a| + 1..][..|b|];
  }

  lemma {:induction false} PrefixBefore(a: string, after: string, b: string)
    requires Free(b, '\n') && b <= a + after && (after == "" || after[0] == '\n')
    ensures b <= a
  {
    if after != "" {
      assert (a + after)[|a|] == '\n';
    }
  }

  lemma {:induction false} SliceHead(a: string, b: string, o: nat)
    requires o <= |a|
    ensures (a + b)[o..] == a[o..] + b
  {
  }

  lemma {:induction false} AcrossFirst(line: string, rest: string, a: string, b: string, k: nat)
    requires OccursAt(line + "\n" + rest, a + "\n" + b, k) && k + |a| == |line|
    ensures EndsWith(line, a) && b <= rest
  {
    var s, sub := line + "\n" + rest, a + "\n" + b;
    assert s[k..k + |sub|] == sub;
    assert a == sub[..|a|] == s[k..k + |a|] == line[k..];
    assert b == sub[|a| + 1..] == s[k + |a| + 1..k + |sub|] == rest[..|b|];
  }

  lemma {:induction false} AfterFirst(line: string, rest: string, a: string, b: string, k: nat)
    requires OccursAt(line + "\n" + rest, a + "\n" + b, k) && k + |a| > |line| && Free(a, '\n')
    ensures k > |line| && OccursAt(rest, a + "\n" + b, k - |line| - 1)
  {
    var s, sub := line + "\n" + rest, a + "\n" + b;
    assert s[k..k + |sub|] == sub;
    forall j | k <= j < k + |a|
      ensures s[j] != '\n'
    {
      assert s[j] == s[k..k + |sub|][j - k] == a[j - k] && a[j - k] in a;
    }
    assert s[|line|] == '\n';
    assert s[k..] == rest[k - |line| - 1..];
  }

  lemma {:induction false} PrefixWithinLine(lines: seq<string>, b: string)
    requires lines != [] && Free(b, '\n') && b <= Join(lines, "\n")
    ensures b <= lines[0]
  {
    if |lines| > 1 {
      JoinHead(lines);
      assert Join(lines, "\n")[|lines[0]|] == '\n';
    }
  }

  /** The joined text around two neighbouring lines, with the second as it is and with another in its place. */
  lemma {:induction false} JoinAround(lines: seq<string>, m: nat, b: string) returns (before: string, after: string)
    requires m + 1 < |lines|
    ensures |before| == Offset(lines, m)
    ensures Join(lines, "\n") == before + (lines[m] + "\n" + lines[m + 1]) + after
    ensures Join(lines[m + 1 := b], "\n") == before + (lines[m] + "\n" + b) + after
  {
    JoinHead(lines);
    JoinHead(lines[m + 1 := b]);
    var head := lines[0] + "\n";
    if m == 0 {
      after := NextLine(lines[1..], b);
      before := "";
      assert lines[1 := b][1..] == lines[1..][0 := b];
      Regroup("", head, lines[1], after);
      Regroup("", head, b, after);
      assert "" + (head + lines[1]) + after == (head + lines[1]) + after;
      assert "" + (head + b) + after == (head + b) + after;
    } else {
      var before';
      before', after := JoinAround(lines[1..], m - 1, b);
      before := head + before';
      assert lines[m + 1 := b][1..] == lines[1..][m := b];
      Regroup(head, before', lines[m] + "\n" + lines[m + 1], after);
      Regroup(head, before', lines[m] + "\n" + b, after);
    }
  }

  lemma {:induction false} Regroup(a: string, b: string, c: string, d: string)
    ensures a + (b + c + d) == (a + b) + c + d
    ensures b + (c + d) == (b + c) + d
  {
  }

  lemma {:induction false} NextLine(lines: seq<string>, b: string) returns (after: string)
    requires lines != []
    ensures Join(lines, "\n") == lines[0] + after && Join(lines[0 := b], "\n") == b + after
    ensures if |lines| == 1 then after == "" else after != "" && after[0] == '\n'
  {
    if |lines| == 1 {
      after := "";
    } else {
      JoinHead(lines);
      JoinHead(lines[0 := b]);
      after := "\n" + Join(lines[1..], "\n");
      assert lines[0 := b][1..] == lines[1..];
    }
  }
}
