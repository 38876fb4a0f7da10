/** Files laid out as blocks with empty lines between them, and how splitting gives the blocks back. */
module PoLayout {
  import opened Text
  import opened Substrings
  import opened PoCatalog
  import opened PoEntries

  /** A block and the number of empty lines after it; at the end of the file, of newlines. */
  datatype Piece = Piece(block: Block, gap: nat)

  function Empties(n: nat): seq<string> {
    if n == 0 then [] else [""] + Empties(n - 1)
  }

  function Newlines(n: nat): string {
    if n == 0 then "" else "\n" + Newlines(n - 1)
  }

  function FileLines(ps: seq<Piece>): seq<string> {
    if ps == [] then [] else Lines(ps[0].block) + Empties(ps[0].gap) + FileLines(ps[1..])
  }

  function FileText(ps: seq<Piece>): string {
    Join(FileLines(ps), "\n")
  }

  /** Well-formed blocks, apart by one empty line or more; the file may end with any number of newlines. */
  ghost predicate Catalogue(ps: seq<Piece>) {
    && ps != []
    && (forall i :: 0 <= i < |ps| ==> WellFormed(ps[i].block))
    && (forall i :: 0 <= i < |ps| - 1 ==> ps[i].gap > 0)
  }

  /** The same, but for translations that may run over lines. */
  ghost predicate Draft(ps: seq<Piece>) {
    && ps != []
    && (forall i :: 0 <= i < |ps| ==> IsSound(ps[i].block))
    && (forall i :: 0 <= i < |ps| - 1 ==> ps[i].gap > 0)
  }

  predicate NoGap(s: string, n: nat) {
    forall i :: 0 <= i < n && i + 1 < |s| ==> !(s[i] == s[i + 1] == '\n')
  }

  lemma {:induction false} GapIs(s: string, n: nat)
    requires n <= |s| && NoGap(s, n)
    requires n == |s| || (n + 1 < |s| && s[n] == s[n + 1] == '\n')
    ensures Gap(s) == n
  {
    if n > 0 && |s| >= 2 {
      assert !(s[0] == s[0 + 1] == '\n');
      assert forall i :: 0 <= i < |s| - 1 ==> s[1..][i] == s[i + 1];
      GapIs(s[1..], n - 1);
    }
  }

  /** Lines that are not empty, joined, hold no empty line and touch no newline at the ends. */
  lemma {:induction false} JoinedLinesHaveNoGap(lines: seq<string>)
    requires AreLines(lines) && lines != []
    ensures Whole(Join(lines, "\n"))
  {
    JoinEnds(lines);
    assert lines[0] in lines && lines[|lines| - 1] in lines;
    var t := Join(lines, "\n");
    if |lines| == 1 {
    } else {
      var rest := Join(lines[1..], "\n");
      JoinedLinesHaveNoGap(lines[1..]);
      JoinHead(lines);
      forall i | 0 <= i < |t| && i + 1 < |t|
        ensures !(t[i] == t[i + 1] == '\n')
      {
        var n := |lines[0]|;
        if i < n {
          assert t[i] == lines[0][i];
        } else if i == n {
          assert t[i + 1] == rest[0];
        } else {
          assert t[i] == rest[i - n - 1] && t[i + 1] == rest[i - n - 1 + 1];
        }
      }
    }
  }

  /** A text that splits nowhere. */
  predicate Whole(t: string) {
    t != "" && t[0] != '\n' && t[|t| - 1] != '\n' && NoGap(t, |t|)
  }

  // ── The text of a file ──

  lemma {:induction false} JoinedEmpties(n: nat)
    requires n > 0
    ensures Join(Empties(n), "\n") == Newlines(n - 1)
  {
    if n > 1 {
      JoinedEmpties(n - 1);
      assert Empties(n)[1..] == Empties(n - 1) && Empties(n)[0] == "";
      assert "" + "\n" + Newlines(n - 2) == Newlines(n - 1);
    } else {
      assert Empties(1) == [""] + Empties(0) == [""];
    }
  }

  lemma {:induction false} JoinEmpties(lines: seq<string>, n: nat)
    requires lines != []
    ensures Join(lines + Empties(n), "\n") == Join(lines, "\n") + Newlines(n)
  {
    if n == 0 {
      assert lines + Empties(0) == lines;
      assert Join(lines, "\n") + "" == Join(lines, "\n");
    } else {
      JoinedEmpties(n);
      JoinConcat(lines, Empties(n), "\n");
    }
  }

  lemma {:induction false} NewlinesEnd(n: nat)
    ensures Newlines(n) + "\n" == Newlines(n + 1)
  {
    if n > 0 {
      NewlinesEnd(n - 1);
      assert Newlines(n) + "\n" == "\n" + (Newlines(n - 1) + "\n");
    }
  }

  lemma {:induction false} JoinGap(lines: seq<string>, n: nat, rest: seq<string>)
    requires lines != []
    ensures Join(lines + Empties(n) + rest, "\n")
         == Join(lines, "\n") + if rest == [] then Newlines(n) else Newlines(n + 1) + Join(rest, "\n")
  {
    JoinEmpties(lines, n);
    if rest == [] {
      assert lines + Empties(n) + rest == lines + Empties(n);
    } else {
      JoinConcat(lines + Empties(n), rest, "\n");
      NewlinesEnd(n);
    }
  }

  lemma {:induction false} LastText(ps: seq<Piece>)
    requires |ps| == 1 && Lines(ps[0].block) != []
    ensures FileText(ps) == Join(Lines(ps[0].block), "\n") + Newlines(ps[0].gap)
  {
    assert FileLines(ps[1..]) == [];
    JoinGap(Lines(ps[0].block), ps[0].gap, []);
  }

  lemma {:induction false} HeadText(ps: seq<Piece>)
    requires |ps| > 1 && Lines(ps[0].block) != [] && Lines(ps[1].block) != []
    ensures FileText(ps) == Join(Lines(ps[0].block), "\n") + (Newlines(ps[0].gap + 1) + FileText(ps[1..]))
  {
    assert FileLines(ps[1..]) != [];
    JoinGap(Lines(ps[0].block), ps[0].gap, FileLines(ps[1..]));
  }

  lemma {:induction false} HeadIsWhole(ps: seq<Piece>)
    requires Catalogue(ps)
    ensures Lines(ps[0].block) != [] && Whole(Join(Lines(ps[0].block), "\n"))
  {
    BlocksAreLines(ps[0].block);
    JoinedLinesHaveNoGap(Lines(ps[0].block));
  }

  lemma {:induction false} TailIsCatalogue(ps: seq<Piece>)
    requires Catalogue(ps) && |ps| > 1
    ensures Catalogue(ps[1..])
  {
  }

  lemma {:induction false} FileTextStart(ps: seq<Piece>)
    requires Catalogue(ps)
    ensures FileText(ps) != "" && FileText(ps)[0] != '\n'
  {
    HeadIsWhole(ps);
    if |ps| == 1 {
      LastText(ps);
    } else {
      BlocksAreLines(ps[1].block);
      HeadText(ps);
    }
  }

  // ── Splitting it ──

  /** What the splitting yields for the last block: one newline stays with it, more leave an empty text behind. */
  function LastTexts(p: Piece): seq<string> {
    if p.gap == 1 then [BlockText(p.block, true)]
    else if p.gap == 0 then [BlockText(p.block, false)]
    else [BlockText(p.block, false), ""]
  }

  function BlockTexts(ps: seq<Piece>): seq<string> {
    if ps == [] then []
    else if |ps| == 1 then LastTexts(ps[0])
    else [BlockText(ps[0].block, false)] + BlockTexts(ps[1..])
  }

  lemma {:induction false} DropsNewlines(n: nat, rest: string)
    requires rest == "" || rest[0] != '\n'
    ensures DropNewlines(Newlines(n) + rest) == rest
  {
    if n == 0 {
      assert Newlines(0) + rest == rest;
    } else {
      DropsNewlines(n - 1, rest);
      assert (Newlines(n) + rest)[1..] == Newlines(n - 1) + rest;
    }
  }

  lemma {:induction false} GapAfter(t: string, end: string)
    requires Whole(t) && |end| >= 2 && end[0] == end[1] == '\n'
    ensures Gap(t + end) == |t|
  {
    var file := t + end;
    assert forall i :: 0 <= i < |t| ==> file[i] == t[i];
    assert file[|t|] == end[0] && file[|t| + 1] == end[1];
    GapIs(file, |t|);
  }

  lemma {:induction false} NewlinesStart(n: nat, rest: string)
    ensures var end := Newlines(n + 2) + rest;
            |end| >= 2 && end[0] == end[1] == '\n' && end[1..] == Newlines(n + 1) + rest
  {
    assert Newlines(n + 2) == "\n" + Newlines(n + 1) && Newlines(n + 1) == "\n" + Newlines(n);
  }

  lemma {:induction false} BlocksAtGap(file: string, t: string, rest: string)
    requires t <= file && Gap(file) == |t| < |file| && DropNewlines(file[|t| + 1..]) == rest
    ensures Blocks(file) == [t] + Blocks(rest)
  {
    assert file[..|t|] == t;
  }

  /** A text without gap, then two newlines or more, then the rest. */
  lemma {:induction false} FirstBlock(t: string, n: nat, rest: string)
    requires Whole(t) && n > 0 && (rest == "" || rest[0] != '\n')
    ensures Blocks(t + (Newlines(n + 1) + rest)) == [t] + Blocks(rest)
  {
    var end := Newlines(n + 1) + rest;
    NewlinesStart(n - 1, rest);
    GapAfter(t, end);
    DropsNewlines(n, rest);
    assert (t + end)[|t| + 1..] == end[1..];
    BlocksAtGap(t + end, t, rest);
  }

  lemma {:induction false} LastBlock(t: string, end: string)
    requires Whole(t) && (end == "" || end == "\n")
    ensures Blocks(t + end) == [t + end]
  {
    var file := t + end;
    assert forall i :: 0 <= i < |t| ==> file[i] == t[i];
    GapIs(file, |file|);
  }

  lemma {:induction false} TextsAtEnd(t: string, n: nat)
    requires Whole(t)
    ensures Blocks(t + Newlines(n)) == if n == 0 then [t] else if n == 1 then [t + "\n"] else [t, ""]
  {
    if n <= 1 {
      assert Newlines(1) == "\n" + Newlines(0) == "\n";
      assert t + "" == t;
      LastBlock(t, Newlines(n));
    } else {
      FirstBlock(t, n - 1, "");
      assert Newlines(n) + "" == Newlines(n);
      assert Blocks("") == [""];
    }
  }

  lemma {:induction false} OnlyBlock(ps: seq<Piece>)
    requires |ps| == 1 && Catalogue(ps)
    ensures Blocks(FileText(ps)) == LastTexts(ps[0])
  {
    var t := Join(Lines(ps[0].block), "\n");
    HeadIsWhole(ps);
    LastText(ps);
    TextsAtEnd(t, ps[0].gap);
    assert t + "" == t;
  }

  lemma {:induction false} HeadBlock(ps: seq<Piece>)
    requires |ps| > 1 && Catalogue(ps)
    ensures Blocks(FileText(ps)) == [BlockText(ps[0].block, false)] + Blocks(FileText(ps[1..]))
  {
    HeadIsWhole(ps);
    BlocksAreLines(ps[1].block);
    HeadText(ps);
    TailIsCatalogue(ps);
    FileTextStart(ps[1..]);
    FirstBlock(Join(Lines(ps[0].block), "\n"), ps[0].gap, FileText(ps[1..]));
    assert BlockText(ps[0].block, false) == Join(Lines(ps[0].block), "\n");
  }

  /** The blocks of the file are the blocks it was built from. */
  lemma {:induction false} BlocksOfFile(ps: seq<Piece>)
    requires Catalogue(ps)
    ensures Blocks(FileText(ps)) == BlockTexts(ps)
  {
    if |ps| == 1 {
      OnlyBlock(ps);
    } else {
      HeadBlock(ps);
      TailIsCatalogue(ps);
      BlocksOfFile(ps[1..]);
    }
  }

  // ── Its lines ──

  /** The first line of block `m` in the file. */
  function Start(ps: seq<Piece>, m: nat): nat
    requires m <= |ps|
  {
    if m == 0 then 0 else |Lines(ps[0].block)| + |Empties(ps[0].gap)| + Start(ps[1..], m - 1)
  }

  lemma {:induction false} EmptyLines(n: nat)
    ensures |Empties(n)| == n && forall i :: 0 <= i < n ==> Empties(n)[i] == ""
  {
    if n > 0 {
      EmptyLines(n - 1);
    }
  }

  lemma {:induction false} LinesOfBlock(ps: seq<Piece>, m: nat)
    requires m < |ps|
    ensures Start(ps, m) + |Lines(ps[m].block)| <= |FileLines(ps)|
    ensures forall k :: 0 <= k < |Lines(ps[m].block)| ==> FileLines(ps)[Start(ps, m) + k] == Lines(ps[m].block)[k]
  {
    if m > 0 {
      LinesOfBlock(ps[1..], m - 1);
      assert FileLines(ps) == (Lines(ps[0].block) + Empties(ps[0].gap)) + FileLines(ps[1..]);
    }
  }

  /** Changing one block's lines, number kept, changes the file's lines there. */
  lemma {:induction false} UpdateBlock(ps: seq<Piece>, m: nat, b: Block, k: nat, line: string)
    requires m < |ps| && k < |Lines(ps[m].block)| && Lines(b) == Lines(ps[m].block)[k := line]
    ensures Start(ps, m) + k < |FileLines(ps)|
    ensures FileLines(ps[m := ps[m].(block := b)]) == FileLines(ps)[Start(ps, m) + k := line]
  {
    var qs := ps[m := ps[m].(block := b)];
    if m == 0 {
      assert qs[1..] == ps[1..];
    } else {
      UpdateBlock(ps[1..], m - 1, b, k, line);
      assert qs[1..] == ps[1..][m - 1 := ps[m].(block := b)];
      assert FileLines(ps) == (Lines(ps[0].block) + Empties(ps[0].gap)) + FileLines(ps[1..]);
      assert FileLines(qs) == (Lines(ps[0].block) + Empties(ps[0].gap)) + FileLines(qs[1..]);
    }
  }

  /** A line of the file is a line of a block or empty. */
  lemma {:induction false} LinesOfFile(ps: seq<Piece>, l: string)
    requires l in FileLines(ps)
    ensures l == "" || exists i :: 0 <= i < |ps| && l in Lines(ps[i].block)
  {
    EmptyLines(ps[0].gap);
    if l in FileLines(ps[1..]) {
      LinesOfFile(ps[1..], l);
      if i :| 0 <= i < |ps[1..]| && l in Lines(ps[1..][i].block) {
        assert l in Lines(ps[i + 1].block);
      }
    } else if l in Lines(ps[0].block) {
    } else {
      assert l in Empties(ps[0].gap);
    }
  }

  lemma {:induction false} TailIsDraft(ps: seq<Piece>)
    requires Draft(ps) && |ps| > 1
    ensures Draft(ps[1..])
  {
  }

  lemma {:induction false} DraftLines(ps: seq<Piece>)
    requires Draft(ps)
    ensures NoneAfterBreak(FileLines(ps), EMPTY_STR)
  {
    forall l | l in FileLines(ps)
      ensures !AfterBreak(l, EMPTY_STR)
    {
      LinesOfFile(ps, l);
      if i :| 0 <= i < |ps| && l in Lines(ps[i].block) {
        SoundLineBreaks(ps[i].block, l);
      }
    }
  }
}
