/** Filling a catalogue: exactly the active, empty, known entries change, and a second run changes nothing. */
module PoTheorems {
  import opened Wrappers
  import opened Collections
  import opened Text
  import opened Substrings
  import opened PoCatalog
  import opened PoEscape
  import opened PoEntries
  import opened PoLayout

  // ── The premise ──

  /** No two entries share a msgid. */
  ghost predicate DistinctMsgids(ps: seq<Piece>) {
    forall i, j :: 0 <= i < j < |ps| && !ps[i].block.Verbatim? && !ps[j].block.Verbatim? ==>
      ps[i].block.msgid != ps[j].block.msgid
  }

  /** Verbatim lines that the search for an entry with this msgid passes over. */
  predicate PassesOver(lines: seq<string>, msgid: string) {
    if Free(msgid, '"') then !Baits(lines, msgid) else forall l :: l in lines ==> !Shows(l, UpToQuote(msgid))
  }

  /** No verbatim block passes for an empty entry. */
  ghost predicate NoClash(ps: seq<Piece>) {
    forall i, j :: 0 <= i < |ps| && 0 <= j < |ps| && IsEmptyEntry(ps[i].block) && ps[j].block.Verbatim? ==>
      PassesOver(ps[j].block.lines, ps[i].block.msgid)
  }

  ghost predicate Proper(ps: seq<Piece>) {
    Catalogue(ps) && DistinctMsgids(ps) && NoClash(ps)
  }

  /** The same of a file in which translations have been filled in, newlines and all. */
  ghost predicate ProperDraft(ps: seq<Piece>) {
    Draft(ps) && DistinctMsgids(ps) && NoClash(ps)
  }

  /** Lines that neither bait the msgid nor end in an escaped quote are passed over. */
  lemma {:induction false} CleanEndsPassOver(lines: seq<string>, msgid: string)
    requires IsMsgid(msgid) && (Free(msgid, '"') ==> !Baits(lines, msgid))
    requires forall l :: l in lines ==> !EndsWith(TrimEnd(l, SPACE), "\\\"")
    ensures PassesOver(lines, msgid)
  {
    if !Free(msgid, '"') {
      var id := UpToQuote(msgid);
      UpToQuoteWhole(msgid);
      QuotableQuotes(msgid);
      assert id != "" && id[|id| - 1] == '\\';
      forall l | l in lines
        ensures !Shows(l, id)
      {
        if Shows(l, id) { EndsInEscapedQuote(TrimEnd(l, SPACE), id); }
      }
    }
  }

  lemma {:induction false} EndsInEscapedQuote(line: string, id: string)
    requires id != "" && id[|id| - 1] == '\\' && EndsWith(line, IdLine(id))
    ensures EndsWith(line, "\\\"")
  {
    var n := |IdLine(id)|;
    assert line[|line| - n..][n - 2..] == IdLine(id)[n - 2..] == "\\\"";
    assert line[|line| - 2..] == line[|line| - n..][n - 2..];
  }

  // ── Which entries are listed ──

  function OwnId(b: Block): seq<string> {
    if IsEmptyEntry(b) then [UpToQuote(b.msgid)] else []
  }

  const OWN_ID: Piece -> seq<string> := (p: Piece) => OwnId(p.block)

  /** What the empty entries are listed under, in order. */
  function ListedIds(ps: seq<Piece>): seq<string> {
    FlatMap(OWN_ID, ps)
  }

  function Ids(entries: seq<(string, string)>): seq<string> {
    seq(|entries|, i requires 0 <= i < |entries| => entries[i].0)
  }

  lemma {:induction false} SelectConcat(f: string -> Option<string>, a: seq<string>, b: seq<string>)
    ensures Select(f, a + b) == Select(f, a) + Select(f, b)
  {
    if b == [] {
      assert a + b == a;
    } else {
      SelectConcat(f, a, b[..|b| - 1]);
      assert (a + b)[..|a + b| - 1] == a + b[..|b| - 1];
    }
  }

  lemma {:induction false} SelectOne(f: string -> Option<string>, t: string)
    ensures Ids(Select(f, [t])) == match f(t) { case None => [] case Some(id) => [id] }
  {
    assert [t][..0] == [];
    assert Select(f, [t][..0]) == [];
  }

  lemma {:induction false} IdsConcat(a: seq<(string, string)>, b: seq<(string, string)>)
    ensures Ids(a + b) == Ids(a) + Ids(b)
  {
  }

  lemma {:induction false} BlockIsListed(b: Block, last: bool)
    requires WellFormed(b)
    ensures Ids(Select(LISTED, [BlockText(b, last)])) == OwnId(b)
  {
    SelectOne(LISTED, BlockText(b, last));
    match b
    case Single(_, _, _) => ListedIff(b, last);
    case Continued(_, _, _) => ContinuedIsPassed(b, last);
    case Verbatim(lines) => VerbatimIsPassed(lines, last);
  }

  lemma {:induction false} VerbatimIsPassed(lines: seq<string>, last: bool)
    requires Passed(lines)
    ensures Listed(BlockText(Verbatim(lines), last)) == None
  {
    assert BlockText(Verbatim(lines), false) == Join(lines, "\n");
  }

  lemma {:induction false} SelectLast(f: string -> Option<string>, t: string, texts: seq<string>)
    requires (texts == [t] || texts == [t, ""]) && f("") == None
    ensures Ids(Select(f, texts)) == Ids(Select(f, [t]))
  {
    if texts == [t, ""] {
      SelectConcat(f, [t], [""]);
      SelectOne(f, "");
      IdsConcat(Select(f, [t]), Select(f, [""]));
      assert texts == [t] + [""];
    }
  }

  lemma {:induction false} LastIsListed(p: Piece)
    requires WellFormed(p.block)
    ensures Ids(Select(LISTED, LastTexts(p))) == OwnId(p.block)
  {
    BlockIsListed(p.block, p.gap == 1);
    NothingIsListed();
    SelectLast(LISTED, BlockText(p.block, p.gap == 1), LastTexts(p));
  }

  lemma {:induction false} NothingIsListed()
    ensures LISTED("") == None
  {
  }

  lemma {:induction false} ListsNext(f: string -> Option<string>, t: string, texts: seq<string>, ps: seq<Piece>)
    requires ps != [] && Ids(Select(f, [t])) == OwnId(ps[0].block) && Ids(Select(f, texts)) == ListedIds(ps[1..])
    ensures Ids(Select(f, [t] + texts)) == ListedIds(ps)
  {
    SelectConcat(f, [t], texts);
    IdsConcat(Select(f, [t]), Select(f, texts));
    FlatMapOne(OWN_ID, ps[0]);
    FlatMapConcat(OWN_ID, [ps[0]], ps[1..]);
    assert ps == [ps[0]] + ps[1..];
  }

  /** The scanner lists exactly the active empty entries, in order. */
  lemma {:induction false} ListsEmptyEntries(ps: seq<Piece>)
    requires Catalogue(ps)
    ensures Ids(Select(LISTED, BlockTexts(ps))) == ListedIds(ps)
  {
    if |ps| == 1 {
      FlatMapOne(OWN_ID, ps[0]);
      LastIsListed(ps[0]);
      assert ps == [ps[0]];
    } else {
      var t := BlockText(ps[0].block, false);
      TailIsCatalogue(ps);
      ListsEmptyEntries(ps[1..]);
      BlockIsListed(ps[0].block, false);
      ListsNext(LISTED, t, BlockTexts(ps[1..]), ps);
    }
  }

  // ── Where the global replacement hits ──

  /** Only an empty or continued msgstr starts its line like an empty one. */
  lemma {:induction false} OtherLineIsNoEmptyStr(b: Block, k: nat)
    requires !b.Verbatim? && IsSound(b) && k < |Lines(b)|
    requires k != |b.comments| + 1 || (b.Single? && b.msgstr != "")
    ensures !(EMPTY_STR <= Lines(b)[k])
  {
    var line, n := Lines(b)[k], |b.comments|;
    assert EMPTY_STR[0] == 'm' && EMPTY_STR[3] == 's' && EMPTY_STR[8] == '"' && ID[3] == 'i';
    if k < n {
      assert line == b.comments[k] && IsComment(line);
    } else if k == n {
      assert line == IdLine(b.msgid);
    } else if b.Continued? {
      assert line == b.more[k - n - 2] && line in b.more;
    } else {
      assert line == StrLine(b.msgstr) && line[8] == b.msgstr[0];
    }
  }

  lemma {:induction false} HitInBlock(b: Block, id: string, i: nat)
    requires IsSound(b) && IsKey(id) && HitAt(Lines(b), id, i) && (b.Verbatim? ==> !Baits(b.lines, id))
    ensures !b.Verbatim? && b.msgid == id && i == |b.comments| && (b.Single? ==> b.msgstr == "")
  {
    if !b.Verbatim? {
      if i != |b.comments| || (b.Single? && b.msgstr != "") { OtherLineIsNoEmptyStr(b, i + 1); }
      OnlyOwnIdLine(id, b.msgid);
    }
  }

  ghost predicate Unbaited(ps: seq<Piece>, id: string) {
    forall j :: 0 <= j < |ps| && ps[j].block.Verbatim? ==> !Baits(ps[j].block.lines, id)
  }

  /** A hit in the file is in an entry with that msgid: no line of another block takes part. */
  lemma {:induction false} HitInFile(ps: seq<Piece>, id: string, i: nat) returns (m: nat)
    requires Draft(ps) && IsKey(id) && HitAt(FileLines(ps), id, i) && Unbaited(ps, id)
    ensures m < |ps| && !ps[m].block.Verbatim? && ps[m].block.msgid == id
    ensures i == Start(ps, m) + |ps[m].block.comments|
  {
    HitInPiece(ps, id, i);
    if i < |Lines(ps[0].block)| {
      HitInBlock(ps[0].block, id, i);
      m := 0;
    } else {
      TailIsDraft(ps);
      TailIsUnbaited(ps, id);
      m := HitInFile(ps[1..], id, i - PieceLength(ps[0]));
      m := m + 1;
    }
  }

  function PieceLength(p: Piece): nat {
    |Lines(p.block)| + |Empties(p.gap)|
  }

  lemma {:induction false} HitInPiece(ps: seq<Piece>, id: string, i: nat)
    requires Draft(ps) && HitAt(FileLines(ps), id, i)
    ensures if i < |Lines(ps[0].block)| then HitAt(Lines(ps[0].block), id, i)
            else |ps| > 1 && i >= PieceLength(ps[0]) && HitAt(FileLines(ps[1..]), id, i - PieceLength(ps[0]))
  {
    assert |ps| == 1 ==> FileLines(ps[1..]) == [];
    HitWithin(Lines(ps[0].block), ps[0].gap, FileLines(ps[1..]), id, i);
  }

  lemma {:induction false} TailIsUnbaited(ps: seq<Piece>, id: string)
    requires ps != [] && Unbaited(ps, id)
    ensures Unbaited(ps[1..], id)
  {
  }

  /** A hit keeps clear of the empty lines after a block. */
  lemma {:induction false} HitWithin(own: seq<string>, gap: nat, rest: seq<string>, id: string, i: nat)
    requires HitAt(own + Empties(gap) + rest, id, i) && (rest != [] ==> gap > 0)
    ensures var n := |own| + |Empties(gap)|;
            if i < |own| then HitAt(own, id, i) else i >= n && HitAt(rest, id, i - n)
  {
    var lines, n := own + Empties(gap) + rest, |own| + |Empties(gap)|;
    EmptyLines(gap);
    assert lines[i] != "" && lines[i + 1] != "";
    assert forall k :: |own| <= k < n ==> lines[k] == Empties(gap)[k - |own|] == "";
    if i >= n {
      assert lines[i] == rest[i - n] && lines[i + 1] == rest[i - n + 1];
    }
  }

  // ── One entry filled ──

  /** An empty entry that is listed under its own msgid. */
  predicate IsFillable(b: Block) {
    IsEmptyEntry(b) && Free(b.msgid, '"')
  }

  function FilledBlock(b: Block, text: string): Block
    requires b.Single?
  {
    b.(msgstr := text)
  }

  function WithBlock(ps: seq<Piece>, m: nat, b: Block): seq<Piece>
    requires m < |ps|
  {
    ps[m := ps[m].(block := b)]
  }

  /** The two lines of an empty entry, and the file with its msgstr line replaced. */
  lemma {:induction false} EntryLines(ps: seq<Piece>, m: nat, text: string)
    requires m < |ps| && IsEmptyEntry(ps[m].block)
    ensures var (b, lines) := (ps[m].block, FileLines(ps));
            var j := Start(ps, m) + |b.comments|;
            && j + 1 < |lines| && lines[j] == IdLine(b.msgid) && lines[j + 1] == EMPTY_STR
            && FileLines(WithBlock(ps, m, FilledBlock(b, text))) == lines[j + 1 := StrLine(text)]
  {
    var b := ps[m].block;
    EmptyEntryLines(b, text);
    var n := |b.comments|;
    LineOfBlock(ps, m, n);
    LineOfBlock(ps, m, n + 1);
    UpdateBlock(ps, m, FilledBlock(b, text), n + 1, StrLine(text));
  }

  lemma {:induction false} LineOfBlock(ps: seq<Piece>, m: nat, k: nat)
    requires m < |ps| && k < |Lines(ps[m].block)|
    ensures Start(ps, m) + k < |FileLines(ps)| && FileLines(ps)[Start(ps, m) + k] == Lines(ps[m].block)[k]
  {
    LinesOfBlock(ps, m);
  }

  lemma {:induction false} EmptyEntryLines(b: Block, text: string)
    requires IsEmptyEntry(b)
    ensures var n := |b.comments|;
            && |Lines(b)| == n + 2 && Lines(b)[n] == IdLine(b.msgid) && Lines(b)[n + 1] == EMPTY_STR
            && Lines(FilledBlock(b, text)) == Lines(b)[n + 1 := StrLine(text)]
  {
    assert StrLine("") == EMPTY_STR;
  }

  /** Block `m` is where the replacement for its msgid hits, and nowhere else. */
  ghost predicate HitOnce(ps: seq<Piece>, m: nat)
    requires m < |ps| && IsEmptyEntry(ps[m].block)
  {
    var id, lines := ps[m].block.msgid, FileLines(ps);
    && NoneAfterBreak(lines, EMPTY_STR) && Free(IdLine(id), '\n') && Free(EMPTY_STR, '\n')
    && forall i :: HitAt(lines, id, i) ==> i == Start(ps, m) + |ps[m].block.comments|
  }

  lemma {:induction false} ReplaceEntry(ps: seq<Piece>, m: nat, text: string)
    requires m < |ps| && IsEmptyEntry(ps[m].block) && HitOnce(ps, m)
    ensures var b := ps[m].block;
            && Contains(FileText(ps), OldText(b.msgid))
            && Replace(FileText(ps), OldText(b.msgid), IdLine(b.msgid) + "\n" + StrLine(text))
               == FileText(WithBlock(ps, m, FilledBlock(b, text)))
  {
    var j := Start(ps, m) + |ps[m].block.comments|;
    EntryLines(ps, m, text);
    ReplaceOneHit(FileLines(ps), ps[m].block.msgid, j, StrLine(text));
  }

  /** The replacement for one entry changes that entry's msgstr and no other character of the file. */
  lemma {:induction false} ReplaceFillsOne(ps: seq<Piece>, m: nat, translation: string)
    requires ProperDraft(ps) && m < |ps| && IsFillable(ps[m].block)
    ensures var b := ps[m].block;
            && Contains(FileText(ps), OldText(b.msgid))
            && Replace(FileText(ps), OldText(b.msgid), NewText(b.msgid, translation))
               == FileText(WithBlock(ps, m, FilledBlock(b, Escaped(translation))))
  {
    OnlyHit(ps, m);
    ReplaceEntry(ps, m, Escaped(translation));
  }

  lemma {:induction false} NotBaited(ps: seq<Piece>, m: nat)
    requires NoClash(ps) && m < |ps| && IsFillable(ps[m].block)
    ensures Unbaited(ps, ps[m].block.msgid)
  {
    forall j | 0 <= j < |ps| && ps[j].block.Verbatim?
      ensures !Baits(ps[j].block.lines, ps[m].block.msgid)
    {
      assert PassesOver(ps[j].block.lines, ps[m].block.msgid);
    }
  }

  lemma {:induction false} FillableIsKey(ps: seq<Piece>, m: nat)
    requires Draft(ps) && m < |ps| && IsFillable(ps[m].block)
    ensures IsKey(ps[m].block.msgid) && Free(IdLine(ps[m].block.msgid), '\n') && Free(EMPTY_STR, '\n')
  {
    assert IsSound(ps[m].block);
  }

  lemma {:induction false} SameMsgid(ps: seq<Piece>, k: nat, m: nat)
    requires DistinctMsgids(ps) && k < |ps| && m < |ps|
    requires !ps[k].block.Verbatim? && !ps[m].block.Verbatim? && ps[k].block.msgid == ps[m].block.msgid
    ensures k == m
  {
  }

  lemma {:induction false} OnlyHit(ps: seq<Piece>, m: nat)
    requires ProperDraft(ps) && m < |ps| && IsFillable(ps[m].block)
    ensures HitOnce(ps, m)
  {
    var id := ps[m].block.msgid;
    DraftLines(ps);
    FillableIsKey(ps, m);
    NotBaited(ps, m);
    forall i | HitAt(FileLines(ps), id, i)
      ensures i == Start(ps, m) + |ps[m].block.comments|
    {
      var k := HitInFile(ps, id, i);
      SameMsgid(ps, k, m);
    }
  }

  lemma {:induction false} ReplaceOneHit(lines: seq<string>, id: string, j: nat, line: string)
    requires NoneAfterBreak(lines, EMPTY_STR) && Free(IdLine(id), '\n') && Free(EMPTY_STR, '\n')
    requires j + 1 < |lines| && lines[j] == IdLine(id) && lines[j + 1] == EMPTY_STR
    requires forall i :: HitAt(lines, id, i) ==> i == j
    ensures Contains(Join(lines, "\n"), OldText(id))
    ensures Replace(Join(lines, "\n"), OldText(id), IdLine(id) + "\n" + line) == Join(lines[j + 1 := line], "\n")
  {
    forall i | 0 <= i && i + 1 < |lines| && EndsWith(lines[i], IdLine(id)) && EMPTY_STR <= lines[i + 1]
      ensures i == j
    {
      assert HitAt(lines, id, i);
    }
    ReplaceBetweenLines(lines, j, IdLine(id), EMPTY_STR, line);
  }

  /** Replacing two-line text that fits the lines in one place only. */
  lemma {:induction false} ReplaceBetweenLines(lines: seq<string>, j: nat, a: string, b: string, c: string)
    requires NoneAfterBreak(lines, b) && Free(a, '\n') && Free(b, '\n')
    requires j + 1 < |lines| && lines[j] == a && lines[j + 1] == b
    requires forall i :: 0 <= i && i + 1 < |lines| && EndsWith(lines[i], a) && b <= lines[i + 1] ==> i == j
    ensures Contains(Join(lines, "\n"), a + "\n" + b)
    ensures Replace(Join(lines, "\n"), a + "\n" + b, a + "\n" + c) == Join(lines[j + 1 := c], "\n")
  {
    var before, after := JoinAround(lines, j, c);
    var s, sub := Join(lines, "\n"), a + "\n" + b;
    forall k | 0 <= k <= |s| && OccursAt(s, sub, k)
      ensures k == |before|
    {
      var i := OccursAcross(lines, a, b, k);
      assert i == j;
    }
    ReplaceOnly(before, sub, after, a + "\n" + c);
  }

  // ── An entry listed under a part of its msgid ──

  /** After a msgid line's text comes the rest of its own line, then the lines after it. */
  lemma {:induction false} RestOfLine(lines: seq<string>, id: string, k: nat) returns (i: nat, o: nat, after: string)
    requires lines != [] && IsKey(id) && OccursAt(Join(lines, "\n"), IdLine(id), k)
    ensures i < |lines| && |IdLine(id)| <= o <= |lines[i]| && OccursAt(lines[i], IdLine(id), o - |IdLine(id)|)
    ensures Join(lines, "\n")[k..][|IdLine(id)|..] == lines[i][o..] + after
  {
    var s := Join(lines, "\n");
    assert Free(IdLine(id), '\n');
    i := OccursInLine(lines, IdLine(id), k);
    o := k - Offset(lines, i) + |IdLine(id)|;
    RestOfText(lines, i, k + |IdLine(id)|);
    after := NextLine(lines[i..], "");
    SliceTwice(s, k, |IdLine(id)|);
    SliceHead(lines[i], after, o);
  }

  lemma {:induction false} SliceTwice(s: string, k: nat, n: nat)
    requires k + n <= |s|
    ensures s[k..][n..] == s[k + n..]
  {
  }

  /** Where every line hides the msgid the fallback finds no place either. */
  lemma {:induction false} NoLooseMatch(lines: seq<string>, id: string, k: nat)
    requires lines != [] && IsKey(id) && forall l :: l in lines ==> Hides(l, id)
    requires k <= |Join(lines, "\n")|
    ensures LooseMatch(Join(lines, "\n")[k..], id) == 0
  {
    if IdLine(id) <= Join(lines, "\n")[k..] {
      var i, o, after := RestOfLine(lines, id, k);
      assert lines[i] in lines && OccursAt(lines[i], IdLine(id), o - |IdLine(id)|);
      ShownUnless(lines[i], id, o);
      NoNewlineInRun(lines[i][o..], after);
    }
  }

  /** Something other than white space follows the msgid line in this line. */
  lemma {:induction false} ShownUnless(line: string, id: string, o: nat)
    requires |IdLine(id)| <= o <= |line| && OccursAt(line, IdLine(id), o - |IdLine(id)|) && !Shows(line, id)
    ensures !AllSpace(line[o..], SPACE)
  {
    if AllSpace(line[o..], SPACE) {
      FieldCharsAreNoSpace();
      assert line[..o] == line[..o - |IdLine(id)|] + IdLine(id);
      assert line == line[..o] + line[o..];
      TrimEndPadded(line[..o], line[o..], SPACE);
    }
  }

  lemma {:induction false} NoNewlineInRun(r: string, after: string)
    requires !AllSpace(r, SPACE) && Free(r, '\n')
    ensures '\n' !in (r + after)[..SpaceRun(r + after, SPACE)]
  {
    var n := SpaceRun(r + after, SPACE);
    var c :| c in r && !SPACE(c);
    var j :| 0 <= j < |r| && r[j] == c;
    assert (r + after)[j] == r[j];
    assert n <= j;
    assert (r + after)[..n] == r[..n];
  }

  lemma {:induction false} NotContained(lines: seq<string>, id: string)
    requires lines != [] && NoneAfterBreak(lines, EMPTY_STR) && IsKey(id) && forall l :: l in lines ==> Hides(l, id)
    ensures !Contains(Join(lines, "\n"), OldText(id))
  {
    var s := Join(lines, "\n");
    ContainsIff(s, OldText(id));
    assert Free(IdLine(id), '\n') && Free(EMPTY_STR, '\n');
    forall k | 0 <= k <= |s|
      ensures !OccursAt(s, OldText(id), k)
    {
      if OccursAt(s, OldText(id), k) {
        var i := OccursAcross(lines, IdLine(id), EMPTY_STR, k);
        assert lines[i] in lines && OccursAt(lines[i], IdLine(id), |lines[i]| - |IdLine(id)|);
        ClosedIsTrimmed(lines[i]);
      }
    }
  }

  /** Then the entry is neither filled nor counted. */
  lemma {:induction false} NothingApplied(lines: seq<string>, id: string, dict: map<string, string>)
    requires lines != [] && NoneAfterBreak(lines, EMPTY_STR) && IsKey(id) && forall l :: l in lines ==> Hides(l, id)
    ensures ApplyOne(Join(lines, "\n"), id, dict) == (Join(lines, "\n"), 0)
  {
    var s := Join(lines, "\n");
    NotContained(lines, id);
    if id in dict {
      LooseStartIsFirst(s, id);
      LooseIsSpliced(s, id, NewText(id, dict[id]));
      NoLooseMatch(lines, id, LooseStart(s, id));
    }
  }

  lemma {:induction false} EveryLineHides(ps: seq<Piece>, m: nat)
    requires ProperDraft(ps) && m < |ps| && IsEmptyEntry(ps[m].block) && !IsFillable(ps[m].block)
    ensures IsKey(UpToQuote(ps[m].block.msgid))
    ensures forall l :: l in FileLines(ps) ==> Hides(l, UpToQuote(ps[m].block.msgid))
  {
    var id := UpToQuote(ps[m].block.msgid);
    CutIsUnquotable(ps[m].block.msgid);
    assert forall c :: c in id ==> c in ps[m].block.msgid;
    forall l | l in FileLines(ps)
      ensures Hides(l, id)
    {
      LinesOfFile(ps, l);
      if i :| 0 <= i < |ps| && l in Lines(ps[i].block) {
        if ps[i].block.Verbatim? {
          assert PassesOver(ps[i].block.lines, ps[m].block.msgid);
        } else {
          EntryHidesCut(ps[i].block, l, id);
        }
      }
    }
  }

  /** An entry whose msgid has a quote is listed under a part of it, and no run fills it. */
  lemma {:induction false} QuotedIsNotFilled(ps: seq<Piece>, m: nat, dict: map<string, string>)
    requires ProperDraft(ps) && m < |ps| && IsEmptyEntry(ps[m].block) && !IsFillable(ps[m].block)
    ensures ApplyOne(FileText(ps), UpToQuote(ps[m].block.msgid), dict) == (FileText(ps), 0)
  {
    EveryLineHides(ps, m);
    DraftLines(ps);
    LinesOfBlock(ps, m);
    NothingApplied(FileLines(ps), UpToQuote(ps[m].block.msgid), dict);
  }

  // ── A whole run ──

  predicate IsKnown(b: Block, dict: map<string, string>) {
    IsFillable(b) && b.msgid in dict
  }

  function Fill(b: Block, dict: map<string, string>): Block {
    if IsKnown(b, dict) then FilledBlock(b, Escaped(dict[b.msgid])) else b
  }

  /** The first `n` blocks filled. */
  function FillUpTo(ps: seq<Piece>, n: nat, dict: map<string, string>): seq<Piece> {
    seq(|ps|, i requires 0 <= i < |ps| => if i < n then ps[i].(block := Fill(ps[i].block, dict)) else ps[i])
  }

  function FillAll(ps: seq<Piece>, dict: map<string, string>): seq<Piece> {
    FillUpTo(ps, |ps|, dict)
  }

  function CountKnown(ps: seq<Piece>, dict: map<string, string>): nat {
    if ps == [] then 0
    else CountKnown(ps[..|ps| - 1], dict) + if IsKnown(ps[|ps| - 1].block, dict) then 1 else 0
  }

  predicate OneLine(dict: map<string, string>) {
    forall id :: id in dict ==> Free(dict[id], '\n')
  }

  /** Filling keeps what kind of block it is, its msgid, and whether it has a translation. */
  lemma {:induction false} FillKeepsBlock(b: Block, dict: map<string, string>)
    requires WellFormed(b)
    ensures var b' := Fill(b, dict);
            && IsSound(b') && b'.Verbatim? == b.Verbatim? && (b.Verbatim? ==> b' == b)
            && (!b.Verbatim? ==> b'.msgid == b.msgid) && (IsEmptyEntry(b') ==> IsEmptyEntry(b))
            && (OneLine(dict) ==> WellFormed(b'))
  {
    if IsKnown(b, dict) {
      EscapedIsQuotable(dict[b.msgid]);
    }
  }

  lemma {:induction false} FillKeepsProper(ps: seq<Piece>, n: nat, dict: map<string, string>)
    requires Proper(ps)
    ensures ProperDraft(FillUpTo(ps, n, dict))
    ensures OneLine(dict) ==> Proper(FillUpTo(ps, n, dict))
  {
    var qs := FillUpTo(ps, n, dict);
    forall i | 0 <= i < |ps|
      ensures qs[i].gap == ps[i].gap && IsSound(qs[i].block) && (OneLine(dict) ==> WellFormed(qs[i].block))
      ensures qs[i].block.Verbatim? == ps[i].block.Verbatim? && (qs[i].block.Verbatim? ==> qs[i] == ps[i])
      ensures !qs[i].block.Verbatim? ==> qs[i].block.msgid == ps[i].block.msgid
      ensures IsEmptyEntry(qs[i].block) ==> IsEmptyEntry(ps[i].block)
    {
      FillKeepsBlock(ps[i].block, dict);
    }
  }

  lemma {:induction false} KnownIsFilled(ps: seq<Piece>, m: nat, dict: map<string, string>)
    requires ProperDraft(ps) && m < |ps| && IsKnown(ps[m].block, dict)
    ensures ApplyOne(FileText(ps), ps[m].block.msgid, dict) == (FileText(WithBlock(ps, m, Fill(ps[m].block, dict))), 1)
  {
    ReplaceFillsOne(ps, m, dict[ps[m].block.msgid]);
  }

  lemma {:induction false} FillStep(ps: seq<Piece>, n: nat, dict: map<string, string>)
    requires Proper(ps) && 0 < n <= |ps| && IsEmptyEntry(ps[n - 1].block)
    ensures ApplyOne(FileText(FillUpTo(ps, n - 1, dict)), UpToQuote(ps[n - 1].block.msgid), dict)
         == (FileText(FillUpTo(ps, n, dict)), if IsKnown(ps[n - 1].block, dict) then 1 else 0)
  {
    FillKeepsProper(ps, n - 1, dict);
    StepOn(FillUpTo(ps, n - 1, dict), n - 1, dict);
    if IsKnown(ps[n - 1].block, dict) {
      assert WithBlock(FillUpTo(ps, n - 1, dict), n - 1, Fill(ps[n - 1].block, dict)) == FillUpTo(ps, n, dict);
    } else {
      OthersAreNotFilled(ps, n, dict);
    }
  }

  lemma {:induction false} StepOn(ps: seq<Piece>, m: nat, dict: map<string, string>)
    requires ProperDraft(ps) && m < |ps| && IsEmptyEntry(ps[m].block)
    ensures ApplyOne(FileText(ps), UpToQuote(ps[m].block.msgid), dict) ==
              if IsKnown(ps[m].block, dict) then (FileText(WithBlock(ps, m, Fill(ps[m].block, dict))), 1)
              else (FileText(ps), 0)
  {
    UpToQuoteWhole(ps[m].block.msgid);
    if IsKnown(ps[m].block, dict) {
      KnownIsFilled(ps, m, dict);
    } else if !IsFillable(ps[m].block) {
      QuotedIsNotFilled(ps, m, dict);
    }
  }

  /** `f`, applied to each empty entry in turn, fills it if it is known. */
  ghost predicate FillsEach(f: Step, ps: seq<Piece>, dict: map<string, string>) {
    forall n :: 0 < n <= |ps| && IsEmptyEntry(ps[n - 1].block) ==>
      f(FileText(FillUpTo(ps, n - 1, dict)), UpToQuote(ps[n - 1].block.msgid))
      == (FileText(FillUpTo(ps, n, dict)), if IsKnown(ps[n - 1].block, dict) then 1 else 0)
  }

  /** The filler's loop over the entries of the first `n` blocks fills those blocks. */
  lemma {:induction false} LoopFills(
    f: Step, ps: seq<Piece>, n: nat, entries: seq<(string, string)>, dict: map<string, string>)
    requires FillsEach(f, ps, dict) && n <= |ps| && Ids(entries) == ListedIds(ps[..n])
    ensures ApplyAll(f, FileText(ps), entries) == (FileText(FillUpTo(ps, n, dict)), CountKnown(ps[..n], dict))
    decreases n
  {
    if n == 0 {
      assert FillUpTo(ps, 0, dict) == ps;
    } else {
      var b := ps[n - 1].block;
      assert ps[..n][..n - 1] == ps[..n - 1];
      if IsEmptyEntry(b) {
        LastId(entries, ListedIds(ps[..n - 1]), UpToQuote(b.msgid));
        LoopFills(f, ps, n - 1, entries[..|entries| - 1], dict);
      } else {
        LoopFills(f, ps, n - 1, entries, dict);
        OthersAreNotFilled(ps, n, dict);
      }
    }
  }

  lemma {:induction false} LastId(entries: seq<(string, string)>, ids: seq<string>, id: string)
    requires Ids(entries) == ids + [id]
    ensures entries != [] && Ids(entries[..|entries| - 1]) == ids && entries[|entries| - 1].0 == id
  {
    assert Ids(entries[..|entries| - 1]) == Ids(entries)[..|entries| - 1];
    assert Ids(entries)[|entries| - 1] == id;
  }

  lemma {:induction false} OthersAreNotFilled(ps: seq<Piece>, n: nat, dict: map<string, string>)
    requires 0 < n <= |ps| && !IsKnown(ps[n - 1].block, dict)
    ensures FillUpTo(ps, n, dict) == FillUpTo(ps, n - 1, dict)
  {
  }

  lemma {:induction false} EachIsFilled(ps: seq<Piece>, dict: map<string, string>)
    requires Proper(ps)
    ensures FillsEach(Filling(dict), ps, dict)
  {
    forall n | 0 < n <= |ps| && IsEmptyEntry(ps[n - 1].block)
      ensures Filling(dict)(FileText(FillUpTo(ps, n - 1, dict)), UpToQuote(ps[n - 1].block.msgid))
           == (FileText(FillUpTo(ps, n, dict)), if IsKnown(ps[n - 1].block, dict) then 1 else 0)
    {
      FillStep(ps, n, dict);
    }
  }

  lemma {:induction false} EntriesOfFile(ps: seq<Piece>, f: string -> Option<string>)
    requires Catalogue(ps) && f == LISTED
    ensures Ids(Select(f, Blocks(FileText(ps)))) == ListedIds(ps)
  {
    BlocksOfFile(ps);
    ListsEmptyEntries(ps);
  }

  /**
   A run fills exactly the active empty entries the dictionary knows, each with its
   escaped translation, and counts them; no other character of the file changes.
   */
  lemma {:induction false} FillsExactlyKnownEntries(ps: seq<Piece>, dict: map<string, string>)
    requires Proper(ps)
    ensures Filled(FileText(ps), dict) == (FileText(FillAll(ps, dict)), CountKnown(ps, dict))
  {
    var entries := Select(LISTED, Blocks(FileText(ps)));
    EachIsFilled(ps, dict);
    EntriesOfFile(ps, LISTED);
    RunFills(Filling(dict), ps, entries, dict);
  }

  lemma {:induction false} RunFills(f: Step, ps: seq<Piece>, entries: seq<(string, string)>, dict: map<string, string>)
    requires FillsEach(f, ps, dict) && Ids(entries) == ListedIds(ps)
    ensures ApplyAll(f, FileText(ps), entries) == (FileText(FillAll(ps, dict)), CountKnown(ps, dict))
  {
    assert ps[..|ps|] == ps;
    LoopFills(f, ps, |ps|, entries, dict);
  }

  // ── The second run ──

  lemma {:induction false} NoneKnown(ps: seq<Piece>, dict: map<string, string>)
    requires forall i :: 0 <= i < |ps| ==> !IsKnown(ps[i].block, dict)
    ensures CountKnown(ps, dict) == 0
  {
    if ps != [] {
      NoneKnown(ps[..|ps| - 1], dict);
    }
  }

  lemma {:induction false} FilledIsDone(ps: seq<Piece>, dict: map<string, string>)
    requires forall id :: id in dict ==> dict[id] != ""
    ensures FillAll(FillAll(ps, dict), dict) == FillAll(ps, dict)
    ensures CountKnown(FillAll(ps, dict), dict) == 0
  {
    var done := FillAll(ps, dict);
    forall i | 0 <= i < |ps|
      ensures !IsKnown(done[i].block, dict)
    {
      if IsKnown(ps[i].block, dict) {
        EscapedIsQuotable(dict[ps[i].block.msgid]);
      }
    }
    NoneKnown(done, dict);
  }

  /** With translations that are not empty, a second run fills nothing and leaves the file as it is. */
  lemma {:induction false} SecondRunChangesNothing(ps: seq<Piece>, dict: map<string, string>)
    requires Proper(ps) && OneLine(dict)
    requires forall id :: id in dict ==> dict[id] != ""
    ensures var once := Filled(FileText(ps), dict).0;
            Filled(once, dict) == (once, 0)
  {
    FillsExactlyKnownEntries(ps, dict);
    FillKeepsProper(ps, |ps|, dict);
    FilledIsDone(ps, dict);
    FillsExactlyKnownEntries(FillAll(ps, dict), dict);
  }

  // ── An entry the script can never fill ──

  /** A quoted msgid in a file of its own stays without translation, whatever the dictionary holds. */
  lemma {:induction false} LoneQuotedEntry(b: Block, dict: map<string, string>)
    requires WellFormed(b) && IsEmptyEntry(b) && !Free(b.msgid, '"')
    ensures Filled(FileText([Piece(b, 1)]), dict) == (FileText([Piece(b, 1)]), 0)
  {
    var ps := [Piece(b, 1)];
    NoneKnown(ps, dict);
    assert FillAll(ps, dict) == ps;
    FillsExactlyKnownEntries(ps, dict);
  }

  /** The msgid `a \"b\"`. */
  const QUOTED := "a \\\"b\\\""

  lemma {:induction false} QuotedIsMsgid()
    ensures IsMsgid(QUOTED) && UpToQuote(QUOTED) == "a \\" && !Free(QUOTED, '"')
  {
    assert QUOTED[1..] == " \\\"b\\\"" && " \\\"b\\\""[1..] == "\\\"b\\\"";
    assert "\\\"b\\\""[2..] == "b\\\"" && "b\\\""[1..] == "\\\"" && "\\\""[2..] == "";
    assert "\\\"b\\\""[1..] == "\"b\\\"";
    assert QUOTED[3] == '"';
  }

  /** It is listed as `a \`, and stays empty whatever the dictionary holds. */
  lemma {:induction false} QuotedEntryStaysEmpty(dict: map<string, string>)
    ensures var b := Single([], QUOTED, "");
            && WellFormed(b) && Listed(BlockText(b, true)) == Some("a \\")
            && Filled(FileText([Piece(b, 1)]), dict) == (FileText([Piece(b, 1)]), 0)
  {
    var b := Single([], QUOTED, "");
    QuotedIsMsgid();
    assert WellFormed(b);
    ListedIff(b, true);
    LoneQuotedEntry(b, dict);
  }
}
