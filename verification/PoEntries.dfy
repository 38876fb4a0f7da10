/**
 Blocks of a catalogue and what the scanner sees in each: an active single-line entry,
 or text of any other kind that it must pass over.
 */
module PoEntries {
  import opened Wrappers
  import opened Text
  import opened Substrings
  import opened PoCatalog
  import opened PoEscape

  /**
   An entry with its comment lines, a one-line msgid and a msgstr on one line (Single) or
   continued on further lines (Continued); or any other block taken verbatim (the header,
   an obsolete entry, an entry with a continued msgid). Texts are as between the quotes,
   escapes included.
   */
  datatype Block =
    | Single(comments: seq<string>, msgid: string, msgstr: string)
    | Continued(comments: seq<string>, msgid: string, more: seq<string>)
    | Verbatim(lines: seq<string>)

  function Lines(b: Block): seq<string> {
    match b
    case Single(comments, msgid, msgstr) => comments + [IdLine(msgid), StrLine(msgstr)]
    case Continued(comments, msgid, more) => comments + [IdLine(msgid), EMPTY_STR] + more
    case Verbatim(lines) => lines
  }

  predicate IsEmptyEntry(b: Block) {
    b.Single? && b.msgstr == ""
  }

  // ── Well-formed blocks ──

  predicate IsLine(line: string) {
    line != "" && Free(line, '\n')
  }

  predicate AreLines(lines: seq<string>) {
    forall l :: l in lines ==> IsLine(l)
  }

  /** A comment of an active entry that cannot be taken for one of its fields. */
  predicate IsComment(line: string) {
    && IsLine(line) && line[0] == '#' && !(OBSOLETE <= line)
    && !Contains(line, ID) && !Contains(line, STR)
  }

  predicate IsMsgid(id: string) {
    id != "" && IsQuotable(id) && Free(id, '\n')
  }

  /** A text the script can look up: what it captures never holds a quote. */
  predicate IsKey(id: string) {
    id != "" && Free(id, '"') && Free(id, '\n')
  }

  /** A line in quotes whose inner quotes are escaped, as a PO string is continued. */
  predicate IsContinuation(line: string) {
    |line| >= 2 && line[0] == '"' && Free(line, '\n')
    && forall i :: 0 < i < |line| - 1 && line[i] == '"' ==> line[i - 1] == '\\'
  }

  predicate IsClosed(line: string) {
    IsContinuation(line) && line[|line| - 1] == '"'
  }

  predicate Passed(lines: seq<string>) {
    Listed(Join(lines, "\n")).None? && Listed(Join(lines, "\n") + "\n").None?
  }

  /** Fields and comments are what they look like; a translation may run over lines. */
  predicate IsSound(b: Block) {
    match b
    case Single(comments, msgid, msgstr) =>
      (forall c :: c in comments ==> IsComment(c)) && IsMsgid(msgid) && QuotesEscaped(msgstr)
    case Continued(comments, msgid, more) =>
      && (forall c :: c in comments ==> IsComment(c)) && IsMsgid(msgid)
      && more != [] && (forall l :: l in more ==> IsClosed(l))
    case Verbatim(lines) => lines != [] && AreLines(lines) && Passed(lines)
  }

  predicate WellFormed(b: Block) {
    IsSound(b) && (b.Single? ==> Free(b.msgstr, '\n'))
  }

  // ── A quote in a msgid or msgstr line ──

  lemma {:induction false} IdLineQuotes(id: string, i: nat)
    requires IsMsgid(id) && i < |IdLine(id)| && IdLine(id)[i] == '"'
    ensures i == 6 || i == |id| + 7 || (i > 0 && IdLine(id)[i - 1] == '\\')
  {
    var line := IdLine(id);
    QuotableQuotes(id);
    if 7 <= i < |id| + 7 {
      assert line[i] == id[i - 7];
      assert line[i - 1] == id[i - 8];
    }
  }

  lemma {:induction false} NoTwoQuotes(id: string, i: nat)
    requires IsMsgid(id) && 0 < i && i + 1 < |IdLine(id)| && IdLine(id)[i - 1] == ' '
    ensures IdLine(id)[i] != '"' || IdLine(id)[i + 1] != '"'
  {
    if IdLine(id)[i] == '"' {
      IdLineQuotes(id, i);
      assert IdLine(id)[7] == id[0];
    }
  }

  lemma {:induction false} StrLineQuotes(text: string, i: nat)
    requires QuotesEscaped(text) && i < |StrLine(text)| && StrLine(text)[i] == '"' && i != 7
    ensures StrLine(text)[i - 1] == '\\' || i == |text| + 8
  {
    var line := StrLine(text);
    if 8 <= i < |text| + 8 {
      assert line[i] == text[i - 8];
      assert line[i - 1] == text[i - 9];
    }
  }

  lemma {:induction false} BlocksAreLines(b: Block)
    requires WellFormed(b)
    ensures AreLines(Lines(b)) && Lines(b) != []
  {
    forall l | l in Lines(b)
      ensures IsLine(l)
    {
      match b
      case Single(comments, msgid, msgstr) =>
        assert l in comments || l == IdLine(msgid) || l == StrLine(msgstr);
      case Continued(comments, msgid, more) =>
        assert l in comments || l == IdLine(msgid) || l == EMPTY_STR || l in more;
      case Verbatim(_) =>
    }
  }

  // ── Searching for a field ──

  lemma {:induction false} SearchFirst(s: string, key: string, p: nat)
    requires p < |s| && OccursAt(s, key, p) && forall i :: 0 <= i < p ==> !OccursAt(s, key, i)
    requires Captured(s[p + |key|..]).Some?
    ensures Search(s, key) == Captured(s[p + |key|..])
  {
    assert s[0..] == s;
    if p > 0 {
      assert !OccursAt(s, key, 0);
      forall i | 0 <= i < p - 1
        ensures !OccursAt(s[1..], key, i)
      {
        assert s[1..][i..] == s[i + 1..];
        assert !OccursAt(s, key, i + 1);
      }
      assert s[1..][p - 1..] == s[p..];
      assert s[1..][p - 1 + |key|..] == s[p + |key|..];
      SearchFirst(s[1..], key, p - 1);
    }
  }

  lemma {:induction false} SearchSome(s: string, key: string, p: nat)
    requires p < |s| && OccursAt(s, key, p) && Captured(s[p + |key|..]).Some?
    ensures Search(s, key).Some?
  {
    assert s[0..] == s;
    if p > 0 {
      assert s[1..][p - 1..] == s[p..];
      assert s[1..][p - 1 + |key|..] == s[p + |key|..];
      SearchSome(s[1..], key, p - 1);
    }
  }

  lemma {:induction false} SearchNone(s: string, key: string)
    requires forall i :: 0 <= i <= |s| && OccursAt(s, key, i) ==> Captured(s[i + |key|..]).None?
    ensures Search(s, key) == None
  {
    if s != "" {
      assert s[0..] == s;
      assert key <= s ==> OccursAt(s, key, 0);
      forall i | 0 <= i <= |s[1..]| && OccursAt(s[1..], key, i)
        ensures Captured(s[1..][i + |key|..]).None?
      {
        assert s[1..][i..] == s[i + 1..];
        assert OccursAt(s, key, i + 1);
        assert s[1..][i + |key|..] == s[i + 1 + |key|..];
      }
      SearchNone(s[1..], key);
    }
  }

  lemma {:induction false} StopAt(s: string, n: nat)
    requires n <= |s| && (forall i :: 0 <= i < n ==> s[i] != '"' && s[i] != '\n')
    requires n < |s| ==> s[n] == '"' || s[n] == '\n'
    ensures Stop(s) == n
  {
  }

  /** A text is captured up to its first quote, escaped or closing. */
  lemma {:induction false} CapturedId(id: string, rest: string)
    requires IsMsgid(id)
    ensures Captured(id + "\"" + rest) == Some(UpToQuote(id))
  {
    var s, t := id + "\"" + rest, UpToQuote(id);
    assert s[0] == id[0] && id[0] in id;
    assert t != "" && t == s[..|t|] && s[|t|] == '"';
    assert forall i :: 0 <= i < |t| ==> s[i] == t[i] && t[i] in t && id[i] in id;
    StopAt(s[1..], |t| - 1);
  }

  /** A text on one line up to a closing quote is captured in some part. */
  lemma {:induction false} CapturedSome(text: string, rest: string)
    requires text != "" && Free(text, '\n')
    ensures Captured(text + "\"" + rest).Some?
  {
    var s := text + "\"" + rest;
    assert s[0] == text[0] && text[0] in text;
    assert forall i :: 0 <= i < |text| ==> s[i] == text[i] && text[i] in text;
    var n := Stop(s[1..]);
    assert s[|text|] == '"';
    assert n <= |text| - 1 by {
      assert s[1..][|text| - 1] == '"';
    }
  }

  // ── Lines of a block ──

  lemma {:induction false} OffsetText(lines: seq<string>, i: nat)
    requires i < |lines|
    ensures Offset(lines, i) <= |Join(lines, "\n")|
    ensures Join(lines, "\n")[Offset(lines, i)..] == Join(lines[i..], "\n")
  {
    if i == 0 {
      assert lines[0..] == lines;
    } else {
      JoinHead(lines);
      OffsetText(lines[1..], i - 1);
      assert lines[1..][i - 1..] == lines[i..];
    }
  }

  lemma {:induction false} OffsetGrows(lines: seq<string>, i: nat, j: nat)
    requires i <= j <= |lines|
    ensures Offset(lines, i) <= Offset(lines, j)
  {
    if i > 0 {
      OffsetGrows(lines[1..], i - 1, j - 1);
    }
  }

  /** A line may open the quoted text of a msgid only where an entry's msgid line does. */
  lemma {:induction false} NoEmptyIdInLine(b: Block, line: string, o: nat)
    requires b.Single? && WellFormed(b) && (line in Lines(b) || line == "")
    ensures !OccursAt(line, EMPTY_ID, o)
  {
    if OccursAt(line, EMPTY_ID, o) {
      assert line[o..o + 8] == EMPTY_ID;
      assert line[o] == 'm' && line[o + 5] == ' ' && line[o + 6] == '"' && line[o + 7] == '"';
      if line == IdLine(b.msgid) {
        NoTwoQuotes(b.msgid, o + 6);
      } else if line == StrLine(b.msgstr) {
        if o + 6 != 7 { StrLineQuotes(b.msgstr, o + 6); }
      } else if line != "" {
        assert OccursAt(line, ID, o);
        CommentHasNoField(line, ID);
      }
    }
  }

  lemma {:induction false} CommentHasNoField(line: string, key: string)
    requires IsComment(line) && (key == ID || key == STR)
    ensures forall o :: 0 <= o <= |line| ==> !OccursAt(line, key, o)
  {
    ContainsIff(line, key);
  }

  // ── The scanner on an active entry ──

  /** The lines of an entry at the end of the file or before more of it. */
  function Ended(b: Block, last: bool): seq<string> {
    if last then Lines(b) + [""] else Lines(b)
  }

  function BlockText(b: Block, last: bool): string {
    Join(Lines(b), "\n") + if last then "\n" else ""
  }

  lemma {:induction false} EndedText(b: Block, last: bool)
    requires Lines(b) != []
    ensures Join(Ended(b, last), "\n") == BlockText(b, last)
  {
    if last {
      JoinConcat(Lines(b), [""], "\n");
    }
  }

  lemma {:induction false} EndedIsFree(b: Block, last: bool)
    requires b.Single? && WellFormed(b)
    ensures AllFree(Ended(b, last), '\n') && Lines(b) != []
  {
    BlocksAreLines(b);
    forall l | l in Ended(b, last)
      ensures Free(l, '\n')
    {
      assert l in Lines(b) || l == "";
    }
  }

  lemma {:induction false} NoEmptyIdInEntry(b: Block, last: bool)
    requires b.Single? && WellFormed(b)
    ensures !Contains(BlockText(b, last), EMPTY_ID)
  {
    var lines := Ended(b, last);
    EndedText(b, last);
    EndedIsFree(b, last);
    forall l, o: nat | l in lines
      ensures !OccursAt(l, EMPTY_ID, o)
    {
      NoEmptyIdInLine(b, l, o);
    }
    NotInLines(lines, EMPTY_ID);
  }

  lemma {:induction false} TrimKeepsStart(line: string)
    requires line != "" && !SPACE(line[0])
    ensures Trim(line, SPACE) != "" && Trim(line, SPACE) <= line
  {
    assert TrimStart(line, SPACE) == line;
    TrimEndKeepsStart(line, SPACE);
  }

  lemma {:induction false} NothingObsolete(b: Block)
    requires b.Single? && WellFormed(b)
    ensures !HasObsolete(Lines(b))
  {
    assert !SPACE('#') && !SPACE('m');
    ObsoleteIff(Lines(b));
    forall line | line in Lines(b)
      ensures !(OBSOLETE <= Trim(line, SPACE))
    {
      assert line in b.comments || line == IdLine(b.msgid) || line == StrLine(b.msgstr);
      TrimKeepsStart(line);
      assert OBSOLETE <= Trim(line, SPACE) ==> OBSOLETE <= line;
      assert OBSOLETE[0] == '#' && ID[0] == 'm' && STR[0] == 'm';
    }
  }

  lemma {:induction false} NothingContinued(b: Block)
    requires b.Single? && WellFormed(b)
    ensures !HasContinuation(Lines(b))
  {
    ContinuationIff(Lines(b));
    forall j | 0 <= j < |Lines(b)|
      ensures !IsQuoted(Lines(b)[j])
    {
      var line := Lines(b)[j];
      assert line in b.comments || line == IdLine(b.msgid) || line == StrLine(b.msgstr);
      assert ID[0] == 'm' && STR[0] == 'm';
      assert line[0] == '#' || line[0] == 'm';
    }
  }

  /** A field on a line of its own, found in the joined text. */
  lemma {:induction false} FieldOnLine(lines: seq<string>, n: nat, key: string, value: string) returns (rest: string)
    requires n < |lines| && lines[n] == key + value + "\"" && key != ""
    ensures var t, p := Join(lines, "\n"), Offset(lines, n);
            p < |t| && OccursAt(t, key, p) && t[p + |key|..] == value + "\"" + rest
  {
    var t, p := Join(lines, "\n"), Offset(lines, n);
    OffsetText(lines, n);
    rest := NextLine(lines[n..], "");
    assert lines[n..][0] == lines[n];
    var u := t[p..];
    assert u == key + (value + "\"" + rest);
    assert t[p + |key|..] == u[|key|..];
  }

  lemma {:induction false} NoKeyBeforeFields(b: Block, last: bool, key: string, k: nat)
    requires b.Single? && WellFormed(b) && (key == ID || key == STR)
    requires OccursAt(BlockText(b, last), key, k)
    ensures k >= Offset(Ended(b, last), |b.comments|)
  {
    var lines := Ended(b, last);
    EndedText(b, last);
    EndedIsFree(b, last);
    assert Free(ID, '\n') && Free(STR, '\n');
    var i := OccursInLine(lines, key, k);
    if i < |b.comments| { CommentHasNoField(lines[i], key); }
    OffsetGrows(lines, |b.comments|, i);
  }

  /** What the scanner finds first in an entry is its msgid, up to the first quote. */
  lemma {:induction false} EntryId(b: Block, last: bool)
    requires b.Single? && WellFormed(b)
    ensures Search(BlockText(b, last), ID) == Some(UpToQuote(b.msgid))
  {
    var t := BlockText(b, last);
    var p := Offset(Ended(b, last), |b.comments|);
    EndedText(b, last);
    var rest := FieldOnLine(Ended(b, last), |b.comments|, ID, b.msgid);
    CapturedId(b.msgid, rest);
    NoIdBeforeFields(b, last);
    SearchFirst(t, ID, p);
  }

  lemma {:induction false} NoIdBeforeFields(b: Block, last: bool)
    requires b.Single? && WellFormed(b)
    ensures forall i :: 0 <= i < Offset(Ended(b, last), |b.comments|) ==> !OccursAt(BlockText(b, last), ID, i)
  {
    forall i | 0 <= i < Offset(Ended(b, last), |b.comments|)
      ensures !OccursAt(BlockText(b, last), ID, i)
    {
      if OccursAt(BlockText(b, last), ID, i) {
        NoKeyBeforeFields(b, last, ID, i);
      }
    }
  }

  /** A translated entry shows a msgstr. */
  lemma {:induction false} TranslatedEntryHasStr(b: Block, last: bool)
    requires b.Single? && WellFormed(b) && b.msgstr != ""
    ensures Search(BlockText(b, last), STR).Some?
  {
    var t := BlockText(b, last);
    var p := Offset(Ended(b, last), |b.comments| + 1);
    EndedText(b, last);
    var rest := FieldOnLine(Ended(b, last), |b.comments| + 1, STR, b.msgstr);
    CapturedSome(b.msgstr, rest);
    SearchSome(t, STR, p);
  }

  /** An empty one does not, even when its msgid ends in the name of the field. */
  lemma {:induction false} EmptyEntryHasNoStr(b: Block, last: bool)
    requires b.Single? && WellFormed(b) && b.msgstr == ""
    ensures Search(BlockText(b, last), STR) == None
  {
    var t := BlockText(b, last);
    forall k | 0 <= k <= |t| && OccursAt(t, STR, k)
      ensures Captured(t[k + |STR|..]).None?
    {
      StrInEmptyEntry(b, last, k);
    }
    SearchNone(t, STR);
  }

  /** In a msgid line the name of the field can only be followed by the end of the line. */
  lemma {:induction false} StrInIdLine(id: string, o: nat, rest: string)
    requires IsMsgid(id) && OccursAt(IdLine(id), STR, o)
    ensures o + |STR| == |IdLine(id)|
    ensures Captured((IdLine(id) + "\n" + rest)[o + |STR|..]).None?
  {
    assert IdLine(id)[o..][7] == STR[7] == '"';
    IdLineQuotes(id, o + 7);
    assert IdLine(id)[o] == STR[0] == 'm';
    assert (IdLine(id) + "\n" + rest)[|IdLine(id)|] == '\n';
  }

  /** In an empty msgstr line it is followed by the closing quote alone. */
  lemma {:induction false} StrInEmptyStrLine(o: nat, last: bool)
    requires OccursAt(EMPTY_STR, STR, o)
    ensures Captured((EMPTY_STR + if last then "\n" else "")[o + |STR|..]).None?
  {
    assert EMPTY_STR[o..][0] == STR[0] == 'm';
    assert o == 0;
    assert (EMPTY_STR + if last then "\n" else "")[8..] == "\"" + if last then "\n" else "";
  }

  /** The text from a place within line `i` on. */
  lemma {:induction false} RestOfText(lines: seq<string>, i: nat, k: nat)
    requires i < |lines| && Offset(lines, i) <= k <= Offset(lines, i) + |lines[i]|
    ensures k <= |Join(lines, "\n")|
    ensures k - Offset(lines, i) <= |Join(lines[i..], "\n")|
    ensures Join(lines, "\n")[k..] == Join(lines[i..], "\n")[k - Offset(lines, i)..]
  {
    OffsetText(lines, i);
    var rest := NextLine(lines[i..], "");
  }

  lemma {:induction false} StrInEmptyEntry(b: Block, last: bool, k: nat)
    requires b.Single? && WellFormed(b) && b.msgstr == "" && OccursAt(BlockText(b, last), STR, k)
    ensures Captured(BlockText(b, last)[k + |STR|..]).None?
  {
    var lines, n := Ended(b, last), |b.comments|;
    EndedText(b, last);
    EndedIsFree(b, last);
    assert Free(STR, '\n');
    var i := OccursInLine(lines, STR, k);
    var o := k - Offset(lines, i);
    RestOfText(lines, i, k + |STR|);
    if i < n { CommentHasNoField(lines[i], STR); }
    if i == n {
      JoinHead(lines[n..]);
      StrInIdLine(b.msgid, o, Join(lines[n..][1..], "\n"));
    } else {
      EmptyTail(b, last);
      StrInEmptyStrLine(o, last);
    }
  }

  lemma {:induction false} EmptyTail(b: Block, last: bool)
    requires b.Single? && b.msgstr == ""
    ensures var lines, n := Ended(b, last), |b.comments|;
            && lines[n + 1] == EMPTY_STR && (|lines| == n + 2 || (|lines| == n + 3 && lines[n + 2] == ""))
            && Join(lines[n + 1..], "\n") == EMPTY_STR + if last then "\n" else ""
  {
    var lines, n := Ended(b, last), |b.comments|;
    assert StrLine("") == EMPTY_STR;
    assert lines[n + 1..] == if last then [EMPTY_STR, ""] else [EMPTY_STR];
  }

  lemma {:induction false} EntryIsTrimmed(b: Block, last: bool)
    requires b.Single? && WellFormed(b)
    ensures Trim(BlockText(b, last), SPACE) == Join(Lines(b), "\n")
    ensures Join(Lines(b), "\n") != ""
  {
    EntryEnds(b);
    FieldCharsAreNoSpace();
    TrimEnded(Join(Lines(b), "\n"), if last then "\n" else "", SPACE);
  }

  lemma {:induction false} FieldCharsAreNoSpace()
    ensures !SPACE('#') && !SPACE('m') && !SPACE('"') && SPACE('\n')
  {
  }

  lemma {:induction false} EntryEnds(b: Block)
    requires b.Single? && WellFormed(b)
    ensures var t := Join(Lines(b), "\n");
            t != "" && (t[0] == '#' || t[0] == 'm') && t[|t| - 1] == '"'
  {
    var lines := Lines(b);
    BlocksAreLines(b);
    JoinEnds(lines);
    assert lines[0] == IdLine(b.msgid) || lines[0] in b.comments;
    assert lines[|lines| - 1] == StrLine(b.msgstr) && ID[0] == 'm';
  }

  /** What is listed of a block that passes every other guard depends on the two searches. */
  lemma {:induction false} ListedBySearch(block: string, lines: seq<string>)
    requires Trim(block, SPACE) == Join(lines, "\n") != "" && Split(Join(lines, "\n"), '\n') == lines
    requires !Contains(block, EMPTY_ID) && !HasObsolete(lines) && !HasContinuation(lines)
    ensures Listed(block) == if Search(block, STR).Some? then None else Search(block, ID)
  {
  }

  lemma {:induction false} EntryIsSearched(b: Block, last: bool)
    requires b.Single? && WellFormed(b)
    ensures var t := BlockText(b, last);
            Listed(t) == if Search(t, STR).Some? then None else Search(t, ID)
  {
    EntryIsTrimmed(b, last);
    NoEmptyIdInEntry(b, last);
    EndedIsFree(b, false);
    SplitJoin(Lines(b), '\n');
    NothingObsolete(b);
    NothingContinued(b);
    ListedBySearch(BlockText(b, last), Lines(b));
  }

  lemma {:induction false} StrIffTranslated(b: Block, last: bool)
    requires b.Single? && WellFormed(b)
    ensures Search(BlockText(b, last), STR).Some? <==> b.msgstr != ""
  {
    if b.msgstr == "" { EmptyEntryHasNoStr(b, last); } else { TranslatedEntryHasStr(b, last); }
  }

  /**
   The scanner lists a single-line entry exactly when its msgstr is empty, under its msgid
   up to the first quote; that is its own msgid exactly when it has no quote.
   */
  lemma {:induction false} ListedIff(b: Block, last: bool)
    requires b.Single? && WellFormed(b)
    ensures Listed(BlockText(b, last)) == if b.msgstr == "" then Some(UpToQuote(b.msgid)) else None
    ensures Listed(BlockText(b, last)) == Some(b.msgid) <==> b.msgstr == "" && Free(b.msgid, '"')
  {
    UpToQuoteWhole(b.msgid);
    EntryIsSearched(b, last);
    StrIffTranslated(b, last);
    EntryId(b, last);
  }

  // ── Where a replacement can hit ──

  /** A line that ends in the msgid line of `id`, followed by an empty msgstr line. */
  predicate HitAt(lines: seq<string>, id: string, i: nat) {
    i + 1 < |lines| && EndsWith(lines[i], IdLine(id)) && EMPTY_STR <= lines[i + 1]
  }

  predicate Baits(lines: seq<string>, id: string) {
    exists i :: 0 <= i < |lines| && HitAt(lines, id, i)
  }

  /** A line that ends in the msgid line of `id`, white space after it or not. */
  predicate Shows(line: string, id: string) {
    EndsWith(TrimEnd(line, SPACE), IdLine(id))
  }

  /** A quote behind a space, as in a msgid line, only opens or closes such a line. */
  lemma {:induction false} OnlyOwnIdLine(id: string, other: string)
    requires IsKey(id) && IsMsgid(other) && EndsWith(IdLine(other), IdLine(id))
    ensures id == other
  {
    var a, b := IdLine(other), IdLine(id);
    var d := |a| - |b|;
    assert a[d..][6] == b[6] == ID[6] == '"' && a[d..][5] == b[5] == ID[5] == ' ';
    IdLineQuotes(other, d + 6);
    assert a[7..|a| - 1] == other && b[7..|b| - 1] == id;
  }

  lemma {:induction false} EndingQuote(line: string, id: string)
    requires id != "" && EndsWith(line, IdLine(id))
    ensures var k := |line| - |IdLine(id)|;
            k + 7 < |line| && line[k + 6] == '"' && line[k + 5] == ' ' && line[k] == 'm'
  {
    var k := |line| - |IdLine(id)|;
    assert line[k..][6] == IdLine(id)[6] == ID[6] && line[k..][5] == IdLine(id)[5] == ID[5];
    assert line[k..][0] == IdLine(id)[0] == ID[0];
  }

  lemma {:induction false} ContinuationIsNoBait(line: string, id: string)
    requires IsKey(id) && (IsContinuation(line) || line == EMPTY_ID)
    ensures !EndsWith(line, IdLine(id))
  {
    if IsContinuation(line) && EndsWith(line, IdLine(id)) {
      EndingQuote(line, id);
    }
  }

  lemma {:induction false} ClosedIsTrimmed(line: string)
    requires line != "" && line[|line| - 1] == '"'
    ensures TrimEnd(line, SPACE) == line
  {
    FieldCharsAreNoSpace();
  }

  lemma {:induction false} CommentShowsNoId(line: string, id: string)
    requires IsComment(line)
    ensures !Shows(line, id)
  {
    CommentHasNoField(line, ID);
    var t := TrimEnd(line, SPACE);
    if Shows(line, id) {
      ShownOccurs(line, id);
    }
  }

  lemma {:induction false} ShownOccurs(line: string, id: string)
    requires Shows(line, id)
    ensures exists o :: 0 <= o <= |line| && OccursAt(line, ID, o)
  {
    var t := TrimEnd(line, SPACE);
    var o := |t| - |IdLine(id)|;
    assert t == line[..|t|];
    assert t[o..][..|ID|] == IdLine(id)[..|ID|] == ID;
    assert line[o..][..|ID|] == t[o..][..|ID|];
    assert OccursAt(line, ID, o);
  }

  lemma {:induction false} IdLineAt(line: string, id: string, o: nat)
    requires OccursAt(line, IdLine(id), o) && id != ""
    ensures o + 8 < |line| && line[o] == 'm' && line[o + 5] == ' ' && line[o + 6] == '"'
  {
    assert line[o..][0] == ID[0] && line[o..][5] == ID[5] && line[o..][6] == ID[6];
  }

  /** Every quote behind a space is at `n` or at the end. */
  predicate QuotesAfterSpace(line: string, n: nat) {
    forall i :: 0 < i < |line| && line[i] == '"' && line[i - 1] == ' ' ==> i == n || i == |line| - 1
  }

  lemma {:induction false} StrLineQuotesAfterSpace(text: string)
    requires QuotesEscaped(text)
    ensures QuotesAfterSpace(StrLine(text), 7) && StrLine(text)[1] == 's'
  {
    var line := StrLine(text);
    assert line[1] == STR[1];
    forall i | 0 < i < |line| && i != 7 && line[i] == '"' && line[i - 1] == ' '
      ensures i == |line| - 1
    {
      StrLineQuotes(text, i);
    }
  }

  lemma {:induction false} NoIdAt(line: string, id: string, o: nat)
    requires QuotesAfterSpace(line, 7) && |line| > 1 && line[1] == 's' && id != ""
    ensures !OccursAt(line, IdLine(id), o)
  {
    if OccursAt(line, IdLine(id), o) {
      IdLineAt(line, id, o);
    }
  }

  /** A msgstr line holds no msgid line, however many lines its text runs over. */
  lemma {:induction false} StrLineHides(text: string, id: string)
    requires QuotesEscaped(text) && id != ""
    ensures Hides(StrLine(text), id)
  {
    var line := StrLine(text);
    StrLineQuotesAfterSpace(text);
    forall o | 0 <= o <= |line|
      ensures !OccursAt(line, IdLine(id), o)
    {
      NoIdAt(line, id, o);
    }
  }

  lemma {:induction false} NothingAfterBreak(line: string)
    requires QuotesAfterSpace(line, 7)
    ensures !AfterBreak(line, EMPTY_STR)
  {
    forall q | 0 <= q < |line| && line[q] == '\n'
      ensures !(EMPTY_STR <= line[q + 1..])
    {
      if EMPTY_STR <= line[q + 1..] {
        EmptyStrAt(line, q + 1);
      }
    }
  }

  lemma {:induction false} EmptyStrAt(line: string, k: nat)
    requires k <= |line| && EMPTY_STR <= line[k..]
    ensures k + 8 < |line| && line[k + 6] == ' ' && line[k + 7] == '"'
  {
    var tail := line[k..];
    assert tail[6] == EMPTY_STR[6] && tail[7] == EMPTY_STR[7];
    assert line[k + 7] == tail[7] && line[k + 6] == tail[6];
  }

  /** Nor does an empty msgstr follow a newline in it. */
  lemma {:induction false} StrLineHasNoEmptyStr(text: string)
    requires QuotesEscaped(text)
    ensures !AfterBreak(StrLine(text), EMPTY_STR)
  {
    StrLineQuotesAfterSpace(text);
    NothingAfterBreak(StrLine(text));
  }

  /** Nothing in the line, newlines and all, can begin a match for this msgid. */
  predicate Hides(line: string, id: string) {
    || (Free(line, '\n') && !Shows(line, id))
    || forall o :: 0 <= o <= |line| ==> !OccursAt(line, IdLine(id), o)
  }

  lemma {:induction false} IdLineHides(other: string, id: string)
    requires IsMsgid(other) && IsKey(id) && !IsQuotable(id)
    ensures Hides(IdLine(other), id)
  {
    ClosedIsTrimmed(IdLine(other));
    if EndsWith(IdLine(other), IdLine(id)) { OnlyOwnIdLine(id, other); }
  }

  lemma {:induction false} ContinuationHides(line: string, id: string)
    requires IsClosed(line) && IsKey(id)
    ensures Hides(line, id)
  {
    ClosedIsTrimmed(line);
    ContinuationIsNoBait(line, id);
  }

  lemma {:induction false} CommentHides(line: string, id: string)
    requires IsComment(line)
    ensures Hides(line, id)
  {
    CommentShowsNoId(line, id);
  }

  /** No line of an entry begins a match for a text that is no PO string. */
  lemma {:induction false} EntryHidesCut(b: Block, line: string, id: string)
    requires !b.Verbatim? && IsSound(b) && line in Lines(b) && IsKey(id) && !IsQuotable(id)
    ensures Hides(line, id)
  {
    if line in b.comments {
      CommentHides(line, id);
    } else if line == IdLine(b.msgid) {
      IdLineHides(b.msgid, id);
    } else if b.Single? {
      StrLineHides(b.msgstr, id);
    } else if line == EMPTY_STR {
      assert line == StrLine("");
      StrLineHides("", id);
    } else {
      ContinuationHides(line, id);
    }
  }

  /** Only the msgstr line may hold newlines, and no empty msgstr comes after one. */
  lemma {:induction false} SoundLineBreaks(b: Block, line: string)
    requires IsSound(b) && line in Lines(b)
    ensures !AfterBreak(line, EMPTY_STR)
  {
    if b.Single? && line == StrLine(b.msgstr) {
      StrLineHasNoEmptyStr(b.msgstr);
    } else if !b.Verbatim? && line in b.comments {
    } else if b.Continued? && line in b.more {
    }
  }

  // ── Other kinds of blocks are passed over ──

  /** Text whose msgstr goes on in further lines is passed over. */
  lemma {:induction false} ContinuedIsPassed(b: Block, last: bool)
    requires b.Continued? && WellFormed(b)
    ensures Listed(BlockText(b, last)) == None
  {
    var n := |b.comments|;
    ContinuedIsTrimmed(b, last);
    assert b.more[0] in b.more;
    assert Lines(b)[n + 1] == EMPTY_STR && Lines(b)[n + 2] == b.more[0];
    assert IsContinued(Lines(b), n + 1, n + 2);
    ContinuationIff(Lines(b));
    PassedIfContinued(BlockText(b, last), Join(Lines(b), "\n"));
  }

  lemma {:induction false} ContinuedIsTrimmed(b: Block, last: bool)
    requires b.Continued? && WellFormed(b)
    ensures Trim(BlockText(b, last), SPACE) == Join(Lines(b), "\n")
    ensures Split(Join(Lines(b), "\n"), '\n') == Lines(b)
  {
    var lines := Lines(b);
    BlocksAreLines(b);
    LinesSplit(lines);
    JoinEnds(lines);
    FieldCharsAreNoSpace();
    assert lines[0] == IdLine(b.msgid) || lines[0] in b.comments;
    assert lines[|lines| - 1] == b.more[|b.more| - 1] && b.more[|b.more| - 1] in b.more && ID[0] == 'm';
    TrimEnded(Join(lines, "\n"), if last then "\n" else "", SPACE);
  }

  lemma {:induction false} PassedIfContinued(block: string, trimmed: string)
    requires Trim(block, SPACE) == trimmed && HasContinuation(Split(trimmed, '\n'))
    ensures Listed(block) == None
  {
  }

  /** The header or a multi-line entry: comments, an empty msgid line, continuations, and its msgstr. */
  predicate IsMultiLine(lines: seq<string>, m: nat) {
    && AreLines(lines) && 0 < m < |lines|
    && (exists i :: 0 <= i < m && lines[i] == EMPTY_ID)
    && (forall i :: 0 <= i < |lines| && i != m ==> !(EMPTY_STR <= lines[i]))
    && (IsContinuation(lines[m - 1]) || lines[m - 1] == EMPTY_ID)
  }

  lemma {:induction false} EmptyIdIsPassed(lines: seq<string>, i: nat)
    requires i < |lines| && lines[i] == EMPTY_ID
    ensures Passed(lines)
  {
    LineIsContained(lines, i, "");
    LineIsContained(lines, i, "\n");
    assert Join(lines, "\n") + "" == Join(lines, "\n");
    PassedIfEmptyId(Join(lines, "\n"));
    PassedIfEmptyId(Join(lines, "\n") + "\n");
  }

  lemma {:induction false} MultiLineIsUnbaited(lines: seq<string>, m: nat, id: string)
    requires IsMultiLine(lines, m) && IsKey(id)
    ensures !Baits(lines, id)
  {
    ContinuationIsNoBait(lines[m - 1], id);
  }

  /** The header and entries with a continued msgid are passed over and never baited. */
  lemma {:induction false} MultiLineIsWellFormed(lines: seq<string>, m: nat)
    requires IsMultiLine(lines, m)
    ensures WellFormed(Verbatim(lines))
    ensures forall id :: IsKey(id) ==> !Baits(lines, id)
  {
    var i :| 0 <= i < m && lines[i] == EMPTY_ID;
    EmptyIdIsPassed(lines, i);
    forall id | IsKey(id)
      ensures !Baits(lines, id)
    {
      MultiLineIsUnbaited(lines, m, id);
    }
  }

  lemma {:induction false} LineIsContained(lines: seq<string>, i: nat, end: string)
    requires i < |lines|
    ensures Contains(Join(lines, "\n") + end, lines[i])
  {
    var t, o := Join(lines, "\n"), Offset(lines, i);
    OffsetText(lines, i);
    var rest := NextLine(lines[i..], "");
    assert (t + end)[o..] == t[o..] + end == lines[i] + (rest + end);
    assert OccursAt(t + end, lines[i], o);
    ContainsIff(t + end, lines[i]);
  }

  lemma {:induction false} PassedIfEmptyId(block: string)
    requires Contains(block, EMPTY_ID)
    ensures Listed(block) == None
  {
  }

  /** An obsolete entry: all its lines are comments and one is commented-out text. */
  predicate IsObsolete(lines: seq<string>) {
    && AreLines(lines) && lines != []
    && (forall l :: l in lines ==> l[0] == '#' && !SPACE(l[|l| - 1]))
    && (exists l :: l in lines && OBSOLETE <= l)
  }

  /** Obsolete entries are passed over and never baited. */
  lemma {:induction false} ObsoleteIsWellFormed(lines: seq<string>)
    requires IsObsolete(lines)
    ensures WellFormed(Verbatim(lines))
    ensures forall id :: !Baits(lines, id)
  {
    assert Join(lines, "\n") + "" == Join(lines, "\n");
    ObsoleteIsPassed(lines, "", Join(lines, "\n"));
    ObsoleteIsPassed(lines, "\n", Join(lines, "\n") + "\n");
    assert forall i :: 0 <= i < |lines| ==> lines[i] in lines;
    assert EMPTY_STR[0] == 'm';
  }

  lemma {:induction false} JoinEnds(lines: seq<string>)
    requires AreLines(lines) && lines != []
    ensures var t, first, last := Join(lines, "\n"), lines[0], lines[|lines| - 1];
            && t != "" && first != "" && last != ""
            && t[0] == first[0] && t[|t| - 1] == last[|last| - 1]
  {
    assert lines[0] in lines && lines[|lines| - 1] in lines;
    if |lines| > 1 {
      JoinEnds(lines[1..]);
    }
  }

  lemma {:induction false} ObsoleteIsPassed(lines: seq<string>, end: string, block: string)
    requires IsObsolete(lines) && (end == "" || end == "\n") && block == Join(lines, "\n") + end
    ensures Listed(block) == None
  {
    var l := ObsoleteLine(lines);
    ObsoleteIsTrimmed(lines, end, block);
    PassedIfObsolete(block, Trim(block, SPACE), lines, l);
  }

  lemma {:induction false} ObsoleteIsTrimmed(lines: seq<string>, end: string, block: string)
    requires IsObsolete(lines) && (end == "" || end == "\n") && block == Join(lines, "\n") + end
    ensures Split(Trim(block, SPACE), '\n') == lines
  {
    LinesSplit(lines);
    ObsoleteEnds(lines, SPACE);
    TrimEnded(Join(lines, "\n"), end, SPACE);
  }

  lemma {:induction false} ObsoleteEnds(lines: seq<string>, space: char -> bool)
    requires IsObsolete(lines) && space == SPACE
    ensures var t := Join(lines, "\n");
            t != "" && !space(t[0]) && !space(t[|t| - 1]) && space('\n')
  {
    FieldCharsAreNoSpace();
    JoinEnds(lines);
    assert lines[0] in lines && lines[|lines| - 1] in lines;
  }

  lemma {:induction false} ObsoleteLine(lines: seq<string>) returns (l: string)
    requires IsObsolete(lines)
    ensures l in lines && OBSOLETE <= Trim(l, SPACE)
  {
    FieldCharsAreNoSpace();
    l :| l in lines && OBSOLETE <= l;
    TrimWhole(l);
  }

  lemma {:induction false} LinesSplit(lines: seq<string>)
    requires AreLines(lines) && lines != []
    ensures Split(Join(lines, "\n"), '\n') == lines
  {
    SplitJoin(lines, '\n');
  }

  lemma {:induction false} TrimEnded(t: string, end: string, space: char -> bool)
    requires t != "" && !space(t[0]) && !space(t[|t| - 1]) && space('\n') && (end == "" || end == "\n")
    ensures Trim(t + end, space) == t
  {
    TrimPadded("", t, end, space);
    assert "" + t + end == t + end;
  }

  lemma {:induction false} PassedIfCommentedOut(block: string, trimmed: string)
    requires Trim(block, SPACE) == trimmed && HasObsolete(Split(trimmed, '\n'))
    ensures Listed(block) == None
  {
  }

  lemma {:induction false} PassedIfObsolete(block: string, trimmed: string, lines: seq<string>, l: string)
    requires Trim(block, SPACE) == trimmed && Split(trimmed, '\n') == lines && l in lines && OBSOLETE <= Trim(l, SPACE)
    ensures Listed(block) == None
  {
    ObsoleteIff(lines);
    PassedIfCommentedOut(block, trimmed);
  }

  lemma {:induction false} TrimWhole(s: string)
    requires s != "" && !SPACE(s[0]) && !SPACE(s[|s| - 1])
    ensures Trim(s, SPACE) == s
  {
    assert TrimStart(s, SPACE) == s;
  }
}
