/**
 Filling the empty entries of a PO catalogue in place. The format is that of the GNU
 gettext manual, section 3 "The Format of PO Files". The regular expressions of the
 script are written out as the matches they make.
 */
module PoCatalog {
  import opened Wrappers
  import opened Text
  import opened Substrings

  /** White space as Python's `strip` and `\s` see it. */
  predicate IsSpace(c: char) {
    || '\t' <= c <= '\r' || '\U{1C}' <= c <= '\U{20}' || c == '\U{85}' || c == '\U{A0}' || c == '\U{1680}'
    || '\U{2000}' <= c <= '\U{200A}' || c == '\U{2028}' || c == '\U{2029}' || c == '\U{202F}' || c == '\U{205F}'
    || c == '\U{3000}'
  }

  const SPACE: char -> bool := c => IsSpace(c)

  const ID := "msgid \""
  const STR := "msgstr \""
  const EMPTY_ID := "msgid \"\""
  const EMPTY_STR := "msgstr \"\""
  const OBSOLETE := "#~"

  // ── Blocks ──

  /** The position of the first pair of newlines, or the length. */
  function Gap(s: string): (n: nat)
    ensures n <= |s|
    ensures n < |s| ==> n + 1 < |s| && s[n] == s[n + 1] == '\n'
  {
    if |s| < 2 then |s|
    else if s[0] == s[1] == '\n' then 0
    else 1 + Gap(s[1..])
  }

  function DropNewlines(s: string): (t: string)
    ensures |t| <= |s|
  {
    if s != "" && s[0] == '\n' then DropNewlines(s[1..]) else s
  }

  /** The pieces between runs of two newlines or more. */
  function Blocks(content: string): seq<string>
    decreases |content|
  {
    var n := Gap(content);
    if n == |content| then [content] else [content[..n]] + Blocks(DropNewlines(content[n + 1..]))
  }

  // ── One block ──

  /** What `(.+?)"` captures at the start of `s`: up to the first quote after the first character, on one line. */
  function Captured(s: string): Option<string> {
    if s == "" || s[0] == '\n' then None
    else
      var n := Stop(s[1..]);
      if 1 + n < |s| && s[1 + n] == '"' then Some(s[..1 + n]) else None
  }

  /** The position of the first quote or newline, or the length. */
  function Stop(s: string): (n: nat)
    ensures n <= |s|
    ensures n < |s| ==> s[n] == '"' || s[n] == '\n'
    ensures forall i :: 0 <= i < n ==> s[i] != '"' && s[i] != '\n'
  {
    if s == "" || s[0] == '"' || s[0] == '\n' then 0 else 1 + Stop(s[1..])
  }

  /** The first match of `key(.+?)"`. */
  function Search(s: string, key: string): Option<string> {
    if s == "" then None
    else if key <= s && Captured(s[|key|..]).Some? then Captured(s[|key|..])
    else Search(s[1..], key)
  }

  /** Some line is commented out. */
  predicate HasObsolete(lines: seq<string>) {
    lines != [] && (OBSOLETE <= Trim(lines[0], SPACE) || HasObsolete(lines[1..]))
  }

  lemma {:induction false} ObsoleteIff(lines: seq<string>)
    ensures HasObsolete(lines) <==> exists line :: line in lines && OBSOLETE <= Trim(line, SPACE)
  {
    if lines != [] {
      ObsoleteIff(lines[1..]);
      assert lines == [lines[0]] + lines[1..];
    }
  }

  predicate IsQuoted(line: string) {
    "\"" <= line
  }

  predicate HasQuoted(lines: seq<string>) {
    lines != [] && (IsQuoted(lines[0]) || HasQuoted(lines[1..]))
  }

  lemma {:induction false} QuotedIff(lines: seq<string>)
    ensures HasQuoted(lines) <==> exists j :: 0 <= j < |lines| && IsQuoted(lines[j])
  {
    if lines != [] {
      QuotedIff(lines[1..]);
      assert forall j :: 1 <= j < |lines| ==> lines[j] == lines[1..][j - 1];
    }
  }

  /** An empty `msgstr` line is followed, sooner or later, by a line of quoted text. */
  predicate HasContinuation(lines: seq<string>) {
    lines != [] && ((EMPTY_STR <= lines[0] && HasQuoted(lines[1..])) || HasContinuation(lines[1..]))
  }

  ghost predicate IsContinued(lines: seq<string>, i: nat, j: nat) {
    i < j < |lines| && EMPTY_STR <= lines[i] && IsQuoted(lines[j])
  }

  lemma {:induction false} ContinuationIff(lines: seq<string>)
    ensures HasContinuation(lines) <==> exists i: nat, j: nat :: IsContinued(lines, i, j)
  {
    if lines != [] {
      var rest := lines[1..];
      ContinuationIff(rest);
      QuotedIff(rest);
      if EMPTY_STR <= lines[0] && HasQuoted(rest) {
        var j :| 0 <= j < |rest| && IsQuoted(rest[j]);
        assert IsContinued(lines, 0, j + 1);
      } else if HasContinuation(rest) {
        var i: nat, j: nat :| IsContinued(rest, i, j);
        assert IsContinued(lines, i + 1, j + 1);
      }
      if i: nat, j: nat :| IsContinued(lines, i, j) {
        assert lines[j] == rest[j - 1];
        assert i > 0 ==> IsContinued(rest, i - 1, j - 1);
      }
    }
  }

  /** The script's search for continuation lines. */
  method FindContinuation(lines: seq<string>) returns (found: bool)
    ensures found <==> exists i: nat, j: nat :: IsContinued(lines, i, j)
    ensures found == HasContinuation(lines)
  {
    ContinuationIff(lines);
    var foundMsgstr := false;
    for i := 0 to |lines|
      invariant foundMsgstr == exists k :: 0 <= k < i && EMPTY_STR <= lines[k]
      invariant forall k, j :: 0 <= k < j < i && EMPTY_STR <= lines[k] ==> !IsQuoted(lines[j])
    {
      var line := lines[i];
      if EMPTY_STR <= line {
        assert line[0] == 'm' && !IsQuoted(line);
        foundMsgstr := true;
        if i + 1 < |lines| && IsQuoted(lines[i + 1]) {
          assert IsContinued(lines, i, i + 1);
          return true;
        }
      } else if foundMsgstr && IsQuoted(line) {
        ghost var k :| 0 <= k < i && EMPTY_STR <= lines[k];
        assert IsContinued(lines, k, i);
        return true;
      }
    }
    return false;
  }

  /** The msgid of a block that is an active, empty entry. */
  function Listed(block: string): Option<string> {
    var stripped := Trim(block, SPACE);
    var lines := Split(stripped, '\n');
    if stripped == "" || Contains(block, EMPTY_ID) || HasObsolete(lines) then None
    else if Search(block, ID).None? || Search(block, STR).Some? || HasContinuation(lines) then None
    else Search(block, ID)
  }

  /** The blocks that `f` gives an id, with their ids. */
  function Select(f: string -> Option<string>, blocks: seq<string>): seq<(string, string)> {
    if blocks == [] then []
    else
      var block := blocks[|blocks| - 1];
      Select(f, blocks[..|blocks| - 1]) + match f(block) { case None => [] case Some(id) => [(id, block)] }
  }

  const LISTED: string -> Option<string> := block => Listed(block)

  /** The body of the scanner's loop. */
  method Examine(block: string) returns (id: Option<string>)
    ensures id == Listed(block)
  {
    var stripped := Trim(block, SPACE);
    if stripped == "" || Contains(block, EMPTY_ID) { return None; }
    var lines := Split(stripped, '\n');
    if HasObsolete(lines) { return None; }
    id := Search(block, ID);
    if id.None? { return None; }
    if Search(block, STR).Some? { return None; }
    var hasContinuation := FindContinuation(lines);
    if hasContinuation { return None; }
  }

  lemma {:induction false} NextBlock(f: string -> Option<string>, blocks: seq<string>, b: nat, id: Option<string>)
    requires b < |blocks| && f(blocks[b]) == id
    ensures Select(f, blocks[..b + 1]) == Select(f, blocks[..b]) + if id.None? then [] else [(id.value, blocks[b])]
  {
    assert blocks[..b + 1][..b] == blocks[..b];
  }

  method GetEmptyActiveEntries(content: string) returns (result: seq<(string, string)>)
    ensures result == Select(LISTED, Blocks(content))
  {
    var blocks := Blocks(content);
    result := [];
    for b := 0 to |blocks|
      invariant result == Select(LISTED, blocks[..b])
    {
      var id := Examine(blocks[b]);
      NextBlock(LISTED, blocks, b, id);
      if id.Some? { result := result + [(id.value, blocks[b])]; }
    }
    assert blocks[..|blocks|] == blocks;
  }

  // ── Filling ──

  /** The script's two replacements. */
  function Escaped(translation: string): string {
    Replace(Replace(translation, "\\", "\\\\"), "\"", "\\\"")
  }

  function IdLine(id: string): string {
    ID + id + "\""
  }

  function StrLine(text: string): string {
    STR + text + "\""
  }

  /** The length of a match of `msgid "…"\s*\n\s*msgstr ""` at the start of `s`, or 0. */
  function LooseMatch(s: string, id: string): (n: nat)
    ensures n <= |s|
  {
    if !(IdLine(id) <= s) then 0
    else
      var rest := s[|IdLine(id)|..];
      var n := SpaceRun(rest, SPACE);
      if '\n' in rest[..n] && EMPTY_STR <= rest[n..] then |IdLine(id)| + n + |EMPTY_STR| else 0
  }

  /** The position of the first loose match, or the length. */
  function LooseStart(s: string, id: string): (i: nat)
    ensures i <= |s|
  {
    if s == "" || LooseMatch(s, id) > 0 then 0 else 1 + LooseStart(s[1..], id)
  }

  lemma {:induction false} LooseStartIsFirst(s: string, id: string)
    ensures var i := LooseStart(s, id);
            && (i < |s| ==> LooseMatch(s[i..], id) > 0)
            && forall k :: 0 <= k < i ==> LooseMatch(s[k..], id) == 0
  {
    assert s[0..] == s;
    if s != "" && LooseMatch(s, id) == 0 {
      LooseStartIsFirst(s[1..], id);
      assert forall k :: 1 <= k <= |s| ==> s[k..] == s[1..][k - 1..];
    }
  }

  /** The looser pattern fits a msgid line and an empty msgstr with any white space and a newline between them. */
  lemma {:induction false} LooseMatchAcross(id: string, gap: string, after: string)
    requires AllSpace(gap, SPACE) && '\n' in gap
    ensures LooseMatch(IdLine(id) + gap + EMPTY_STR + after, id) == |IdLine(id)| + |gap| + |EMPTY_STR|
  {
    var s := IdLine(id) + gap + EMPTY_STR + after;
    var rest := EMPTY_STR + after;
    assert rest[0] == 'm';
    SpaceRunOf(gap, rest, SPACE);
    assert s[..|IdLine(id)|] == IdLine(id) && s[|IdLine(id)|..] == gap + rest;
    assert (gap + rest)[..|gap|] == gap && (gap + rest)[|gap|..] == rest;
    assert rest[..|EMPTY_STR|] == EMPTY_STR;
  }

  function OldText(id: string): string {
    IdLine(id) + "\n" + EMPTY_STR
  }

  function NewText(id: string, translation: string): string {
    IdLine(id) + "\n" + StrLine(Escaped(translation))
  }

  /** The fallback: the first loose match is rewritten, if there is one. */
  function ApplyLoose(content: string, id: string, newText: string): (string, nat) {
    if content == "" then (content, 0)
    else if LooseMatch(content, id) > 0 then (newText + content[LooseMatch(content, id)..], 1)
    else
      var (rest, n) := ApplyLoose(content[1..], id, newText);
      ([content[0]] + rest, n)
  }

  function Spliced(content: string, i: nat, n: nat, newText: string): string
    requires i + n <= |content|
  {
    content[..i] + newText + content[i + n..]
  }

  /** The first loose match is the one spliced. */
  lemma {:induction false} LooseIsSpliced(content: string, id: string, newText: string)
    ensures var i := LooseStart(content, id);
            ApplyLoose(content, id, newText) ==
              if i == |content| then (content, 0)
              else (Spliced(content, i, LooseMatch(content[i..], id), newText), 1)
  {
    if content != "" {
      if LooseMatch(content, id) > 0 {
        assert content[0..] == content;
        SplicedAtStart(content, LooseMatch(content, id), newText);
      } else {
        var i := LooseStart(content[1..], id);
        LooseIsSpliced(content[1..], id, newText);
        assert content == [content[0]] + content[1..];
        assert content[1..][i..] == content[1 + i..];
        if i < |content| - 1 {
          SplicedLater(content, i, LooseMatch(content[1 + i..], id), newText);
        }
      }
    }
  }

  lemma {:induction false} SplicedAtStart(content: string, n: nat, newText: string)
    requires n <= |content|
    ensures Spliced(content, 0, n, newText) == newText + content[n..]
  {
  }

  lemma {:induction false} SplicedLater(content: string, i: nat, n: nat, newText: string)
    requires content != "" && 1 + i + n <= |content|
    ensures Spliced(content, 1 + i, n, newText) == [content[0]] + Spliced(content[1..], i, n, newText)
  {
    assert content[..1 + i] == [content[0]] + content[1..][..i];
    assert content[1 + i + n..] == content[1..][i + n..];
  }

  /** The fallback replaces the first such place and nothing else. */
  lemma {:induction false} LooseIsFilled(before: string, id: string, gap: string, after: string, newText: string)
    requires AllSpace(gap, SPACE) && '\n' in gap
    requires var s := before + (IdLine(id) + gap + EMPTY_STR + after);
             forall k :: 0 <= k < |before| ==> LooseMatch(s[k..], id) == 0
    ensures ApplyLoose(before + (IdLine(id) + gap + EMPTY_STR + after), id, newText) == (before + newText + after, 1)
  {
    LooseMatchAcross(id, gap, after);
    FirstIsFilled(before, id, IdLine(id) + gap + EMPTY_STR, after, newText);
  }

  lemma {:induction false} FirstIsFilled(before: string, id: string, match': string, after: string, newText: string)
    requires match' != "" && LooseMatch(match' + after, id) == |match'|
    requires forall k :: 0 <= k < |before| ==> LooseMatch((before + (match' + after))[k..], id) == 0
    ensures ApplyLoose(before + (match' + after), id, newText) == (before + newText + after, 1)
  {
    LooseStartIs(before, id, match' + after);
    LooseIsSpliced(before + (match' + after), id, newText);
    FoundSplits(before, match', after);
  }

  lemma {:induction false} LooseStartIs(before: string, id: string, found: string)
    requires found != "" && LooseMatch(found, id) > 0
    requires forall k :: 0 <= k < |before| ==> LooseMatch((before + found)[k..], id) == 0
    ensures LooseStart(before + found, id) == |before|
  {
    LooseStartIsFirst(before + found, id);
    assert (before + found)[|before|..] == found;
  }

  lemma {:induction false} FoundSplits(before: string, match': string, after: string)
    ensures var s := before + (match' + after);
            && s[..|before|] == before && s[|before|..] == match' + after && s[|before| + |match'|..] == after
  {
  }

  /** The content after one listed entry, and whether it was counted. */
  function ApplyOne(content: string, id: string, dict: map<string, string>): (string, nat) {
    if id !in dict then (content, 0)
    else if Contains(content, OldText(id)) then (Replace(content, OldText(id), NewText(id, dict[id])), 1)
    else ApplyLoose(content, id, NewText(id, dict[id]))
  }

  type Step = (string, string) -> (string, nat)

  function Filling(dict: map<string, string>): Step {
    (content, id) => ApplyOne(content, id, dict)
  }

  function ApplyAll(f: Step, content: string, entries: seq<(string, string)>): (string, nat) {
    if entries == [] then (content, 0)
    else
      var (before, n) := ApplyAll(f, content, entries[..|entries| - 1]);
      var (after, m) := f(before, entries[|entries| - 1].0);
      (after, n + m)
  }

  /** The file after a run of the script, and the number of entries it reports. */
  function Filled(content: string, dict: map<string, string>): (string, nat) {
    ApplyAll(Filling(dict), content, Select(LISTED, Blocks(content)))
  }

  /** A catalogue file. */
  class PoFile {
    var text: string

    constructor (text: string)
      ensures this.text == text
    {
      this.text := text;
    }
  }

  /** The body of the filler's loop. */
  method ApplyEntry(content: string, id: string, dict: map<string, string>, translated: nat)
    returns (content': string, translated': nat)
    ensures (content', translated' - translated) == Filling(dict)(content, id)
    ensures translated' == translated ==> content' == content
  {
    content', translated' := content, translated;
    if id in dict {
      var newText := NewText(id, dict[id]);
      if Contains(content, OldText(id)) {
        content' := Replace(content, OldText(id), newText);
        translated' := translated + 1;
      } else {
        LooseIsSpliced(content, id, newText);
        var start := LooseStart(content, id);
        if start < |content| {
          content' := Spliced(content, start, LooseMatch(content[start..], id), newText);
          translated' := translated + 1;
        }
      }
    }
  }

  lemma {:induction false} NextEntry(
    f: Step, text: string, entries: seq<(string, string)>, e: nat, before: (string, nat), after: (string, nat))
    requires e < |entries| && ApplyAll(f, text, entries[..e]) == before
    requires after.1 >= before.1 && f(before.0, entries[e].0) == (after.0, after.1 - before.1)
    ensures ApplyAll(f, text, entries[..e + 1]) == after
  {
    assert entries[..e + 1][..e] == entries[..e];
  }

  /** The filler's loop. */
  method ApplyEntries(text: string, entries: seq<(string, string)>, dict: map<string, string>)
    returns (content: string, translated: nat)
    ensures (content, translated) == ApplyAll(Filling(dict), text, entries)
    ensures translated == 0 ==> content == text
  {
    content, translated := text, 0;
    ghost var f := Filling(dict);
    for e := 0 to |entries|
      invariant (content, translated) == ApplyAll(f, text, entries[..e])
      invariant translated == 0 ==> content == text
    {
      ghost var before := (content, translated);
      content, translated := ApplyEntry(content, entries[e].0, dict, translated);
      NextEntry(f, text, entries, e, before, (content, translated));
    }
    assert entries[..|entries|] == entries;
  }

  method ApplyTranslations(file: PoFile, dict: map<string, string>) returns (translated: nat)
    modifies file
    ensures (file.text, translated) == Filled(old(file.text), dict)
    ensures translated == 0 ==> file.text == old(file.text)
  {
    var entries := GetEmptyActiveEntries(file.text);
    var content;
    content, translated := ApplyEntries(file.text, entries, dict);
    if translated > 0 {
      file.text := content;
    }
  }
}
