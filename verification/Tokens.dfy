/** Comma lists and permission strings: splitting undoes joining. */
module Tokens {
  import opened Wrappers
  import opened Collections
  import opened Text
  import BarrelParser

  /** White space as Rust's `trim` sees it. */
  predicate IsRustSpace(c: char) {
    || '\t' <= c <= '\r' || c == ' ' || c == '\U{85}' || c == '\U{A0}' || c == '\U{1680}'
    || '\U{2000}' <= c <= '\U{200A}' || c == '\U{2028}' || c == '\U{2029}' || c == '\U{202F}' || c == '\U{205F}'
    || c == '\U{3000}'
  }

  const RUST_SPACE: char -> bool := c => IsRustSpace(c)
  const JS_SPACE := BarrelParser.SPACE

  function KeepOne(part: string, space: char -> bool, keep: string -> bool): seq<string> {
    if keep(Trim(part, space)) then [Trim(part, space)] else []
  }

  function Keeping(space: char -> bool, keep: string -> bool): string -> seq<string> {
    part => KeepOne(part, space, keep)
  }

  /** The parts that `keep` accepts once trimmed, in order. */
  function Kept(parts: seq<string>, space: char -> bool, keep: string -> bool): seq<string> {
    FlatMap(Keeping(space, keep), parts)
  }

  // ── Comma lists ──

  const NONEMPTY: string -> bool := s => s != ""

  function SplitCsv(input: Option<string>): Option<seq<string>> {
    match input
    case None => None
    case Some(s) => Some(Kept(Split(s, ','), RUST_SPACE, NONEMPTY))
  }

  predicate IsTrimmed(s: string, space: char -> bool) {
    s == "" || (!space(s[0]) && !space(s[|s| - 1]))
  }

  /** An item that a comma list can carry. */
  predicate IsItem(s: string) {
    s != "" && IsTrimmed(s, RUST_SPACE) && Free(s, ',')
  }

  predicate AllItems(items: seq<string>) {
    forall s :: s in items ==> IsItem(s)
  }

  lemma {:induction false} TrimTrimmed(s: string, space: char -> bool)
    requires IsTrimmed(s, space)
    ensures Trim(s, space) == s
  {
    TrimPadded("", s, "", space);
    assert "" + s + "" == s;
  }

  lemma {:induction false} TrimKeepsFree(s: string, space: char -> bool, c: char)
    requires Free(s, c)
    ensures Free(Trim(s, space), c)
  {
    var t := TrimStart(s, space);
    assert t == s[|s| - |t|..];
    assert Trim(s, space) == t[..|Trim(s, space)|];
    forall x | x in Trim(s, space)
      ensures x in s
    {
      assert x in t;
    }
  }

  lemma {:induction false} KeptWord(word: string, space: char -> bool, keep: string -> bool)
    requires IsTrimmed(word, space)
    ensures Kept([word], space, keep) == if keep(word) then [word] else []
  {
    TrimTrimmed(word, space);
    FlatMapOne(Keeping(space, keep), word);
  }

  lemma {:induction false} KeptItems(items: seq<string>, space: char -> bool, keep: string -> bool)
    requires forall s :: s in items ==> IsTrimmed(s, space) && keep(s)
    ensures Kept(items, space, keep) == items
  {
    if items != [] {
      var n := |items| - 1;
      assert items[n] in items;
      TrimTrimmed(items[n], space);
      KeptItems(items[..n], space, keep);
    }
  }

  lemma {:induction false} KeptAreItems(parts: seq<string>)
    requires AllFree(parts, ',')
    ensures AllItems(Kept(parts, RUST_SPACE, NONEMPTY))
  {
    if parts != [] {
      var n := |parts| - 1;
      assert parts[n] in parts;
      TrimKeepsFree(parts[n], RUST_SPACE, ',');
      KeptAreItems(parts[..n]);
    }
  }

  lemma {:induction false} SplitJoined(items: seq<string>)
    requires AllItems(items)
    ensures SplitCsv(Some(Join(items, ","))) == Some(items)
  {
    if items != [] {
      assert AllFree(items, ',');
      SplitJoin(items, ',');
      KeptItems(items, RUST_SPACE, NONEMPTY);
    } else {
      KeptWord("", RUST_SPACE, NONEMPTY);
    }
  }

  /** A list survives joining and splitting exactly when its items are trimmed, not empty and free of commas. */
  lemma {:induction false} CsvRoundTripsIff(items: seq<string>)
    ensures SplitCsv(Some(Join(items, ","))) == Some(items) <==> AllItems(items)
  {
    if AllItems(items) {
      SplitJoined(items);
    } else {
      JoinSplit(Join(items, ","), ',');
      KeptAreItems(Split(Join(items, ","), ','));
    }
  }

  /** Splitting again what was split changes nothing, and only an absent input gives an absent list. */
  lemma {:induction false} SplittingIsStable(input: Option<string>)
    ensures SplitCsv(input).Some? <==> input.Some?
    ensures input.Some? ==> SplitCsv(Some(Join(SplitCsv(input).value, ","))) == SplitCsv(input)
  {
    if input.Some? {
      JoinSplit(input.value, ',');
      KeptAreItems(Split(input.value, ','));
      SplitJoined(SplitCsv(input).value);
    }
  }

  // ── Any text is a comma list of padded items ──

  /** An item with white space before and after it. */
  datatype Slot = Slot(before: string, item: string, after: string)

  function SlotText(c: Slot): string {
    c.before + c.item + c.after
  }

  predicate IsSlot(c: Slot) {
    && AllSpace(c.before, RUST_SPACE) && AllSpace(c.after, RUST_SPACE)
    && IsTrimmed(c.item, RUST_SPACE) && Free(c.item, ',')
  }

  predicate AllSlots(cs: seq<Slot>) {
    forall i :: 0 <= i < |cs| ==> IsSlot(cs[i])
  }

  function SlotTexts(cs: seq<Slot>): seq<string> {
    seq(|cs|, i requires 0 <= i < |cs| => SlotText(cs[i]))
  }

  /** The items that are not empty, in order. */
  function ItemsOf(cs: seq<Slot>): seq<string> {
    if cs == [] then []
    else
      var last := cs[|cs| - 1].item;
      ItemsOf(cs[..|cs| - 1]) + if last == "" then [] else [last]
  }

  lemma {:induction false} SlotIsKept(c: Slot)
    requires IsSlot(c)
    ensures KeepOne(SlotText(c), RUST_SPACE, NONEMPTY) == if c.item == "" then [] else [c.item]
  {
    TrimPadded(c.before, c.item, c.after, RUST_SPACE);
  }

  lemma {:induction false} SlotsAreKept(cs: seq<Slot>)
    requires AllSlots(cs)
    ensures Kept(SlotTexts(cs), RUST_SPACE, NONEMPTY) == ItemsOf(cs)
  {
    if cs != [] {
      var n := |cs| - 1;
      SlotsAreKept(cs[..n]);
      assert SlotTexts(cs)[..n] == SlotTexts(cs[..n]);
      SlotIsKept(cs[n]);
    }
  }

  lemma {:induction false} SlotIsFree(c: Slot)
    requires IsSlot(c)
    ensures Free(SlotText(c), ',')
  {
    assert !RUST_SPACE(',');
  }

  lemma {:induction false} SlotsAreFree(cs: seq<Slot>)
    requires AllSlots(cs)
    ensures AllFree(SlotTexts(cs), ',')
  {
    forall i | 0 <= i < |cs|
      ensures Free(SlotTexts(cs)[i], ',')
    {
      SlotIsFree(cs[i]);
    }
  }

  /** Splitting gives the items in order, without the white space around them and without the empty ones. */
  lemma {:induction false} SplitsSlots(cs: seq<Slot>)
    requires AllSlots(cs) && cs != []
    ensures SplitCsv(Some(Join(SlotTexts(cs), ","))) == Some(ItemsOf(cs))
  {
    SlotsAreFree(cs);
    SplitJoin(SlotTexts(cs), ',');
    SlotsAreKept(cs);
  }

  lemma {:induction false} StartIsSpace(s: string, space: char -> bool)
    ensures AllSpace(s[..|s| - |TrimStart(s, space)|], space)
  {
    if s != "" && space(s[0]) {
      StartIsSpace(s[1..], space);
      var n := |s| - |TrimStart(s, space)|;
      assert s[..n] == [s[0]] + s[1..][..n - 1];
    }
  }

  lemma {:induction false} EndIsSpace(s: string, space: char -> bool)
    ensures AllSpace(s[|TrimEnd(s, space)|..], space)
  {
    if s != "" && space(s[|s| - 1]) {
      var k := |s| - 1;
      EndIsSpace(s[..k], space);
      var n := |TrimEnd(s, space)|;
      assert s[n..] == s[..k][n..] + [s[k]];
    }
  }

  lemma {:induction false} TrimParts(s: string, space: char -> bool) returns (before: string, after: string)
    ensures AllSpace(before, space) && AllSpace(after, space)
    ensures s == before + Trim(s, space) + after
  {
    var t := TrimStart(s, space);
    StartIsSpace(s, space);
    EndIsSpace(t, space);
    before, after := s[..|s| - |t|], t[|TrimEnd(t, space)|..];
    assert t == TrimEnd(t, space) + after;
  }

  lemma {:induction false} PartIsSlot(s: string) returns (c: Slot)
    requires Free(s, ',')
    ensures IsSlot(c) && SlotText(c) == s
  {
    var before, after := TrimParts(s, RUST_SPACE);
    TrimKeepsFree(s, RUST_SPACE, ',');
    c := Slot(before, Trim(s, RUST_SPACE), after);
  }

  lemma {:induction false} PartsAreSlots(parts: seq<string>) returns (cs: seq<Slot>)
    requires AllFree(parts, ',')
    ensures AllSlots(cs) && SlotTexts(cs) == parts
  {
    cs := [];
    if parts != [] {
      var n := |parts| - 1;
      assert parts[n] in parts;
      var front := PartsAreSlots(parts[..n]);
      var c := PartIsSlot(parts[n]);
      cs := front + [c];
      assert SlotTexts(cs) == SlotTexts(front) + [SlotText(c)];
    }
  }

  /** Every text is such a list. */
  lemma {:induction false} EveryTextIsSlots(s: string) returns (cs: seq<Slot>)
    ensures AllSlots(cs) && cs != [] && Join(SlotTexts(cs), ",") == s
  {
    JoinSplit(s, ',');
    cs := PartsAreSlots(Split(s, ','));
    assert |SlotTexts(cs)| == |cs|;
  }

  // ── Permission strings ──

  const PERMISSIONS := {
    "read:punches", "write:punches", "read:devices", "write:devices", "manage:device_users",
    "manage:device_commands", "manage:dashboard_users", "manage:api_keys", "manage:endpoints",
    "manage:settings", "export:data", "view:audit"
  }

  const IS_PERMISSION: string -> bool := s => s in PERMISSIONS

  /** The length of the leading run of anything else. */
  function Word(s: string, space: char -> bool): (n: nat)
    ensures n <= |s|
    ensures NoSpace(s[..n], space) && (n < |s| ==> space(s[n]))
  {
    if s != "" && !space(s[0]) then
      assert s[..1 + Word(s[1..], space)] == [s[0]] + s[1..][..Word(s[1..], space)];
      1 + Word(s[1..], space)
    else 0
  }

  /** The pieces between runs of white space, as `split(/\s+/)` gives them. */
  function SplitRuns(s: string, space: char -> bool): seq<string>
    decreases |s|
  {
    var n := Word(s, space);
    if n == |s| then [s] else [s[..n]] + SplitRuns(s[n + SpaceRun(s[n..], space)..], space)
  }

  function ParsePermissionsString(raw: string): seq<string> {
    Kept(SplitRuns(raw, JS_SPACE), JS_SPACE, IS_PERMISSION)
  }

  function Filter(tokens: seq<string>, keep: string -> bool): seq<string> {
    if tokens == [] then [] else (if keep(tokens[0]) then [tokens[0]] else []) + Filter(tokens[1..], keep)
  }

  // ── Any text is tokens and white space between them ──

  /** The tokens with white space before, between and after. */
  function Woven(tokens: seq<string>, gaps: seq<string>): string
    requires |gaps| == |tokens| + 1
  {
    if tokens == [] then gaps[0] else gaps[0] + tokens[0] + Woven(tokens[1..], gaps[1..])
  }

  ghost predicate IsWeave(tokens: seq<string>, gaps: seq<string>, space: char -> bool) {
    && |gaps| == |tokens| + 1
    && (forall t :: t in tokens ==> t != "" && NoSpace(t, space))
    && (forall g :: g in gaps ==> AllSpace(g, space))
    && (forall i :: 0 < i < |tokens| ==> gaps[i] != "")
  }

  lemma {:induction false} EveryTextIsWoven(s: string, space: char -> bool)
    returns (tokens: seq<string>, gaps: seq<string>)
    ensures IsWeave(tokens, gaps, space) && Woven(tokens, gaps) == s
    decreases |s|
  {
    var n := SpaceRun(s, space);
    var m := Word(s[n..], space);
    if n == |s| {
      tokens, gaps := [], [s];
      assert s[..n] == s;
    } else {
      var t, rest := s[n..][..m], s[n..][m..];
      assert m > 0 && s == s[..n] + t + rest;
      var ts, gs := EveryTextIsWoven(rest, space);
      tokens, gaps := [t] + ts, [s[..n]] + gs;
      if ts != [] { WeaveStart(ts, gs, space); }
    }
  }

  lemma {:induction false} WeaveStart(tokens: seq<string>, gaps: seq<string>, space: char -> bool)
    requires IsWeave(tokens, gaps, space) && tokens != []
    ensures Woven(tokens, gaps) != "" && (gaps[0] == "" <==> !space(Woven(tokens, gaps)[0]))
  {
    assert tokens[0] in tokens && tokens[0][0] in tokens[0] && gaps[0] in gaps;
    if gaps[0] != "" {
      assert gaps[0][0] in gaps[0];
    }
  }

  lemma {:induction false} WordOf(word: string, rest: string, space: char -> bool)
    requires NoSpace(word, space) && (rest != "" ==> space(rest[0]))
    ensures Word(word + rest, space) == |word|
  {
    if word != "" {
      WordOf(word[1..], rest, space);
      assert (word + rest)[1..] == word[1..] + rest;
      assert word[0] in word;
    }
  }

  /** A token, then white space, then more. */
  lemma {:induction false} SplitsOff(word: string, gap: string, rest: string, space: char -> bool)
    requires NoSpace(word, space) && AllSpace(gap, space) && gap != "" && (rest != "" ==> !space(rest[0]))
    ensures SplitRuns(word + gap + rest, space) == [word] + SplitRuns(rest, space)
  {
    var s, n := word + gap + rest, |word|;
    assert s == word + (gap + rest) && gap[0] in gap;
    WordOf(word, gap + rest, space);
    assert s[n..] == gap + rest;
    SpaceRunOf(gap, rest, space);
    assert s[n + |gap|..] == rest;
  }

  lemma {:induction false} WordIsTrimmed(word: string, space: char -> bool)
    requires NoSpace(word, space)
    ensures IsTrimmed(word, space)
  {
    if word != "" {
      assert word[0] in word && word[|word| - 1] in word;
    }
  }

  lemma {:induction false} WeaveTail(tokens: seq<string>, gaps: seq<string>, space: char -> bool)
    requires IsWeave(tokens, gaps, space) && tokens != []
    ensures IsWeave(tokens[1..], gaps[1..], space)
    ensures tokens[0] != "" && NoSpace(tokens[0], space) && (|tokens| > 1 ==> gaps[1] != "")
  {
    assert tokens[0] in tokens;
    assert forall i :: 0 < i < |tokens[1..]| ==> gaps[1..][i] == gaps[i + 1];
    assert forall t :: t in tokens[1..] ==> t in tokens;
    assert forall g :: g in gaps[1..] ==> g in gaps;
  }

  /** What splitting keeps of a last token and the white space after it. */
  lemma {:induction false} KeptLast(word: string, gap: string, space: char -> bool, keep: string -> bool)
    requires NoSpace(word, space) && AllSpace(gap, space) && !keep("")
    ensures Kept(SplitRuns(word + gap, space), space, keep) == if keep(word) then [word] else []
  {
    WordIsTrimmed(word, space);
    KeptWord(word, space, keep);
    if gap == "" {
      WordOf(word, "", space);
      assert word + gap == word + "" == word;
    } else {
      assert word + gap == word + gap + "";
      SplitsOff(word, gap, "", space);
      KeptWord("", space, keep);
      FlatMapConcat(Keeping(space, keep), [word], [""]);
    }
  }

  /** What splitting keeps of a token, the white space after it, and the rest. */
  lemma {:induction false} KeptNext(word: string, gap: string, rest: string, space: char -> bool, keep: string -> bool)
    requires NoSpace(word, space) && AllSpace(gap, space) && rest != "" && !space(rest[0])
    requires gap == "" ==> word == "" && !keep("")
    ensures Kept(SplitRuns(word + gap + rest, space), space, keep)
         == (if keep(word) then [word] else []) + Kept(SplitRuns(rest, space), space, keep)
  {
    if gap == "" {
      assert word + gap + rest == rest;
    } else {
      WordIsTrimmed(word, space);
      KeptWord(word, space, keep);
      SplitsOff(word, gap, rest, space);
      FlatMapConcat(Keeping(space, keep), [word], SplitRuns(rest, space));
    }
  }

  lemma {:induction false} SplitsWeave(word: string, tokens: seq<string>, gaps: seq<string>,
                                       space: char -> bool, keep: string -> bool)
    requires NoSpace(word, space) && IsWeave(tokens, gaps, space) && !keep("")
    requires tokens != [] && word != "" ==> gaps[0] != ""
    ensures Kept(SplitRuns(word + Woven(tokens, gaps), space), space, keep)
         == (if keep(word) then [word] else []) + Filter(tokens, keep)
    decreases |tokens|
  {
    assert gaps[0] in gaps;
    if tokens == [] {
      KeptLast(word, gaps[0], space, keep);
    } else {
      var rest := tokens[0] + Woven(tokens[1..], gaps[1..]);
      WeaveTail(tokens, gaps, space);
      assert tokens[0][0] in tokens[0];
      assert word + Woven(tokens, gaps) == word + gaps[0] + rest;
      KeptNext(word, gaps[0], rest, space, keep);
      SplitsWeave(tokens[0], tokens[1..], gaps[1..], space, keep);
    }
  }

  /**
   From any mix of tokens and white space the known permissions come out, in order. Every
   text is such a mix (EveryTextIsWoven).
   */
  lemma {:induction false} ParsesKnownTokens(tokens: seq<string>, gaps: seq<string>)
    requires IsWeave(tokens, gaps, JS_SPACE)
    ensures ParsePermissionsString(Woven(tokens, gaps)) == Filter(tokens, IS_PERMISSION)
  {
    NoEmptyPermission();
    SplitsWeave("", tokens, gaps, JS_SPACE, IS_PERMISSION);
    assert "" + Woven(tokens, gaps) == Woven(tokens, gaps);
  }

  lemma {:induction false} NoEmptyPermission()
    ensures !IS_PERMISSION("")
  {
  }
}
