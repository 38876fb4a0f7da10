/** Entries as they stand in a file, in the format's own words, and the entries the loose search is for. */
module PoWording {
  import opened Wrappers
  import opened Text
  import opened Substrings
  import opened PoCatalog
  import opened PoEscape
  import opened PoEntries
  import opened PoLayout
  import opened PoTheorems

  /** Text on one line that means itself between quotes. */
  predicate IsPlain(s: string) {
    Free(s, '"') && Free(s, '\\') && Free(s, '\n')
  }

  lemma {:induction false} PlainIsQuotable(s: string)
    requires IsPlain(s)
    ensures IsQuotable(s) && OnePass(s) == s
  {
    if s != "" {
      PlainIsQuotable(s[1..]);
      assert s == [s[0]] + s[1..];
    }
  }

  lemma {:induction false} PlainIsEscaped(s: string)
    requires IsPlain(s)
    ensures Escaped(s) == s
  {
    PlainIsQuotable(s);
    EscapedIsOnePass(s);
  }

  lemma {:induction false} EntryText(id: string, text: string)
    ensures FileText(Lone(id, text)) == "msgid \"" + id + "\"\nmsgstr \"" + text + "\"\n"
  {
    var b := Single([], id, text);
    var ps := Lone(id, text);
    assert Lines(b) == [IdLine(id), StrLine(text)];
    assert ps[1..] == [] && FileLines(ps[1..]) == [] && Empties(1) == [""] + Empties(0) == [""];
    assert FileLines(ps) == [IdLine(id), StrLine(text), ""];
    JoinThree(IdLine(id), StrLine(text));
    assert "\"" + "\n" + "msgstr \"" == "\"\nmsgstr \"" && "\"" + "\n" == "\"\n";
  }

  lemma {:induction false} JoinThree(a: string, b: string)
    ensures Join([a, b, ""], "\n") == a + "\n" + b + "\n"
  {
    assert [a, b, ""][1..] == [b, ""] && [b, ""][1..] == [""];
    assert Join([b, ""], "\n") == b + "\n" + "" == b + "\n";
  }

  function Lone(id: string, text: string): seq<Piece> {
    [Piece(Single([], id, text), 1)]
  }

  lemma {:induction false} LoneIsKnown(id: string, text: string)
    requires id != "" && IsPlain(id) && IsPlain(text)
    ensures FillAll(Lone(id, ""), map[id := text]) == Lone(id, text) && CountKnown(Lone(id, ""), map[id := text]) == 1
  {
    var ps, dict := Lone(id, ""), map[id := text];
    PlainIsEscaped(text);
    assert Fill(ps[0].block, dict) == Single([], id, text);
    assert ps[..0] == [] && CountKnown(ps[..0], dict) == 0;
  }

  lemma {:induction false} LoneIsFilled(id: string, text: string)
    requires id != "" && IsPlain(id) && IsPlain(text)
    ensures Filled(FileText(Lone(id, "")), map[id := text]) == (FileText(Lone(id, text)), 1)
  {
    PlainIsQuotable(id);
    LoneIsProper(id);
    FillsExactlyKnownEntries(Lone(id, ""), map[id := text]);
    LoneIsKnown(id, text);
  }

  /** A lone empty entry is filled in place. */
  lemma {:induction false} LoneEntryIsFilled(id: string, text: string)
    requires id != "" && IsPlain(id) && IsPlain(text)
    ensures Filled("msgid \"" + id + "\"\nmsgstr \"\"\n", map[id := text])
         == ("msgid \"" + id + "\"\nmsgstr \"" + text + "\"\n", 1)
  {
    LoneIsFilled(id, text);
    EntryText(id, "");
    EntryText(id, text);
    EmptyQuotes(id);
  }

  lemma {:induction false} EmptyQuotes(id: string)
    ensures "msgid \"" + id + "\"\nmsgstr \"" + "" + "\"\n" == "msgid \"" + id + "\"\nmsgstr \"\"\n"
  {
    assert "\"\nmsgstr \"" + "" + "\"\n" == "\"\nmsgstr \"\"\n";
  }

  lemma {:induction false} LoneIsProper(id: string)
    requires id != "" && IsPlain(id) && IsQuotable(id)
    ensures Proper(Lone(id, ""))
  {
    assert WellFormed(Single([], id, ""));
  }

  /** A line that is commented out as far as the closing quote. */
  predicate IsCommentedOut(line: string) {
    |line| > 2 && line[0] == '#' && line[|line| - 1] == '"' && Free(line, '\n')
  }

  lemma {:induction false} PairIsObsolete(a: string, b: string)
    requires IsCommentedOut(a) && IsCommentedOut(b) && OBSOLETE <= a
    ensures IsObsolete([a, b])
  {
    FieldCharsAreNoSpace();
    assert a in [a, b];
  }

  lemma {:induction false} JoinPair(a: string, b: string)
    ensures Join([a, b], "\n") == a + "\n" + b
  {
    assert [a, b][1..] == [b];
  }

  lemma {:induction false} ObsoletePair(a: string, b: string)
    requires IsCommentedOut(a) && IsCommentedOut(b) && OBSOLETE <= a
    ensures Listed(a + "\n" + b) == None
  {
    var lines := [a, b];
    PairIsObsolete(a, b);
    ObsoleteIsWellFormed(lines);
    JoinPair(a, b);
    PassedIsUnlisted(lines);
  }

  lemma {:induction false} PassedIsUnlisted(lines: seq<string>)
    requires WellFormed(Verbatim(lines))
    ensures Listed(Join(lines, "\n")) == None
  {
  }

  lemma {:induction false} CommentedLines(id: string)
    requires Free(id, '\n')
    ensures var a := "#~ msgid \"" + id + "\"";
            OBSOLETE <= a && IsCommentedOut(a) && IsCommentedOut("#~ msgstr \"\"")
  {
    var a := "#~ msgid \"" + id + "\"";
    assert a[..2] == "#~";
  }

  /** A commented-out empty entry is not listed. */
  lemma {:induction false} CommentedOutIsNotListed(id: string)
    requires Free(id, '\n')
    ensures Listed("#~ msgid \"" + id + "\"" + "\n" + "#~ msgstr \"\"") == None
  {
    CommentedLines(id);
    ObsoletePair("#~ msgid \"" + id + "\"", "#~ msgstr \"\"");
  }

  lemma {:induction false} NewTextSpelled(id: string, translation: string)
    ensures NewText(id, translation) == "msgid \"" + id + "\"\nmsgstr \"" + Escaped(translation) + "\""
  {
    assert "\"" + "\n" + "msgstr \"" == "\"\nmsgstr \"";
  }

  lemma {:induction false} LooseIsApplied(content: string, id: string, dict: map<string, string>)
    requires id in dict && !Contains(content, OldText(id))
    ensures ApplyOne(content, id, dict) == ApplyLoose(content, id, NewText(id, dict[id]))
  {
  }

  /**
   An entry with other white space between its lines, and none without: the loose search
   rewrites the first such place and writes the escaped translation there.
   */
  lemma {:induction false} LooseEntryIsFilled(
    before: string, id: string, gap: string, after: string, dict: map<string, string>)
    requires id in dict && AllSpace(gap, SPACE) && '\n' in gap
    requires var s := before + (IdLine(id) + gap + EMPTY_STR + after);
             !Contains(s, OldText(id)) && forall k :: 0 <= k < |before| ==> LooseMatch(s[k..], id) == 0
    ensures ApplyOne(before + (IdLine(id) + gap + EMPTY_STR + after), id, dict)
         == (before + ("msgid \"" + id + "\"\nmsgstr \"" + Escaped(dict[id]) + "\"") + after, 1)
  {
    NewTextSpelled(id, dict[id]);
    LooseIsApplied(before + (IdLine(id) + gap + EMPTY_STR + after), id, dict);
    LooseIsFilled(before, id, gap, after, NewText(id, dict[id]));
  }

  /** Each entry the scanner gives is one of the blocks, with the msgid that block is listed under, in block order. */
  lemma {:induction false} EntriesAreBlocks(f: string -> Option<string>, blocks: seq<string>)
    ensures forall e :: e in Select(f, blocks) ==> e.1 in blocks && f(e.1) == Some(e.0)
    ensures forall b :: b in blocks && f(b).Some? ==> (f(b).value, b) in Select(f, blocks)
  {
    if blocks != [] {
      var n := |blocks| - 1;
      EntriesAreBlocks(f, blocks[..n]);
      assert blocks == blocks[..n] + [blocks[n]];
    }
  }
}
