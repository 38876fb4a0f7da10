/** What an export line exports, however its clauses are spelled. */
module BarrelClauses {
  import opened Wrappers
  import opened Text
  import opened BarrelParser

  /** `as name` behind another name. */
  datatype Renaming = Renaming(gap: string, gap': string, name: string)

  /** A clause with white space around it; `mark` is the white space after `type `, if it is marked so. */
  datatype Spelling = Spelling(
    before: string, mark: Option<string>, name: string, renaming: Option<Renaming>, after: string)

  function Core(c: Spelling): string {
    match c.renaming
    case None => c.name
    case Some(r) => c.name + (r.gap + ("as" + (r.gap' + r.name)))
  }

  function SpellingText(c: Spelling): string {
    c.before + (if c.mark.None? then Core(c) else "type " + (c.mark.value + Core(c))) + c.after
  }

  /** The name the clause exports. */
  function Shown(c: Spelling): string {
    match c.renaming
    case None => c.name
    case Some(r) => r.name
  }

  /** White space within one line. */
  predicate IsBlank(s: string) {
    AllSpace(s, SPACE) && Free(s, '\n')
  }

  /**
   Names are clean. Only a clause of white space alone, as after a last comma, has no name;
   `type as b` cannot be told from a marked clause.
   */
  predicate IsSpelling(c: Spelling) {
    && IsBlank(c.before) && IsBlank(c.after) && Clean(c.name)
    && (c.mark.Some? ==> IsBlank(c.mark.value) && c.name != "")
    && (c.renaming.Some? ==>
      && var r := c.renaming.value;
      && IsBlank(r.gap) && IsBlank(r.gap') && r.gap != "" && r.gap' != ""
      && Clean(r.name) && r.name != "" && c.name != "" && (c.mark.None? ==> c.name != "type"))
  }

  predicate AllSpellings(cs: seq<Spelling>) {
    forall i :: 0 <= i < |cs| ==> IsSpelling(cs[i])
  }

  function SpellingTexts(cs: seq<Spelling>): seq<string> {
    seq(|cs|, i requires 0 <= i < |cs| => SpellingText(cs[i]))
  }

  /** The names of the clauses that are marked `type`, or of those that are not, in order. */
  function ShownWhere(cs: seq<Spelling>, marked: bool): seq<string> {
    if cs == [] then []
    else
      var c := cs[|cs| - 1];
      ShownWhere(cs[..|cs| - 1], marked) + if c.mark.Some? == marked then [Shown(c)] else []
  }

  function AllShown(cs: seq<Spelling>): seq<string> {
    seq(|cs|, i requires 0 <= i < |cs| => Shown(cs[i]))
  }

  // ── One clause ──

  lemma {:induction false} RenamedCore(name: string, r: Renaming)
    requires name != "" && NoSpace(name, SPACE) && r.name != "" && NoSpace(r.name, SPACE)
    requires r.gap != "" && r.gap' != "" && AllSpace(r.gap, SPACE) && AllSpace(r.gap', SPACE)
    ensures var s := name + As(r.gap, r.gap', r.name);
            && Alias(s, 1) == Some(r.name) && Trim(r.name, SPACE) == r.name
            && !SPACE(s[0]) && !SPACE(s[|s| - 1])
  {
    SpacelessIsTrimmed(name);
    SpacelessIsTrimmed(r.name);
    AsEnds(r.gap, r.gap', r.name);
    AsIsAlias(r.gap, r.gap', r.name);
    AliasAfter(name, As(r.gap, r.gap', r.name), 1);
  }

  lemma {:induction false} TypedRenaming(clause: string, rest: string, s: string, name: string)
    requires Trim(clause, SPACE) == "type " + rest && Trim(rest, SPACE) == s
    requires Alias(s, 1) == Some(name) && Trim(name, SPACE) == name
    ensures ExtractExportName(clause) == Clause(name, true)
  {
    assert ("type " + rest)[5..] == rest;
    assert "type " <= "type " + rest;
  }

  /** The text behind `type `, and the clause around it, as trimming sees them. */
  lemma {:induction false} TypedIsTrimmed(before: string, mark: string, core: string, after: string)
    requires AllSpace(before, SPACE) && AllSpace(mark, SPACE) && AllSpace(after, SPACE)
    requires core != "" && !SPACE(core[0]) && !SPACE(core[|core| - 1])
    ensures Trim(before + ("type " + (mark + core)) + after, SPACE) == "type " + (mark + core)
    ensures Trim(mark + core, SPACE) == core
  {
    var s := "type " + (mark + core);
    assert s[0] == 't' && !SPACE('t') && s[|s| - 1] == core[|core| - 1];
    TrimPadded(before, s, after, SPACE);
    TrimPadded(mark, core, "", SPACE);
    assert mark + core + "" == mark + core;
  }

  /** A clause `type a as b` exports `b` as a type. */
  lemma {:induction false} InlineTypeAliasIsExported(
    before: string, mark: string, name: string, r: Renaming, after: string)
    requires AllSpace(before, SPACE) && AllSpace(mark, SPACE) && AllSpace(after, SPACE)
    requires name != "" && NoSpace(name, SPACE) && r.name != "" && NoSpace(r.name, SPACE)
    requires r.gap != "" && r.gap' != "" && AllSpace(r.gap, SPACE) && AllSpace(r.gap', SPACE)
    ensures ExtractExportName(before + ("type " + (mark + (name + As(r.gap, r.gap', r.name)))) + after)
         == Clause(r.name, true)
  {
    var core := name + As(r.gap, r.gap', r.name);
    RenamedCore(name, r);
    TypedIsTrimmed(before, mark, core, after);
    TypedRenaming(before + ("type " + (mark + core)) + after, mark + core, core, r.name);
  }

  lemma {:induction false} SpellingIsExtracted(c: Spelling)
    requires IsSpelling(c)
    ensures ExtractExportName(SpellingText(c)) == Clause(Shown(c), c.mark.Some?)
  {
    match (c.mark, c.renaming)
    case (None, None) => PaddedNameIsExtracted(c.before, c.name, c.after);
    case (Some(mark), None) => InlineTypeIsExported(c.before, mark, c.name, c.after);
    case (None, Some(r)) => AliasIsExported(c.before, c.name, r.gap, r.gap', r.name, c.after);
    case (Some(mark), Some(r)) => InlineTypeAliasIsExported(c.before, mark, c.name, r, c.after);
  }

  // ── The clauses of a line ──

  lemma {:induction false} BlankIsFree(s: string)
    requires IsBlank(s)
    ensures Free(s, ',') && Free(s, '}') && Free(s, '\n')
  {
    assert !SPACE(',') && !SPACE('}');
  }

  lemma {:induction false} CleanIsFree(s: string)
    requires Clean(s)
    ensures Free(s, ',') && Free(s, '}') && Free(s, '\n')
  {
    assert SPACE('\n');
  }

  lemma {:induction false} CoreIsFree(c: Spelling, x: char)
    requires IsSpelling(c) && (x == ',' || x == '}' || x == '\n')
    ensures Free(Core(c), x)
  {
    CleanIsFree(c.name);
    if c.renaming.Some? {
      BlankIsFree(c.renaming.value.gap);
      BlankIsFree(c.renaming.value.gap');
      CleanIsFree(c.renaming.value.name);
    }
  }

  lemma {:induction false} SpellingIsFree(c: Spelling, x: char)
    requires IsSpelling(c) && (x == ',' || x == '}' || x == '\n')
    ensures Free(SpellingText(c), x)
  {
    BlankIsFree(c.before);
    BlankIsFree(c.after);
    CoreIsFree(c, x);
    if c.mark.Some? { BlankIsFree(c.mark.value); }
  }

  lemma {:induction false} SpellingsAreFree(cs: seq<Spelling>, x: char)
    requires AllSpellings(cs) && (x == ',' || x == '}' || x == '\n')
    ensures AllFree(SpellingTexts(cs), x)
  {
    forall i | 0 <= i < |cs|
      ensures Free(SpellingTexts(cs)[i], x)
    {
      SpellingIsFree(cs[i], x);
    }
  }

  lemma {:induction false} SpelledClauses(cs: seq<Spelling>)
    requires AllSpellings(cs) && cs != []
    ensures var clauses := Clauses(Join(SpellingTexts(cs), ","));
            |clauses| == |cs| && forall i :: 0 <= i < |cs| ==> clauses[i] == Clause(Shown(cs[i]), cs[i].mark.Some?)
  {
    SpellingsAreFree(cs, ',');
    SplitJoin(SpellingTexts(cs), ',');
    forall i | 0 <= i < |cs|
      ensures ExtractExportName(SpellingTexts(cs)[i]) == Clause(Shown(cs[i]), cs[i].mark.Some?)
    {
      SpellingIsExtracted(cs[i]);
    }
  }

  lemma {:induction false} NamesAreShown(clauses: seq<Clause>, cs: seq<Spelling>, marked: bool)
    requires |clauses| == |cs|
    requires forall i :: 0 <= i < |cs| ==> clauses[i] == Clause(Shown(cs[i]), cs[i].mark.Some?)
    ensures NamesWhere(clauses, marked) == ShownWhere(cs, marked)
    ensures AllNames(clauses) == AllShown(cs)
  {
    if cs != [] {
      NamesAreShown(clauses[..|cs| - 1], cs[..|cs| - 1], marked);
    }
  }

  // ── The line ──

  /** The text after the keywords of an export line. */
  function Braced(body: string, gap: string, tail: string): string {
    "{" + body + "}" + (gap + ("from" + tail))
  }

  lemma {:induction false} BracedMatches(body: string, gap: string, tail: string)
    requires body != "" && Free(body, '}') && gap != "" && AllSpace(gap, SPACE)
    ensures Braces(Braced(body, gap, tail)) == Some(body)
  {
    var s, rest := Braced(body, gap, tail), gap + ("from" + tail);
    assert s[1..] == body + "}" + rest;
    FirstClosing(body, rest);
    assert s[|body| + 2..] == rest && s[1..|body| + 1] == body;
    assert ("from" + tail)[0] == 'f' && !SPACE('f');
    SpaceRunOf(gap, "from" + tail, SPACE);
    assert rest[|gap|..] == "from" + tail;
  }

  lemma {:induction false} FirstClosing(a: string, b: string)
    requires Free(a, '}')
    ensures Closing(a + "}" + b) == |a|
  {
    var s := a + "}" + b;
    var n := Closing(s);
    assert s[|a|] == '}';
    assert forall i :: 0 <= i < n ==> s[i] == s[..n][i];
    assert forall i :: 0 <= i < |a| ==> s[i] == a[i];
  }

  lemma {:induction false} PastGap(word: string, gap: string, rest: string)
    requires gap != "" && AllSpace(gap, SPACE) && rest != "" && !SPACE(rest[0])
    ensures Past(word + (gap + rest), word) == Some(rest)
  {
    var s := word + (gap + rest);
    assert s[..|word|] == word && s[|word|..] == gap + rest;
    SpaceRunOf(gap, rest, SPACE);
    assert s[|word| + |gap|..] == rest;
  }

  lemma {:induction false} ExportIsKept(line: string)
    requires line != "" && line[0] == 'e'
    ensures Kept(line)
  {
    assert !SPACE('e');
    TrimEndKeepsStart(line, SPACE);
    assert "//"[0] == '/';
  }

  function ValueExport(gap: string, body: string, gap': string, tail: string): string {
    "export" + (gap + Braced(body, gap', tail))
  }

  function TypeExport(gap: string, gap': string, body: string, gap'': string, tail: string): string {
    "export" + (gap + ("type" + (gap' + Braced(body, gap'', tail))))
  }

  lemma {:induction false} ValueExportMatches(gap: string, body: string, gap': string, tail: string)
    requires gap != "" && gap' != "" && AllSpace(gap, SPACE) && AllSpace(gap', SPACE) && body != "" && Free(body, '}')
    ensures var line := ValueExport(gap, body, gap', tail);
            Kept(line) && MatchTypeExport(line) == None && MatchValueExport(line) == Some(body)
  {
    var rest := Braced(body, gap', tail);
    assert rest[0] == '{' && !SPACE('{') && "type"[0] == 't';
    PastGap("export", gap, rest);
    BracedMatches(body, gap', tail);
    ExportIsKept(ValueExport(gap, body, gap', tail));
  }

  lemma {:induction false} TypeExportMatches(gap: string, gap': string, body: string, gap'': string, tail: string)
    requires gap != "" && gap' != "" && gap'' != "" && body != "" && Free(body, '}')
    requires AllSpace(gap, SPACE) && AllSpace(gap', SPACE) && AllSpace(gap'', SPACE)
    ensures var line := TypeExport(gap, gap', body, gap'', tail);
            Kept(line) && MatchTypeExport(line) == Some(body)
  {
    var rest := Braced(body, gap'', tail);
    var typed := "type" + (gap' + rest);
    assert rest[0] == '{' && !SPACE('{') && typed[0] == 't' && !SPACE('t');
    PastGap("export", gap, typed);
    PastGap("type", gap', rest);
    BracedMatches(body, gap'', tail);
    ExportIsKept(TypeExport(gap, gap', body, gap'', tail));
  }

  lemma {:induction false} BracedIsLine(body: string, gap: string, tail: string)
    requires Free(body, '\n') && Free(gap, '\n') && Free(tail, '\n')
    ensures Free(Braced(body, gap, tail), '\n')
  {
  }

  lemma {:induction false} ExportIsLine(gap: string, gap': string, braced: string)
    requires Free(gap, '\n') && Free(gap', '\n') && Free(braced, '\n')
    ensures Free("export" + (gap + braced), '\n') && Free("export" + (gap + ("type" + (gap' + braced))), '\n')
  {
  }

  /**
   A line `export { … } from` exports the names of its unmarked clauses as values and those
   of the clauses marked `type` as types, each in order, an alias in place of its name.
   */
  lemma {:induction false} ValueLineIsRead(cs: seq<Spelling>, gap: string, gap': string, tail: string)
    requires AllSpellings(cs) && cs != [] && Free(tail, '\n') && Join(SpellingTexts(cs), ",") != ""
    requires IsBlank(gap) && gap != "" && IsBlank(gap') && gap' != ""
    ensures var line := "export" + (gap + ("{" + Join(SpellingTexts(cs), ",") + "}" + (gap' + ("from" + tail))));
            Exported(line) == Exports(ShownWhere(cs, false), ShownWhere(cs, true))
  {
    var body := Join(SpellingTexts(cs), ",");
    SpellingsAreFree(cs, '}');
    SpellingsAreFree(cs, '\n');
    JoinFree(SpellingTexts(cs), ",", '}');
    JoinFree(SpellingTexts(cs), ",", '\n');
    BracedIsLine(body, gap', tail);
    ExportIsLine(gap, gap', Braced(body, gap', tail));
    ExportedLine(ValueExport(gap, body, gap', tail));
    ValueExportMatches(gap, body, gap', tail);
    SpelledClauses(cs);
    NamesAreShown(Clauses(body), cs, false);
    NamesAreShown(Clauses(body), cs, true);
  }

  /** A line `export type { … } from` exports all its names as types. */
  lemma {:induction false} TypeLineIsRead(cs: seq<Spelling>, gap: string, gap': string, gap'': string, tail: string)
    requires AllSpellings(cs) && cs != [] && Free(tail, '\n') && Join(SpellingTexts(cs), ",") != ""
    requires IsBlank(gap) && gap != "" && IsBlank(gap') && gap' != "" && IsBlank(gap'') && gap'' != ""
    ensures var braces := "{" + Join(SpellingTexts(cs), ",") + "}" + (gap'' + ("from" + tail));
            Exported("export" + (gap + ("type" + (gap' + braces)))) == Exports([], AllShown(cs))
  {
    var body := Join(SpellingTexts(cs), ",");
    SpellingsAreFree(cs, '}');
    SpellingsAreFree(cs, '\n');
    JoinFree(SpellingTexts(cs), ",", '}');
    JoinFree(SpellingTexts(cs), ",", '\n');
    BracedIsLine(body, gap'', tail);
    ExportIsLine(gap, gap', Braced(body, gap'', tail));
    ExportedLine(TypeExport(gap, gap', body, gap'', tail));
    TypeExportMatches(gap, gap', body, gap'', tail);
    SpelledClauses(cs);
    NamesAreShown(Clauses(body), cs, true);
  }
}
