/** What is read back from a generated barrel: the exports, and the import statements they are. */
module BarrelRoundTrip {
  import opened Wrappers
  import opened Text
  import opened Collections
  import opened BarrelParser
  import opened BarrelClauses
  import opened BarrelPrinter
  import opened BarrelLayout

  // ── One export line ──

  predicate AllClean(names: seq<string>) {
    forall n :: n in names ==> Clean(n)
  }

  /** What stands between the braces. */
  function Inside(names: seq<string>): string {
    " " + Join(names, ", ") + " "
  }

  /** The clauses of a printed list: a blank before each name and after the last. */
  function Plain(names: seq<string>): seq<Spelling> {
    seq(|names|, i requires 0 <= i < |names| =>
      Spelling(" ", None, names[i], None, if i == |names| - 1 then " " else ""))
  }

  lemma {:induction false} PlainText(names: seq<string>)
    requires names != []
    ensures Join(SpellingTexts(Plain(names)), ",") == Inside(names)
  {
    var texts := SpellingTexts(Plain(names));
    if |names| == 1 {
      assert texts == [" " + names[0] + " "];
    } else {
      PlainText(names[1..]);
      assert texts[0] == " " + names[0] + "" == " " + names[0];
      assert texts[1..] == SpellingTexts(Plain(names[1..]));
      assert Inside(names) == " " + names[0] + "," + Inside(names[1..]);
    }
  }

  lemma {:induction false} PlainIsSpelled(names: seq<string>)
    requires AllClean(names)
    ensures AllSpellings(Plain(names)) && AllShown(Plain(names)) == names
  {
    assert IsBlank(" ") && IsBlank("") by { assert SPACE(' '); }
    assert forall i :: 0 <= i < |names| ==> names[i] in names;
  }

  lemma {:induction false} UnmarkedAreValues(cs: seq<Spelling>, names: seq<string>)
    requires |cs| == |names| && forall i :: 0 <= i < |cs| ==> cs[i].mark.None? && Shown(cs[i]) == names[i]
    ensures ShownWhere(cs, false) == names && ShownWhere(cs, true) == []
  {
    if cs != [] {
      var n := |cs| - 1;
      UnmarkedAreValues(cs[..n], names[..n]);
      assert names == names[..n] + [names[n]];
    }
  }

  /** The end of an export line. */
  function From(path: string): string {
    " \"" + path + "\";"
  }

  lemma {:induction false} ValueLineParts(names: seq<string>, path: string)
    ensures ValueLine(names, path) == ValueExport(" ", Inside(names), " ", From(path))
  {
    assert "export { " == "export" + (" " + ("{" + " "));
    assert " } from \"" == " " + "}" + (" " + ("from" + " \""));
  }

  lemma {:induction false} TypeLineParts(names: seq<string>, path: string)
    ensures TypeLine(names, path) == TypeExport(" ", " ", Inside(names), " ", From(path))
  {
    assert "export type { " == "export" + (" " + ("type" + (" " + ("{" + " "))));
    assert " } from \"" == " " + "}" + (" " + ("from" + " \""));
  }

  lemma {:induction false} InsideIsInside(names: seq<string>)
    requires names != [] && AllClean(names)
    ensures Inside(names) != "" && Free(Inside(names), '}') && Free(Inside(names), '\n')
  {
    forall n | n in names
      ensures Free(n, '}') && Free(n, '\n')
    {
      CleanIsFree(n);
    }
    JoinFree(names, ", ", '}');
    JoinFree(names, ", ", '\n');
  }

  lemma {:induction false} OneBlank()
    ensures IsBlank(" ") && AllSpace(" ", SPACE)
  {
    assert SPACE(' ');
  }

  lemma {:induction false} FromIsLine(path: string)
    requires Free(path, '\n')
    ensures Free(From(path), '\n')
  {
  }

  lemma {:induction false} ListsAreLines(names: seq<string>, path: string)
    requires names != [] && AllClean(names) && Free(path, '\n')
    ensures Free(ValueLine(names, path), '\n') && Free(TypeLine(names, path), '\n')
  {
    InsideIsInside(names);
    FromIsLine(path);
    ValueLineParts(names, path);
    TypeLineParts(names, path);
    BracedIsLine(Inside(names), " ", From(path));
    ExportIsLine(" ", " ", Braced(Inside(names), " ", From(path)));
  }

  predicate IsValueLine(line: string, body: string) {
    Kept(line) && MatchTypeExport(line) == None && MatchValueExport(line) == Some(body)
  }

  predicate IsTypeLine(line: string, body: string) {
    Kept(line) && MatchTypeExport(line) == Some(body)
  }

  lemma {:induction false} OneBlankMatches(body: string, tail: string)
    requires body != "" && Free(body, '}')
    ensures IsValueLine(ValueExport(" ", body, " ", tail), body)
    ensures IsTypeLine(TypeExport(" ", " ", body, " ", tail), body)
  {
    OneBlank();
    ValueExportMatches(" ", body, " ", tail);
    TypeExportMatches(" ", " ", body, " ", tail);
  }

  lemma {:induction false} LinesMatch(names: seq<string>, path: string)
    requires names != [] && AllClean(names)
    ensures IsValueLine(ValueLine(names, path), Inside(names)) && IsTypeLine(TypeLine(names, path), Inside(names))
  {
    InsideIsInside(names);
    ValueLineParts(names, path);
    TypeLineParts(names, path);
    OneBlankMatches(Inside(names), From(path));
  }

  lemma {:induction false} InsideClauses(names: seq<string>)
    requires names != [] && AllClean(names)
    ensures var cs := Clauses(Inside(names));
            AllNames(cs) == names && NamesWhere(cs, false) == names && NamesWhere(cs, true) == []
  {
    var cs := Plain(names);
    PlainText(names);
    PlainIsSpelled(names);
    SpelledClauses(cs);
    NamesAreShown(Clauses(Inside(names)), cs, false);
    NamesAreShown(Clauses(Inside(names)), cs, true);
    UnmarkedAreValues(cs, names);
  }

  lemma {:induction false} LinesExport(names: seq<string>, path: string)
    requires names != [] && AllClean(names)
    ensures LineExports(ValueLine(names, path)) == Exports(names, [])
    ensures LineExports(TypeLine(names, path)) == Exports([], names)
  {
    LinesMatch(names, path);
    InsideClauses(names);
    ExportsOfMatch(ValueLine(names, path), TypeLine(names, path), Inside(names), names);
  }

  lemma {:induction false} ExportsOfMatch(value: string, type': string, body: string, names: seq<string>)
    requires IsValueLine(value, body) && IsTypeLine(type', body)
    requires var cs := Clauses(body);
             AllNames(cs) == names && NamesWhere(cs, false) == names && NamesWhere(cs, true) == []
    ensures LineExports(value) == Exports(names, []) && LineExports(type') == Exports([], names)
  {
  }

  // ── The statement a line is ──

  /** `export { names } from "path"` or `export type { names } from "path"`. */
  datatype Statement = Statement(isType: bool, names: seq<string>, path: string)

  /** The position after the last quote, or 0. */
  function AfterQuote(s: string): (i: nat)
    ensures i <= |s|
  {
    if s == "" then 0 else if s[|s| - 1] == '"' then |s| else AfterQuote(s[..|s| - 1])
  }

  /** The text between quotes with which a line ends, before a semicolon and after `from`. */
  function PathIn(line: string): Option<string> {
    var n := |line| - 2;
    if n < 0 || line[n..] != "\";" then None
    else
      var i := AfterQuote(line[..n]);
      if i >= 6 && line[i - 6..i] == "from \"" then Some(line[i..n]) else None
  }

  function StatementOf(isType: bool, body: string, line: string): seq<Statement> {
    match PathIn(line)
    case None => []
    case Some(path) => [Statement(isType, AllNames(Clauses(body)), path)]
  }

  function StatementIn(line: string): seq<Statement> {
    if MatchTypeExport(line).Some? then StatementOf(true, MatchTypeExport(line).value, line)
    else if MatchValueExport(line).Some? then StatementOf(false, MatchValueExport(line).value, line)
    else []
  }

  lemma {:induction false} AfterQuoteAt(s: string, path: string)
    requires s != "" && s[|s| - 1] == '"' && Free(path, '"')
    ensures AfterQuote(s + path) == |s|
  {
    var t := s + path;
    if path == "" {
      assert t == s;
    } else {
      assert path[|path| - 1] in path;
      assert t[..|t| - 1] == s + path[..|path| - 1];
      AfterQuoteAt(s, path[..|path| - 1]);
    }
  }

  lemma {:induction false} PathOfLine(before: string, path: string)
    requires Free(path, '"')
    ensures PathIn(before + "from" + From(path)) == Some(path)
  {
    var s := before + "from \"";
    var line := s + path + "\";";
    assert before + "from" + From(path) == line;
    assert line[|line| - 2..] == "\";" && line[..|line| - 2] == s + path;
    assert s[|s| - 1] == "from \""[5] == '"';
    AfterQuoteAt(s, path);
    assert line[|s| - 6..|s|] == s[|before|..] == "from \"";
    assert line[|s|..|line| - 2] == path;
  }

  lemma {:induction false} StatementsOfMatch(
    value: string, type': string, body: string, names: seq<string>, path: string)
    requires IsValueLine(value, body) && IsTypeLine(type', body) && AllNames(Clauses(body)) == names
    requires PathIn(value) == PathIn(type') == Some(path)
    ensures StatementIn(value) == [Statement(false, names, path)]
    ensures StatementIn(type') == [Statement(true, names, path)]
  {
  }

  lemma {:induction false} Regrouped(a: string, b: string, c: string, d: string)
    ensures a + (b + (c + (" " + ("from" + d)))) == (a + (b + (c + " "))) + "from" + d
  {
  }

  lemma {:induction false} ExportPath(start: string, body: string, path: string)
    requires Free(path, '"')
    ensures PathIn(start + (" " + Braced(body, " ", From(path)))) == Some(path)
  {
    var braces := "{" + body + "}";
    Regrouped(start, " ", braces, From(path));
    PathOfLine(start + (" " + (braces + " ")), path);
  }

  lemma {:induction false} LinesState(names: seq<string>, path: string)
    requires names != [] && AllClean(names) && Free(path, '"')
    ensures StatementIn(ValueLine(names, path)) == [Statement(false, names, path)]
    ensures StatementIn(TypeLine(names, path)) == [Statement(true, names, path)]
  {
    LinesMatch(names, path);
    InsideClauses(names);
    LinePaths(names, path);
    StatementsOfMatch(ValueLine(names, path), TypeLine(names, path), Inside(names), names, path);
  }

  lemma {:induction false} LinePaths(names: seq<string>, path: string)
    requires Free(path, '"')
    ensures PathIn(ValueLine(names, path)) == PathIn(TypeLine(names, path)) == Some(path)
  {
    ValueLineParts(names, path);
    ExportPath("export", Inside(names), path);
    TypeLineParts(names, path);
    TypePath(" " + Braced(Inside(names), " ", From(path)));
    ExportPath("export type", Inside(names), path);
  }

  lemma {:induction false} TypePath(rest: string)
    ensures "export" + (" " + ("type" + rest)) == "export type" + rest
  {
  }

  // ── The readers ──

  const VALUES_IN: string -> seq<string> := line => LineExports(line).values
  const TYPES_IN: string -> seq<string> := line => LineExports(line).types
  const STATEMENTS_IN: string -> seq<Statement> := line => StatementIn(line)

  const VALUES_OF: Component -> seq<string> := (c: Component) => c.values
  const TYPES_OF: Component -> seq<string> := (c: Component) => c.types

  /** A component's own statements: one for each list that is not empty, all from its directory. */
  function Stated(c: Component): seq<Statement> {
    (if c.values == [] then [] else [Statement(false, c.values, "./" + c.dirName)])
    + (if c.types == [] then [] else [Statement(true, c.types, "./" + c.dirName)])
  }

  const STATEMENTS_OF: Component -> seq<Statement> := (c: Component) => Stated(c)

  /** The statements of a text, in order. */
  function Statements(text: string): seq<Statement> {
    Read(STATEMENTS_IN, text)
  }

  lemma {:induction false} GatherIsRead(lines: seq<string>)
    ensures Gather(PER_LINE, lines) == Exports(FlatMap(VALUES_IN, lines), FlatMap(TYPES_IN, lines))
  {
    if lines != [] {
      GatherIsRead(lines[..|lines| - 1]);
    }
  }

  /** A component whose exports can be read back. */
  predicate CleanComponent(c: Component) {
    AllClean(c.values) && AllClean(c.types) && Free(c.dirName, '\n')
  }

  predicate CleanComponents(cs: seq<Component>) {
    forall c :: c in cs ==> CleanComponent(c)
  }

  /** A line of text that opens no export. */
  predicate Dull(line: string) {
    Free(line, '\n') && (line == "" || line[0] != 'e')
  }

  /** A reader that finds nothing in such a line. */
  ghost predicate Discerning<T>(f: string -> seq<T>) {
    forall line :: Dull(line) ==> f(line) == []
  }

  lemma {:induction false} NoExport(line: string)
    requires Dull(line)
    ensures LineExports(line) == NOTHING && StatementIn(line) == []
  {
    assert "export"[0] == 'e';
    assert !("export" <= line);
  }

  lemma {:induction false} ReadersAreDiscerning()
    ensures Discerning(VALUES_IN) && Discerning(TYPES_IN) && Discerning(STATEMENTS_IN)
  {
    forall line | Dull(line)
      ensures VALUES_IN(line) == [] && TYPES_IN(line) == [] && STATEMENTS_IN(line) == []
    {
      NoExport(line);
    }
  }

  /** A list's one line, or none. */
  lemma {:induction false} OptionalLine<T>(f: string -> seq<T>, names: seq<string>, line: string)
    ensures FlatMap(f, if names == [] then [] else [line]) == if names == [] then [] else f(line)
  {
    FlatMapOne(f, line);
  }

  lemma {:induction false} ComponentIsRead<T>(f: string -> seq<T>, c: Component, v: seq<T>, t: seq<T>)
    requires c.values != [] ==> f(ValueLine(c.values, "./" + c.dirName)) == v
    requires c.types != [] ==> f(TypeLine(c.types, "./" + c.dirName)) == t
    ensures FlatMap(f, ComponentLines(c)) == (if c.values == [] then [] else v) + (if c.types == [] then [] else t)
  {
    var path := "./" + c.dirName;
    var value, type' := ValueLine(c.values, path), TypeLine(c.types, path);
    OptionalLine(f, c.values, value);
    OptionalLine(f, c.types, type');
    FlatMapConcat(f, if c.values == [] then [] else [value], if c.types == [] then [] else [type']);
  }

  lemma {:induction false} OwnLines(c: Component)
    requires CleanComponent(c)
    ensures forall l :: l in ComponentLines(c) ==> Free(l, '\n')
  {
    var path := "./" + c.dirName;
    if c.values != [] { ListsAreLines(c.values, path); }
    if c.types != [] { ListsAreLines(c.types, path); }
  }

  lemma {:induction false} OwnExports(c: Component)
    requires CleanComponent(c)
    ensures FlatMap(VALUES_IN, ComponentLines(c)) == c.values && FlatMap(TYPES_IN, ComponentLines(c)) == c.types
  {
    var path := "./" + c.dirName;
    if c.values != [] { LinesExport(c.values, path); }
    if c.types != [] { LinesExport(c.types, path); }
    ComponentIsRead(VALUES_IN, c, c.values, []);
    ComponentIsRead(TYPES_IN, c, [], c.types);
  }

  lemma {:induction false} OwnStatements(c: Component)
    requires CleanComponent(c) && Free(c.dirName, '"')
    ensures FlatMap(STATEMENTS_IN, ComponentLines(c)) == Stated(c)
  {
    var path := "./" + c.dirName;
    if c.values != [] { LinesState(c.values, path); }
    if c.types != [] { LinesState(c.types, path); }
    ComponentIsRead(STATEMENTS_IN, c, [Statement(false, c.values, path)], [Statement(true, c.types, path)]);
  }

  lemma {:induction false} ReadLines<T>(f: string -> seq<T>, lines: seq<string>)
    requires forall l :: l in lines ==> Free(l, '\n')
    ensures FlatMap(Reading(f), lines) == FlatMap(f, lines)
  {
    if lines != [] {
      var n := |lines| - 1;
      ReadLines(f, lines[..n]);
      ReadLine(f, lines[n]);
    }
  }

  lemma {:induction false} HeadingIsDull(name: string)
    requires Free(name, '\n')
    ensures Dull(Heading(name))
  {
  }

  lemma {:induction false} ReaderReads<T>(f: string -> seq<T>, own: Component -> seq<T>, cs: seq<Component>)
    requires Discerning(f) && CleanComponents(cs) && forall c :: c in cs ==> FlatMap(f, ComponentLines(c)) == own(c)
    ensures Reads(Reading(f), own, cs)
  {
    assert Dull("");
    ReadLine(f, "");
    forall name | Free(name, '\n')
      ensures Reading(f)(Heading(name)) == []
    {
      HeadingIsDull(name);
      ReadLine(f, Heading(name));
    }
    forall c | c in cs
      ensures FlatMap(Reading(f), ComponentLines(c)) == own(c)
    {
      OwnLines(c);
      ReadLines(f, ComponentLines(c));
    }
  }

  // ── The constants ──

  predicate AllDull(lines: seq<string>) {
    forall i :: 0 <= i < |lines| ==> Dull(lines[i])
  }

  // The long lines of the header, one by one.
  lemma {:induction false} BannerLine1() ensures Dull(BANNER[1]) {}
  lemma {:induction false} BannerLine2() ensures Dull(BANNER[2]) {}
  lemma {:induction false} BannerLine3() ensures Dull(BANNER[3]) {}
  lemma {:induction false} BannerLine4() ensures Dull(BANNER[4]) {}
  lemma {:induction false} BannerLine5() ensures Dull(BANNER[5]) {}
  lemma {:induction false} BannerLine6() ensures Dull(BANNER[6]) {}

  lemma {:induction false} BannerIsDull()
    ensures AllDull(BANNER)
  {
    BannerLine1();
    BannerLine2();
    BannerLine3();
    BannerLine4();
    BannerLine5();
    BannerLine6();
  }

  lemma {:induction false} NoticeLine0() ensures Dull(NOTICE[0]) {}
  lemma {:induction false} NoticeLine2() ensures Dull(NOTICE[2]) {}
  lemma {:induction false} NoticeLine3() ensures Dull(NOTICE[3]) {}
  lemma {:induction false} NoticeLine5() ensures Dull(NOTICE[5]) {}
  lemma {:induction false} NoticeLine6() ensures Dull(NOTICE[6]) {}

  lemma {:induction false} NoticeIsDull()
    ensures AllDull(NOTICE)
  {
    NoticeLine0();
    NoticeLine2();
    NoticeLine3();
    NoticeLine5();
    NoticeLine6();
  }

  lemma {:induction false} DullIsSilent<T>(f: string -> seq<T>, lines: seq<string>)
    requires Discerning(f) && AllDull(lines)
    ensures FlatMap(f, lines) == []
  {
    if lines != [] {
      DullIsSilent(f, lines[..|lines| - 1]);
    }
  }

  /** Nothing is found in the header, although one of its lines shows an import with braces. */
  lemma {:induction false} HeaderIsSilent<T>(f: string -> seq<T>)
    requires Discerning(f)
    ensures Read(f, HEADER) == []
  {
    BannerIsDull();
    NoticeIsDull();
    ReadJoined(f, HEADER_LINES);
    ReadLines(f, HEADER_LINES);
    DullIsSilent(f, HEADER_LINES);
  }

  lemma {:induction false} FormType0() ensures Clean("FormSchemaDefinition") {}
  lemma {:induction false} FormType1() ensures Clean("FormFieldMetaEntry") {}
  lemma {:induction false} FormType2() ensures Clean("FormSectionDef") {}

  lemma {:induction false} FormTypesAreClean()
    ensures AllClean(FORM_TYPES) && FORM_TYPES != []
  {
    FormType0();
    FormType1();
    FormType2();
  }

  lemma {:induction false} Heading0() ensures Free(PHASE_3.name, '\n') {}
  lemma {:induction false} Heading1() ensures Free(DEVICES.name, '\n') {}
  lemma {:induction false} Heading2() ensures Free(FORM_INPUTS.name, '\n') {}
  lemma {:induction false} Heading3() ensures Free(SIDE_PANEL.name, '\n') {}
  lemma {:induction false} Heading4() ensures Free(SCHEMA_DRIVEN, '\n') {}

  lemma {:induction false} SectionHeadingsAreLines()
    ensures (forall s :: s in SECTION_ORDER ==> Free(s.name, '\n')) && Free(SCHEMA_DRIVEN, '\n')
  {
    Heading0();
    Heading1();
    Heading2();
    Heading3();
    Heading4();
  }
}
