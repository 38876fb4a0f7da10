/**
 Reading a barrel file: which names its `export { … } from` lines export.
 The regular expressions of the script are written out as the matches they make.
 */
module BarrelParser {
  import opened Wrappers
  import opened Text

  /** White space as JavaScript's `\s` and `trim` see it. */
  predicate IsSpace(c: char) {
    || '\t' <= c <= '\r' || c == ' ' || c == '\U{A0}' || c == '\U{1680}' || '\U{2000}' <= c <= '\U{200A}'
    || c == '\U{2028}' || c == '\U{2029}' || c == '\U{202F}' || c == '\U{205F}' || c == '\U{3000}' || c == '\U{FEFF}'
  }

  /** What `.` does not match. */
  predicate EndsLine(c: char) {
    c == '\n' || c == '\r' || c == '\U{2028}' || c == '\U{2029}'
  }

  const SPACE: char -> bool := c => IsSpace(c)

  predicate OneLine(s: string) {
    forall c :: c in s ==> !EndsLine(c)
  }

  // ── One clause: "Foo", "Foo as Bar", "type Foo" ──

  datatype Clause = Clause(name: string, isType: bool)

  /** What `\s+as\s+(.+)$` captures at the start of `s`. */
  function AliasHere(s: string): Option<string> {
    var i := SpaceRun(s, SPACE);
    if i == 0 || !("as" <= s[i..]) then None
    else
      var rest := s[i + 2..];
      var j := SpaceRun(rest, SPACE);
      if j == 0 || j == |rest| || !OneLine(rest[j..]) then None else Some(rest[j..])
  }

  /** The alias of the shortest first part of length `i` or more, as the lazy `^(.+?)` tries them. */
  function Alias(s: string, i: nat): Option<string>
    requires 1 <= i
    decreases |s| - i
  {
    if i >= |s| || !OneLine(s[..i]) then None
    else if AliasHere(s[i..]).Some? then AliasHere(s[i..])
    else Alias(s, i + 1)
  }

  function ExtractExportName(clause: string): Clause {
    var trimmed := Trim(clause, SPACE);
    var isType := "type " <= trimmed;
    var working := if isType then Trim(trimmed[5..], SPACE) else trimmed;
    match Alias(working, 1)
    case Some(name) => Clause(Trim(name, SPACE), isType)
    case None => Clause(working, isType)
  }

  function Clauses(body: string): seq<Clause> {
    var pieces := Split(body, ',');
    seq(|pieces|, i requires 0 <= i < |pieces| => ExtractExportName(pieces[i]))
  }

  // ── One line ──

  /** The position of the first closing brace, or the length. */
  function Closing(s: string): (i: nat)
    ensures i <= |s|
    ensures i < |s| ==> s[i] == '}'
    ensures '}' !in s[..i]
  {
    if s == "" || s[0] == '}' then 0
    else
      var i := 1 + Closing(s[1..]);
      assert s[..i] == [s[0]] + s[1..][..i - 1];
      i
  }

  /** The captured text of `\{([^}]+)\}\s+from` at the start of `s`. */
  function Braces(s: string): Option<string> {
    if s == "" || s[0] != '{' then None
    else
      var n := Closing(s[1..]);
      if n == 0 || 1 + n == |s| then None
      else
        var rest := s[n + 2..];
        if SpaceRun(rest, SPACE) > 0 && "from" <= rest[SpaceRun(rest, SPACE)..] then Some(s[1..n + 1]) else None
  }

  /** What follows `word\s+` at the start of `s`. */
  function Past(s: string, word: string): Option<string> {
    if !(word <= s) || SpaceRun(s[|word|..], SPACE) == 0 then None else Some(s[|word| + SpaceRun(s[|word|..], SPACE)..])
  }

  function MatchTypeExport(line: string): Option<string> {
    match Past(line, "export")
    case None => None
    case Some(rest) =>
      match Past(rest, "type") { case None => None case Some(rest') => Braces(rest') }
  }

  function MatchValueExport(line: string): Option<string> {
    match Past(line, "export") { case None => None case Some(rest) => Braces(rest) }
  }

  datatype Exports = Exports(values: seq<string>, types: seq<string>)

  function Both(a: Exports, b: Exports): Exports {
    Exports(a.values + b.values, a.types + b.types)
  }

  const NOTHING := Exports([], [])

  function AllNames(cs: seq<Clause>): seq<string> {
    seq(|cs|, i requires 0 <= i < |cs| => cs[i].name)
  }

  function NamesWhere(cs: seq<Clause>, isType: bool): seq<string> {
    if cs == [] then []
    else NamesWhere(cs[..|cs| - 1], isType) + if cs[|cs| - 1].isType == isType then [cs[|cs| - 1].name] else []
  }

  predicate Kept(line: string) {
    var trimmed := Trim(line, SPACE);
    trimmed != "" && !("//" <= trimmed)
  }

  function LineExports(line: string): Exports {
    if !Kept(line) then NOTHING
    else if MatchTypeExport(line).Some? then TypeClauses(Clauses(MatchTypeExport(line).value))
    else if MatchValueExport(line).Some? then MixedClauses(Clauses(MatchValueExport(line).value))
    else NOTHING
  }

  function TypeClauses(cs: seq<Clause>): Exports {
    Exports([], AllNames(cs))
  }

  function MixedClauses(cs: seq<Clause>): Exports {
    Exports(NamesWhere(cs, false), NamesWhere(cs, true))
  }

  /** The lines' exports, one after the other. */
  function Gather(f: string -> Exports, lines: seq<string>): Exports {
    if lines == [] then NOTHING else Both(Gather(f, lines[..|lines| - 1]), f(lines[|lines| - 1]))
  }

  const PER_LINE: string -> Exports := line => LineExports(line)

  /** The exports of a barrel file. */
  function Exported(source: string): Exports {
    Gather(PER_LINE, Split(source, '\n'))
  }

  /** Pushes the clauses of one brace list, telling types from values. */
  method PushClauses(clauses: seq<Clause>, values: seq<string>, types: seq<string>)
    returns (values': seq<string>, types': seq<string>)
    ensures values' == values + NamesWhere(clauses, false)
    ensures types' == types + NamesWhere(clauses, true)
  {
    values', types' := values, types;
    for c := 0 to |clauses|
      invariant values' == values + NamesWhere(clauses[..c], false)
      invariant types' == types + NamesWhere(clauses[..c], true)
    {
      assert clauses[..c + 1][..c] == clauses[..c];
      if clauses[c].isType {
        types' := types' + [clauses[c].name];
      } else {
        values' := values' + [clauses[c].name];
      }
    }
    assert clauses[..|clauses|] == clauses;
  }

  /** The body of the parser's loop. */
  method ParseLine(line: string, values: seq<string>, types: seq<string>)
    returns (values': seq<string>, types': seq<string>)
    ensures Exports(values', types') == Both(Exports(values, types), LineExports(line))
  {
    values', types' := values, types;
    assert Both(Exports(values, types), NOTHING) == Exports(values, types);
    if !Kept(line) { return; }
    var typeMatch := MatchTypeExport(line);
    if typeMatch.Some? {
      types' := types + AllNames(Clauses(typeMatch.value));
      return;
    }
    var valueMatch := MatchValueExport(line);
    if valueMatch.Some? {
      values', types' := PushClauses(Clauses(valueMatch.value), values, types);
    }
  }

  /** The parser's loop over the lines. */
  method ParseBarrelExports(source: string) returns (values: seq<string>, types: seq<string>)
    ensures Exports(values, types) == Exported(source)
  {
    values, types := [], [];
    var lines := Split(source, '\n');
    for l := 0 to |lines|
      invariant Exports(values, types) == Gather(PER_LINE, lines[..l])
    {
      assert lines[..l + 1][..l] == lines[..l];
      values, types := ParseLine(lines[l], values, types);
    }
    assert lines[..|lines|] == lines;
  }

  // ── Lines put together ──

  lemma {:induction false} GatherConcat(f: string -> Exports, a: seq<string>, b: seq<string>)
    ensures Gather(f, a + b) == Both(Gather(f, a), Gather(f, b))
  {
    if b == [] {
      assert a + b == a;
    } else {
      GatherConcat(f, a, b[..|b| - 1]);
      assert (a + b)[..|a + b| - 1] == a + b[..|b| - 1];
    }
  }

  /** Text made of two parts on separate lines exports what the parts export. */
  lemma {:induction false} ExportedConcat(a: string, b: string)
    ensures Exported(a + "\n" + b) == Both(Exported(a), Exported(b))
  {
    SplitAt(a, b, '\n');
    GatherConcat(PER_LINE, Split(a, '\n'), Split(b, '\n'));
  }

  lemma {:induction false} ExportedLine(line: string)
    requires Free(line, '\n')
    ensures Exported(line) == LineExports(line)
  {
    SplitFree(line, '\n');
    assert [line][..0] == [];
    assert Gather(PER_LINE, [line][..0]) == NOTHING;
  }

  // ── A clean name in a clause ──

  /** A name the round trip holds for: no white space, comma or closing brace. */
  predicate Clean(name: string) {
    NoSpace(name, SPACE) && Free(name, ',') && Free(name, '}')
  }

  lemma {:induction false} CleanNameHasNoAlias(s: string, i: nat)
    requires NoSpace(s, SPACE) && 1 <= i
    ensures Alias(s, i) == None
    decreases |s| - i
  {
    if i < |s| {
      assert SPACE(s[i]) == IsSpace(s[i]) && s[i] in s;
      assert SpaceRun(s[i..], SPACE) == 0;
      CleanNameHasNoAlias(s, i + 1);
    }
  }

  lemma {:induction false} CleanNameIsNoType(name: string)
    requires NoSpace(name, SPACE)
    ensures !("type " <= name)
  {
    assert "type "[4] == ' ' && SPACE(' ');
  }

  lemma {:induction false} CleanClause(clause: string, name: string)
    requires Clean(name) && Trim(clause, SPACE) == name
    ensures ExtractExportName(clause) == Clause(name, false)
  {
    CleanNameIsNoType(name);
    CleanNameHasNoAlias(name, 1);
  }

  lemma {:induction false} PaddedNameIsExtracted(before: string, name: string, after: string)
    requires Clean(name) && AllSpace(before, SPACE) && AllSpace(after, SPACE)
    ensures ExtractExportName(before + name + after) == Clause(name, false)
  {
    assert name != "" ==> name[0] in name && name[|name| - 1] in name;
    TrimPadded(before, name, after, SPACE);
    CleanClause(before + name + after, name);
  }

  // ── Aliases and inline types ──

  /** The text ` as b`, for any white space. */
  function As(gap: string, gap': string, b: string): string {
    gap + ("as" + (gap' + b))
  }

  lemma {:induction false} AsIsAlias(gap: string, gap': string, b: string)
    requires gap != "" && gap' != "" && AllSpace(gap, SPACE) && AllSpace(gap', SPACE)
    requires b != "" && NoSpace(b, SPACE)
    ensures AliasHere(As(gap, gap', b)) == Some(b)
  {
    var s := As(gap, gap', b);
    assert ("as" + (gap' + b))[0] == 'a';
    SpaceRunOf(gap, "as" + (gap' + b), SPACE);
    assert s[|gap|..] == "as" + (gap' + b);
    assert s[|gap| + 2..] == gap' + b;
    assert b[0] in b && !SPACE(b[0]);
    SpaceRunOf(gap', b, SPACE);
    assert (gap' + b)[|gap'|..] == b;
    SpacelessIsOneLine(b);
  }

  lemma {:induction false} SpacelessIsOneLine(s: string)
    requires NoSpace(s, SPACE)
    ensures OneLine(s)
  {
    forall c | c in s
      ensures !EndsLine(c)
    {
      assert !SPACE(c);
    }
  }

  lemma {:induction false} AliasHits(s: string, i: nat)
    requires 1 <= i < |s| && OneLine(s[..i]) && AliasHere(s[i..]).Some?
    ensures Alias(s, i) == AliasHere(s[i..])
  {
  }

  lemma {:induction false} AliasMisses(s: string, i: nat)
    requires 1 <= i < |s| && OneLine(s[..i]) && !IsSpace(s[i])
    ensures Alias(s, i) == Alias(s, i + 1)
  {
    assert SPACE(s[i]) == IsSpace(s[i]);
    assert SpaceRun(s[i..], SPACE) == 0;
  }

  /** The lazy first part stops at the first white space. */
  lemma {:induction false} AliasAfter(a: string, rest: string, i: nat)
    requires NoSpace(a, SPACE) && 1 <= i <= |a| && AliasHere(rest).Some? && rest != ""
    ensures Alias(a + rest, i) == AliasHere(rest)
    decreases |a| - i
  {
    var s := a + rest;
    assert s[..i] == a[..i];
    SpacelessIsOneLine(a);
    if i == |a| {
      assert s[i..] == rest;
      AliasHits(s, i);
    } else {
      assert s[i] == a[i] && a[i] in a && !SPACE(a[i]);
      AliasMisses(s, i);
      AliasAfter(a, rest, i + 1);
    }
  }

  lemma {:induction false} SpacelessIsTrimmed(s: string)
    requires s != "" && NoSpace(s, SPACE)
    ensures Trim(s, SPACE) == s && !SPACE(s[0]) && !SPACE(s[|s| - 1])
  {
    assert s[0] in s && s[|s| - 1] in s;
    assert "" + s + "" == s;
    TrimPadded("", s, "", SPACE);
  }

  /** An aliased clause exports its alias. */
  lemma {:induction false} AliasIsExported(
    before: string, a: string, gap: string, gap': string, b: string, after: string)
    requires AllSpace(before, SPACE) && AllSpace(after, SPACE)
    requires gap != "" && gap' != "" && AllSpace(gap, SPACE) && AllSpace(gap', SPACE)
    requires a != "" && b != "" && NoSpace(a, SPACE) && NoSpace(b, SPACE) && a != "type"
    ensures ExtractExportName(before + (a + As(gap, gap', b)) + after) == Clause(b, false)
  {
    var rest := As(gap, gap', b);
    SpacelessIsTrimmed(a);
    SpacelessIsTrimmed(b);
    AsEnds(gap, gap', b);
    TrimPadded(before, a + rest, after, SPACE);
    if "type " <= a + rest { TypePrefix(a, rest); }
    AsIsAlias(gap, gap', b);
    AliasAfter(a, rest, 1);
    AliasedClause(before + (a + rest) + after, a + rest, b);
  }

  lemma {:induction false} AsEnds(gap: string, gap': string, b: string)
    requires gap != "" && b != "" && AllSpace(gap, SPACE)
    ensures var s := As(gap, gap', b);
            s != "" && SPACE(s[0]) && s[|s| - 1] == b[|b| - 1]
  {
    assert gap[0] in gap;
  }

  lemma {:induction false} AliasedClause(clause: string, s: string, b: string)
    requires Trim(clause, SPACE) == s && !("type " <= s) && Alias(s, 1) == Some(b) && Trim(b, SPACE) == b
    ensures ExtractExportName(clause) == Clause(b, false)
  {
  }

  lemma {:induction false} TypePrefix(a: string, rest: string)
    requires NoSpace(a, SPACE) && rest != "" && SPACE(rest[0]) && "type " <= a + rest
    ensures a == "type"
  {
    var s := a + rest;
    assert forall i :: 0 <= i < |a| ==> s[i] == a[i] && a[i] in a;
    assert s[|a|] == rest[0];
    assert SPACE(' ') && !SPACE('t') && !SPACE('y') && !SPACE('p') && !SPACE('e');
    assert s[..5] == "type ";
    assert s[4] == ' ';
    assert a == s[..|a|];
  }

  lemma {:induction false} TypedClause(clause: string, rest: string, name: string)
    requires Trim(clause, SPACE) == "type " + rest && Trim(rest, SPACE) == name && NoSpace(name, SPACE)
    ensures ExtractExportName(clause) == Clause(name, true)
  {
    assert ("type " + rest)[5..] == rest;
    assert "type " <= "type " + rest;
    CleanNameHasNoAlias(name, 1);
  }

  /** A clause marked `type` exports its name as a type. */
  lemma {:induction false} InlineTypeIsExported(before: string, gap: string, name: string, after: string)
    requires AllSpace(before, SPACE) && AllSpace(gap, SPACE) && AllSpace(after, SPACE)
    requires name != "" && NoSpace(name, SPACE)
    ensures ExtractExportName(before + ("type " + (gap + name)) + after) == Clause(name, true)
  {
    var s := "type " + (gap + name);
    assert name[0] in name && name[|name| - 1] in name;
    assert s[0] == 't' && !SPACE('t') && s[|s| - 1] == name[|name| - 1];
    TrimPadded(before, s, after, SPACE);
    TrimPadded(gap, name, "", SPACE);
    assert gap + name + "" == gap + name;
    TypedClause(before + s + after, gap + name, name);
  }
}
