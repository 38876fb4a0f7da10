/** The lines the generator ends up with, laid out in one piece. */
module BarrelLayout {
  import opened Text
  import opened Collections
  import opened BarrelPrinter

  const LINES_OF: Component -> seq<string> := (c: Component) => ComponentLines(c)

  /** One section: nothing if none of its components exists, else a blank line, the heading and their lines. */
  function Block(cs: seq<Component>, s: Section): seq<string> {
    var found := FindAll(cs, s.components);
    if found == [] then []
    else ["", "// \U{2500}\U{2500} " + s.name + " \U{2500}\U{2500}"] + FlatMap(LINES_OF, found)
  }

  function BlockOf(cs: seq<Component>): Section -> seq<string> {
    (s: Section) => Block(cs, s)
  }

  /** Header, core components, sections, and what the special case adds; a blank line at the end. */
  function Layout(header: string, sorted: seq<Component>, sections: seq<Section>, formMeta: bool): seq<string> {
    [header, "", "// \U{2500}\U{2500} Core \U{2500}\U{2500}"]
    + FlatMap(LINES_OF, Core(sorted, SectionNames(sections)))
    + FlatMap(BlockOf(sorted), sections)
    + (if formMeta then ["", "// \U{2500}\U{2500} " + SCHEMA_DRIVEN + " \U{2500}\U{2500}", FORM_META_LINE] else [])
    + [""]
  }

  /** Each section opens a heading of its own. */
  ghost predicate NamesDiffer(sections: seq<Section>, open: string) {
    && (forall i :: 0 <= i < |sections| ==> sections[i].name != open)
    && (forall i, j :: 0 <= i < j < |sections| ==> sections[i].name != sections[j].name)
  }

  predicate EndsInText(lines: seq<string>) {
    lines != [] && lines[|lines| - 1] != ""
  }

  lemma {:induction false} ComponentsEndInText(cs: seq<Component>)
    ensures FlatMap(LINES_OF, cs) == [] || EndsInText(FlatMap(LINES_OF, cs))
  {
    if cs != [] {
      var n := |cs| - 1;
      ComponentsEndInText(cs[..n]);
      LinesAreText(cs[n]);
    }
  }

  lemma {:induction false} LinesAreText(c: Component)
    ensures ComponentLines(c) == [] || EndsInText(ComponentLines(c))
  {
  }

  lemma {:induction false} StaysEnded(lines: seq<string>, more: seq<string>)
    requires EndsInText(lines) && (more == [] || EndsInText(more))
    ensures EndsInText(lines + more)
  {
  }

  lemma {:induction false} LinesGrow(lines: seq<string>, cs: seq<Component>, c: Component)
    ensures lines + FlatMap(LINES_OF, cs) + ComponentLines(c) == lines + FlatMap(LINES_OF, cs + [c])
  {
    FlatMapConcat(LINES_OF, cs, [c]);
    FlatMapOne(LINES_OF, c);
  }

  /** The page after core components. */
  function AfterCore(g: Page, cs: seq<Component>): Page {
    Page(g.lines + FlatMap(LINES_OF, cs), g.section)
  }

  lemma {:induction false} CoreGrows(g: Page, cs: seq<Component>, c: Component)
    ensures WithComponent(AfterCore(g, cs), c) == AfterCore(g, cs + [c])
  {
    LinesGrow(g.lines, cs, c);
  }

  lemma {:induction false} NoCore(g: Page, named: seq<string>)
    ensures WithCore(g, [], named) == AfterCore(g, Core([], named))
  {
    assert g.lines + [] == g.lines;
  }

  lemma {:induction false} CoreSkips(g: Page, cs: seq<Component>, named: seq<string>)
    requires cs != [] && cs[|cs| - 1].dirName in named
    ensures WithCore(g, cs, named) == WithCore(g, cs[..|cs| - 1], named)
    ensures Core(cs, named) == Core(cs[..|cs| - 1], named)
  {
  }

  lemma {:induction false} CoreLines(g: Page, cs: seq<Component>, named: seq<string>)
    ensures WithCore(g, cs, named) == AfterCore(g, Core(cs, named))
  {
    if cs == [] {
      NoCore(g, named);
    } else {
      var n := |cs| - 1;
      CoreLines(g, cs[..n], named);
      CoreGrows(g, Core(cs[..n], named), cs[n]);
      if cs[n].dirName in named { CoreSkips(g, cs, named); }
    }
  }

  /** The page after one section. */
  function AfterSection(g: Page, section: string, found: seq<Component>): Page {
    if found == [] then g else Page(g.lines + ["", Heading(section)] + FlatMap(LINES_OF, found), section)
  }

  lemma {:induction false} SectionGrows(g: Page, section: string, found: seq<Component>, c: Component)
    requires g.section != section && EndsInText(g.lines)
    ensures WithComponent(InSection(AfterSection(g, section, found), section), c)
         == AfterSection(g, section, found + [c])
  {
    if found == [] {
      assert [] + [c] == [c];
      FlatMapOne(LINES_OF, c);
      assert g.lines + [""] + [Heading(section)] == g.lines + ["", Heading(section)];
    } else {
      LinesGrow(g.lines + ["", Heading(section)], found, c);
    }
  }

  lemma {:induction false} NamesLines(g: Page, cs: seq<Component>, section: string, names: seq<string>)
    requires g.section != section && EndsInText(g.lines)
    ensures WithNames(g, cs, section, names) == AfterSection(g, section, FindAll(cs, names))
  {
    if names != [] {
      var n := |names| - 1;
      var before, found := FindAll(cs, names[..n]), Find(cs, names[n]);
      NamesLines(g, cs, section, names[..n]);
      FindsName(cs, names[n]);
      if found == [] {
        assert FindAll(cs, names) == before;
      } else {
        assert found == [found[0]];
        SectionGrows(g, section, before, found[0]);
      }
    }
  }

  lemma {:induction false} AfterSectionIsBlock(g: Page, cs: seq<Component>, s: Section)
    requires EndsInText(g.lines)
    ensures AfterSection(g, s.name, FindAll(cs, s.components)).lines == g.lines + Block(cs, s)
    ensures EndsInText(g.lines + Block(cs, s))
  {
    var found := FindAll(cs, s.components);
    ComponentsEndInText(found);
    if found != [] {
      StaysEnded(g.lines + ["", Heading(s.name)], FlatMap(LINES_OF, found));
      assert g.lines + Block(cs, s) == g.lines + ["", Heading(s.name)] + FlatMap(LINES_OF, found);
    }
  }

  /** The page after some sections: one of them is open, or none has been written. */
  ghost predicate IsAfter(g: Page, p: Page, cs: seq<Component>, sections: seq<Section>) {
    && p.lines == g.lines + FlatMap(BlockOf(cs), sections) && EndsInText(p.lines)
    && (p.section == g.section || exists i :: 0 <= i < |sections| && sections[i].name == p.section)
  }

  lemma {:induction false} NextIsNotOpen(g: Page, p: Page, cs: seq<Component>, sections: seq<Section>)
    requires sections != [] && NamesDiffer(sections, g.section) && IsAfter(g, p, cs, sections[..|sections| - 1])
    ensures p.section != sections[|sections| - 1].name
  {
    var front := sections[..|sections| - 1];
    if i :| 0 <= i < |front| && front[i].name == p.section {
      assert sections[i] == front[i];
    }
  }

  lemma {:induction false} BlocksGrow(lines: seq<string>, cs: seq<Component>, sections: seq<Section>)
    requires sections != []
    ensures lines + FlatMap(BlockOf(cs), sections)
         == lines + FlatMap(BlockOf(cs), sections[..|sections| - 1]) + Block(cs, sections[|sections| - 1])
  {
  }

  lemma {:induction false} OpenSection(g: Page, p: Page, q: Page, sections: seq<Section>)
    requires sections != [] && (q.section == p.section || q.section == sections[|sections| - 1].name)
    requires var front := sections[..|sections| - 1];
             p.section == g.section || exists i :: 0 <= i < |front| && front[i].name == p.section
    ensures q.section == g.section || exists i :: 0 <= i < |sections| && sections[i].name == q.section
  {
    var front := sections[..|sections| - 1];
    if i :| 0 <= i < |front| && front[i].name == p.section {
      assert sections[i] == front[i];
    }
  }

  lemma {:induction false} NextSection(g: Page, p: Page, cs: seq<Component>, sections: seq<Section>)
    requires sections != [] && IsAfter(g, p, cs, sections[..|sections| - 1])
    ensures var s := sections[|sections| - 1];
            IsAfter(g, AfterSection(p, s.name, FindAll(cs, s.components)), cs, sections)
  {
    var s := sections[|sections| - 1];
    AfterSectionIsBlock(p, cs, s);
    BlocksGrow(g.lines, cs, sections);
    OpenSection(g, p, AfterSection(p, s.name, FindAll(cs, s.components)), sections);
  }

  lemma {:induction false} SectionsLines(g: Page, cs: seq<Component>, sections: seq<Section>)
    requires EndsInText(g.lines) && NamesDiffer(sections, g.section)
    ensures IsAfter(g, WithSections(g, cs, sections), cs, sections)
  {
    if sections == [] {
      assert g.lines + [] == g.lines;
    } else {
      var n := |sections| - 1;
      var p := WithSections(g, cs, sections[..n]);
      SectionsLines(g, cs, sections[..n]);
      NextIsNotOpen(g, p, cs, sections);
      NextSection(g, p, cs, sections);
      NamesLines(p, cs, sections[n].name, sections[n].components);
    }
  }

  lemma {:induction false} BodyLines(header: string, sorted: seq<Component>, sections: seq<Section>)
    requires NamesDiffer(sections, "Core")
    ensures var lines := Body(header, sorted, sections).lines;
            && lines == [header, "", Heading("Core")] + FlatMap(LINES_OF, Core(sorted, SectionNames(sections)))
                        + FlatMap(BlockOf(sorted), sections)
            && EndsInText(lines)
  {
    var named := SectionNames(sections);
    var g := Page([header, "", Heading("Core")], "Core");
    assert InSection(Page([header, ""], ""), "Core") == g;
    CoreLines(g, sorted, named);
    ComponentsEndInText(Core(sorted, named));
    StaysEnded(g.lines, FlatMap(LINES_OF, Core(sorted, named)));
    SectionsLines(WithCore(g, sorted, named), sorted, sections);
  }

  lemma {:induction false} FinishedLines(lines: seq<string>, formMeta: bool)
    requires EndsInText(lines)
    ensures Finished(lines, formMeta)
         == lines + (if formMeta then ["", Heading(SCHEMA_DRIVEN), FORM_META_LINE] else []) + [""]
  {
    if formMeta {
      assert WithBlock(lines, SCHEMA_DRIVEN, FORM_META_LINE)
          == lines + ["", Heading(SCHEMA_DRIVEN), FORM_META_LINE];
      assert FORM_META_LINE != "";
    } else {
      assert lines + [] + [""] == lines + [""];
    }
  }

  /** The generator's lines are the layout, when no two sections share a name. */
  lemma {:induction false} BarrelIsLaidOut(header: string, cs: seq<Component>, le: Order, sections: seq<Section>)
    requires NamesDiffer(sections, "Core")
    ensures Barrel(header, cs, le, sections)
         == Join(Layout(header, Sorted(cs, le), sections, HasFormMeta(Sorted(cs, le))), "\n")
  {
    var sorted := Sorted(cs, le);
    BodyLines(header, sorted, sections);
    FinishedLines(Body(header, sorted, sections).lines, HasFormMeta(sorted));
    LayoutParts(header, sorted, sections, HasFormMeta(sorted));
  }

  lemma {:induction false} FirstNames()
    ensures PHASE_3.name[..2] == "Ph" && DEVICES.name[..2] == "De" && FORM_INPUTS.name[..2] == "Sp"
  {
  }

  lemma {:induction false} LastNames()
    ensures SIDE_PANEL.name[..2] == "Ri" && |SCHEMA_FORMS.name| >= 2 && SCHEMA_FORMS.name[..2] == "Sc"
  {
    assert SCHEMA_FORMS.name[..2] == "Schema-driven form "[..2];
  }

  lemma {:induction false} StartsDiffer(sections: seq<Section>, starts: seq<string>, open: string)
    requires |sections| == |starts| && |open| >= 2
    requires forall i :: 0 <= i < |starts| ==>
               |sections[i].name| >= 2 && sections[i].name[..2] == starts[i] != open[..2]
    requires forall i, j :: 0 <= i < j < |starts| ==> starts[i] != starts[j]
    ensures NamesDiffer(sections, open)
  {
  }

  lemma {:induction false} SectionNamesDiffer()
    ensures NamesDiffer(SECTION_ORDER, "Core")
  {
    FirstNames();
    LastNames();
    assert "Core"[..2] == "Co";
    StartsDiffer(SECTION_ORDER, ["Ph", "De", "Sp", "Ri", "Sc"], "Core");
  }

  // ── Reading the layout ──

  /** What a reader finds in a text, line by line. */
  function Read<T>(f: string -> seq<T>, text: string): seq<T> {
    FlatMap(f, Split(text, '\n'))
  }

  function Reading<T>(f: string -> seq<T>): string -> seq<T> {
    text => Read(f, text)
  }

  lemma {:induction false} ReadLine<T>(f: string -> seq<T>, line: string)
    requires Free(line, '\n')
    ensures Read(f, line) == f(line)
  {
    SplitFree(line, '\n');
    FlatMapOne(f, line);
  }

  lemma {:induction false} ReadTwo<T>(f: string -> seq<T>, a: string, b: string)
    ensures Read(f, a + "\n" + b) == Read(f, a) + Read(f, b)
  {
    SplitAt(a, b, '\n');
    FlatMapConcat(f, Split(a, '\n'), Split(b, '\n'));
  }

  lemma {:induction false} ReadJoined<T>(f: string -> seq<T>, lines: seq<string>)
    requires lines != []
    ensures Read(f, Join(lines, "\n")) == FlatMap(Reading(f), lines)
  {
    FlatMapOne(Reading(f), lines[0]);
    if |lines| == 1 {
      assert lines == [lines[0]];
    } else {
      ReadJoined(f, lines[1..]);
      ReadTwo(f, lines[0], Join(lines[1..], "\n"));
      FlatMapConcat(Reading(f), [lines[0]], lines[1..]);
      assert lines == [lines[0]] + lines[1..];
    }
  }

  /** The reader finds nothing in headings and blank lines, and in a component's lines what `own` says. */
  ghost predicate Reads<T>(f: string -> seq<T>, own: Component -> seq<T>, cs: seq<Component>) {
    && f("") == []
    && (forall name :: Free(name, '\n') ==> f(Heading(name)) == [])
    && (forall c :: c in cs ==> FlatMap(f, ComponentLines(c)) == own(c))
  }

  lemma {:induction false} ComponentsAreRead<T>(
    f: string -> seq<T>, own: Component -> seq<T>, cs: seq<Component>, ds: seq<Component>)
    requires Reads(f, own, cs) && forall d :: d in ds ==> d in cs
    ensures FlatMap(f, FlatMap(LINES_OF, ds)) == FlatMap(own, ds)
  {
    if ds != [] {
      var n := |ds| - 1;
      ComponentsAreRead(f, own, cs, ds[..n]);
      FlatMapConcat(f, FlatMap(LINES_OF, ds[..n]), ComponentLines(ds[n]));
    }
  }

  lemma {:induction false} TwoSilent<T>(f: string -> seq<T>, a: string, b: string)
    requires f(a) == [] && f(b) == []
    ensures FlatMap(f, [a, b]) == []
  {
    assert [a, b][..1] == [a];
    FlatMapOne(f, a);
  }

  lemma {:induction false} FoundAreComponents(cs: seq<Component>, names: seq<string>)
    ensures forall d :: d in FindAll(cs, names) ==> d in cs
  {
    if names != [] {
      FoundAreComponents(cs, names[..|names| - 1]);
      FindsName(cs, names[|names| - 1]);
    }
  }

  lemma {:induction false} BlockIsRead<T>(
    f: string -> seq<T>, own: Component -> seq<T>, cs: seq<Component>, s: Section)
    requires Reads(f, own, cs) && Free(s.name, '\n')
    ensures FlatMap(f, Block(cs, s)) == FlatMap(own, FindAll(cs, s.components))
  {
    var found := FindAll(cs, s.components);
    if found != [] {
      FoundAreComponents(cs, s.components);
      ComponentsAreRead(f, own, cs, found);
      TwoSilent(f, "", Heading(s.name));
      FlatMapConcat(f, ["", Heading(s.name)], FlatMap(LINES_OF, found));
    }
  }

  lemma {:induction false} BlocksAreRead<T>(
    f: string -> seq<T>, own: Component -> seq<T>, cs: seq<Component>, sections: seq<Section>)
    requires Reads(f, own, cs) && forall s :: s in sections ==> Free(s.name, '\n')
    ensures FlatMap(f, FlatMap(BlockOf(cs), sections)) == FlatMap(own, FindAll(cs, SectionNames(sections)))
  {
    if sections != [] {
      var n := |sections| - 1;
      var front := sections[..n];
      BlocksAreRead(f, own, cs, front);
      BlockIsRead(f, own, cs, sections[n]);
      FlatMapConcat(f, FlatMap(BlockOf(cs), front), Block(cs, sections[n]));
      FindAllConcat(cs, SectionNames(front), sections[n].components);
      FlatMapConcat(own, FindAll(cs, SectionNames(front)), FindAll(cs, sections[n].components));
    }
  }

  lemma {:induction false} CoreAreComponents(cs: seq<Component>, named: seq<string>)
    ensures forall d :: d in Core(cs, named) ==> d in cs
  {
    forall d | d in Core(cs, named)
      ensures d in cs
    {
      CoreHas(cs, named, d);
    }
  }

  lemma {:induction false} SpecialIsRead<T>(f: string -> seq<T>)
    requires f("") == [] && f(Heading(SCHEMA_DRIVEN)) == []
    ensures FlatMap(f, ["", Heading(SCHEMA_DRIVEN), FORM_META_LINE]) == f(FORM_META_LINE)
  {
    TwoSilent(f, "", Heading(SCHEMA_DRIVEN));
    FlatMapOne(f, FORM_META_LINE);
    FlatMapConcat(f, ["", Heading(SCHEMA_DRIVEN)], [FORM_META_LINE]);
    assert ["", Heading(SCHEMA_DRIVEN)] + [FORM_META_LINE] == ["", Heading(SCHEMA_DRIVEN), FORM_META_LINE];
  }

  lemma {:induction false} OpeningIsRead<T>(f: string -> seq<T>, header: string)
    requires f(header) == [] && f("") == [] && f(Heading("Core")) == []
    ensures FlatMap(f, [header, "", Heading("Core")]) == []
  {
    TwoSilent(f, header, "");
    FlatMapOne(f, Heading("Core"));
    FlatMapConcat(f, [header, ""], [Heading("Core")]);
    assert [header, ""] + [Heading("Core")] == [header, "", Heading("Core")];
  }

  lemma {:induction false} PartsAreRead<T>(
    f: string -> seq<T>, a: seq<string>, b: seq<string>, c: seq<string>, d: seq<string>, e: seq<string>)
    requires FlatMap(f, a) == []
    ensures FlatMap(f, a + b + c + d + e) == (FlatMap(f, b) + FlatMap(f, c)) + (FlatMap(f, d) + FlatMap(f, e))
  {
    FlatMapConcat(f, a + b + c + d, e);
    FlatMapConcat(f, a + b + c, d);
    FlatMapConcat(f, a + b, c);
    FlatMapConcat(f, a, b);
  }

  lemma {:induction false} SpecialPartIsRead<T>(f: string -> seq<T>, formMeta: bool)
    requires f("") == [] && f(Heading(SCHEMA_DRIVEN)) == []
    ensures var part := if formMeta then ["", Heading(SCHEMA_DRIVEN), FORM_META_LINE] else [];
            FlatMap(f, part) + FlatMap(f, [""]) == if formMeta then f(FORM_META_LINE) else []
  {
    SpecialIsRead(f);
    FlatMapOne(f, "");
  }

  lemma {:induction false} MiddleIsRead<T>(
    f: string -> seq<T>, own: Component -> seq<T>, cs: seq<Component>, sections: seq<Section>)
    requires Reads(f, own, cs) && forall s :: s in sections ==> Free(s.name, '\n')
    ensures FlatMap(f, FlatMap(LINES_OF, Core(cs, SectionNames(sections)))) + FlatMap(f, FlatMap(BlockOf(cs), sections))
         == FlatMap(own, Emission(cs, sections))
  {
    var named := SectionNames(sections);
    CoreAreComponents(cs, named);
    ComponentsAreRead(f, own, cs, Core(cs, named));
    BlocksAreRead(f, own, cs, sections);
    FlatMapConcat(own, Core(cs, named), FindAll(cs, named));
  }

  /** A reader finds in the layout what it finds in the components, in the order they are written. */
  lemma {:induction false} LayoutIsRead<T>(
    f: string -> seq<T>, own: Component -> seq<T>,
    header: string, cs: seq<Component>, sections: seq<Section>, formMeta: bool)
    requires Reads(f, own, cs) && f(header) == []
    requires Free(SCHEMA_DRIVEN, '\n') && forall s :: s in sections ==> Free(s.name, '\n')
    ensures FlatMap(f, Layout(header, cs, sections, formMeta))
         == FlatMap(own, Emission(cs, sections)) + if formMeta then f(FORM_META_LINE) else []
  {
    var opening, core := [header, "", Heading("Core")], FlatMap(LINES_OF, Core(cs, SectionNames(sections)));
    var blocks := FlatMap(BlockOf(cs), sections);
    var special := if formMeta then ["", Heading(SCHEMA_DRIVEN), FORM_META_LINE] else [];
    CoreIsLine();
    LayoutParts(header, cs, sections, formMeta);
    OpeningIsRead(f, header);
    PartsAreRead(f, opening, core, blocks, special, [""]);
    MiddleIsRead(f, own, cs, sections);
    SpecialPartIsRead(f, formMeta);
  }

  lemma {:induction false} LayoutParts(header: string, cs: seq<Component>, sections: seq<Section>, formMeta: bool)
    ensures Layout(header, cs, sections, formMeta)
         == [header, "", Heading("Core")] + FlatMap(LINES_OF, Core(cs, SectionNames(sections)))
            + FlatMap(BlockOf(cs), sections)
            + (if formMeta then ["", Heading(SCHEMA_DRIVEN), FORM_META_LINE] else []) + [""]
  {
    CoreIsLine();
  }

  lemma {:induction false} CoreIsLine()
    ensures Free("Core", '\n')
    ensures Heading("Core") == "// \U{2500}\U{2500} Core \U{2500}\U{2500}"
  {
  }
}
