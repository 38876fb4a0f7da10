/** Writing the barrel file: sorted components, section by section. */
module BarrelPrinter {
  import opened Text

  datatype Component = Component(dirName: string, values: seq<string>, types: seq<string>)

  datatype Section = Section(name: string, components: seq<string>)

  const SCHEMA_DRIVEN := "Schema-driven form " + "infrastructure"

  const PHASE_3_FIRST :=
    ["callout", "page-error", "data-boundary", "tinted-icon-tile", "animated-placeholder", "info"]

  const PHASE_3_REST :=
    ["pill", "tag", "animated-button", "overflowing-text-with-tooltip", "circular-progress-bar"]

  const PHASE_3 := Section("Phase 3+ molecules", PHASE_3_FIRST + PHASE_3_REST)

  const DEVICES_FIRST :=
    ["storage-gauge", "dot", "device-status-badge", "device-health-card", "activity-timeline"]

  const DEVICES_REST :=
    ["timeline", "avatar-group", "calendar-month", "view-bar"]

  const DEVICES := Section("Device management molecules", DEVICES_FIRST + DEVICES_REST)

  const FORM_INPUTS := Section(
    "Specialized form inputs",
    ["ip-input", "port-input", "ip-port-input", "expiry-picker", "permission-multiselect"])

  const SIDE_PANEL := Section("Right side panel", ["side-panel"])

  const SCHEMA_FORMS := Section(SCHEMA_DRIVEN, ["schema-driven"])

  const SECTION_ORDER: seq<Section> := [PHASE_3, DEVICES, FORM_INPUTS, SIDE_PANEL, SCHEMA_FORMS]

  /** The name in letters. */
  const BANNER: seq<string> := [
    "/*",
    " *  _   _               " + " _                     ",
    " * | |_(_)_ __ ___   __" + "_| | _____  ___ _ __   ",
    " * | __| | '_ ` _ \\ / _" + " \\ |/ / _ \\/ _ \\ '_ \\  ",
    " * | |_| | | | | | |  _" + "_/   <  __/  __/ |_) | ",
    " *  \\__|_|_| |_| |_|\\__" + "_|_|\\_\\___|\\___| .__/  ",
    " *                     " + "               |_|     ",
    " *"]

  /** The notice below it. */
  const NOTICE: seq<string> := [
    " * timekeep - " + "UI Component Library",
    " *",
    " * \U{26A0}\U{FE0F}  AUTO-GENERATED by " + "scripts/generate-ui-barrel.ts",
    " *    Do not edit directly. " + "Run `pnpm generate-ui-barrel` " + "to regenerate.",
    " *",
    " * Barrel file. " + "Every component exposes " + "its public API via " + "its own index.ts.",
    " * Import like: " + "import { Button, Card } " + "from \"@/components/ui\";",
    " */"]

  const HEADER_LINES := BANNER + NOTICE

  const HEADER := Join(HEADER_LINES, "\n")

  const FORM_TYPES := ["FormSchemaDefinition", "FormFieldMetaEntry", "FormSectionDef"]

  // ── Sorting ──

  type Order = (string, string) -> bool

  ghost predicate Total(le: Order) {
    && (forall a, b :: le(a, b) || le(b, a))
    && (forall a, b :: le(a, b) && le(b, a) ==> a == b)
    && (forall a, b, c :: le(a, b) && le(b, c) ==> le(a, c))
  }

  function Insert(c: Component, cs: seq<Component>, le: Order): seq<Component> {
    if cs == [] || le(c.dirName, cs[0].dirName) then [c] + cs else [cs[0]] + Insert(c, cs[1..], le)
  }

  /** The components by directory name; equal names keep their order. */
  function Sorted(cs: seq<Component>, le: Order): seq<Component> {
    if cs == [] then [] else Insert(cs[0], Sorted(cs[1..], le), le)
  }

  // ── The text of lines ──

  function Heading(name: string): string {
    "// \U{2500}\U{2500} " + name + " \U{2500}\U{2500}"
  }

  function ValueLine(names: seq<string>, path: string): string {
    "export { " + Join(names, ", ") + " } from \"" + path + "\";"
  }

  function TypeLine(names: seq<string>, path: string): string {
    "export type { " + Join(names, ", ") + " } from \"" + path + "\";"
  }

  /** A component's lines: values first, no line for an empty list. */
  function ComponentLines(c: Component): seq<string> {
    (if c.values == [] then [] else [ValueLine(c.values, "./" + c.dirName)])
    + (if c.types == [] then [] else [TypeLine(c.types, "./" + c.dirName)])
  }

  // ── Which components, in which order ──

  function SectionNames(sections: seq<Section>): seq<string> {
    if sections == [] then [] else SectionNames(sections[..|sections| - 1]) + sections[|sections| - 1].components
  }

  function Core(cs: seq<Component>, named: seq<string>): seq<Component> {
    if cs == [] then []
    else Core(cs[..|cs| - 1], named) + if cs[|cs| - 1].dirName in named then [] else [cs[|cs| - 1]]
  }

  /** The first component of a directory name, if any. */
  function Find(cs: seq<Component>, name: string): seq<Component> {
    if cs == [] then [] else if cs[0].dirName == name then [cs[0]] else Find(cs[1..], name)
  }

  function FindAll(cs: seq<Component>, names: seq<string>): seq<Component> {
    if names == [] then [] else FindAll(cs, names[..|names| - 1]) + Find(cs, names[|names| - 1])
  }

  /** The components whose exports are written, in the order they are. */
  function Emission(sorted: seq<Component>, sections: seq<Section>): seq<Component> {
    Core(sorted, SectionNames(sections)) + FindAll(sorted, SectionNames(sections))
  }

  predicate HasFormMeta(cs: seq<Component>) {
    exists c :: c in cs && c.dirName == "form" && "FormSchemaDefinition" in c.types
  }

  // ── The writer ──

  /** The lines so far and the section they are in. */
  datatype Page = Page(lines: seq<string>, section: string)

  function Spaced(lines: seq<string>): seq<string> {
    if lines != [] && lines[|lines| - 1] != "" then lines + [""] else lines
  }

  function InSection(g: Page, name: string): Page {
    if g.section == name then g else Page(Spaced(g.lines) + [Heading(name)], name)
  }

  function WithComponent(g: Page, c: Component): Page {
    g.(lines := g.lines + ComponentLines(c))
  }

  function WithCore(g: Page, cs: seq<Component>, named: seq<string>): Page {
    if cs == [] then g
    else
      var c := cs[|cs| - 1];
      var g' := WithCore(g, cs[..|cs| - 1], named);
      if c.dirName in named then g' else WithComponent(g', c)
  }

  function WithNames(g: Page, cs: seq<Component>, section: string, names: seq<string>): Page {
    if names == [] then g
    else
      var g' := WithNames(g, cs, section, names[..|names| - 1]);
      var found := Find(cs, names[|names| - 1]);
      if found == [] then g' else WithComponent(InSection(g', section), found[0])
  }

  function WithSections(g: Page, cs: seq<Component>, sections: seq<Section>): Page {
    if sections == [] then g
    else
      var s := sections[|sections| - 1];
      WithNames(WithSections(g, cs, sections[..|sections| - 1]), cs, s.name, s.components)
  }

  const FORM_META_LINE := TypeLine(FORM_TYPES, "@/lib/form-field-meta")

  function WithBlock(lines: seq<string>, heading: string, line: string): seq<string> {
    Spaced(lines) + [Heading(heading), line]
  }

  /** The page with every component of the sorted list on it. */
  function Body(header: string, sorted: seq<Component>, sections: seq<Section>): Page {
    WithSections(WithCore(InSection(Page([header, ""], ""), "Core"), sorted, SectionNames(sections)), sorted, sections)
  }

  function Finished(lines: seq<string>, formMeta: bool): seq<string> {
    Spaced(if formMeta then WithBlock(lines, SCHEMA_DRIVEN, FORM_META_LINE) else lines)
  }

  function BarrelLines(header: string, cs: seq<Component>, le: Order, sections: seq<Section>): seq<string> {
    var sorted := Sorted(cs, le);
    Finished(Body(header, sorted, sections).lines, HasFormMeta(sorted))
  }

  function Barrel(header: string, cs: seq<Component>, le: Order, sections: seq<Section>): string {
    Join(BarrelLines(header, cs, le, sections), "\n")
  }

  function Dirs(cs: seq<Component>): set<string> {
    set c | c in cs :: c.dirName
  }

  lemma {:induction false} DirsConcat(a: seq<Component>, b: seq<Component>)
    ensures Dirs(a + b) == Dirs(a) + Dirs(b)
  {
  }

  lemma {:induction false} DirsSnoc(cs: seq<Component>, c: Component)
    ensures Dirs(cs + [c]) == Dirs(cs) + {c.dirName}
  {
    DirsConcat(cs, [c]);
    assert c in [c];
  }

  class BarrelWriter {
    var lines: seq<string>
    var currentSection: string
    var emitted: set<string>

    constructor (header: string)
      ensures Written() == Page([header, ""], "") && emitted == {}
    {
      lines, currentSection, emitted := [header, ""], "", {};
    }

    function Written(): Page
      reads this
    {
      Page(lines, currentSection)
    }

    method Space()
      modifies this`lines
      ensures lines == Spaced(old(lines))
    {
      if lines != [] && lines[|lines| - 1] != "" { lines := lines + [""]; }
    }

    method EmitSection(name: string)
      modifies this`lines, this`currentSection
      ensures Written() == InSection(old(Written()), name)
    {
      if currentSection == name { return; }
      Space();
      lines := lines + [Heading(name)];
      currentSection := name;
    }

    method EmitExports(comp: Component)
      modifies this`lines
      ensures Written() == WithComponent(old(Written()), comp)
    {
      var importPath := "./" + comp.dirName;
      if |comp.values| > 0 { lines := lines + [ValueLine(comp.values, importPath)]; }
      if |comp.types| > 0 { lines := lines + [TypeLine(comp.types, importPath)]; }
    }

    /** First the components of no section, in sorted order. */
    method EmitCore(sorted: seq<Component>, named: seq<string>)
      modifies this
      ensures Written() == WithCore(old(Written()), sorted, named)
      ensures emitted == old(emitted) + Dirs(Core(sorted, named))
    {
      for i := 0 to |sorted|
        invariant Written() == WithCore(old(Written()), sorted[..i], named)
        invariant emitted == old(emitted) + Dirs(Core(sorted[..i], named))
      {
        assert sorted[..i + 1][..i] == sorted[..i];
        if sorted[i].dirName in named { continue; }
        EmitExports(sorted[i]);
        emitted := emitted + {sorted[i].dirName};
        DirsSnoc(Core(sorted[..i], named), sorted[i]);
      }
      assert sorted[..|sorted|] == sorted;
    }

    /** Then one section's components, in the section's order. */
    method EmitNames(sorted: seq<Component>, section: Section)
      modifies this
      ensures Written() == WithNames(old(Written()), sorted, section.name, section.components)
      ensures emitted == old(emitted) + Dirs(FindAll(sorted, section.components))
    {
      var names := section.components;
      for i := 0 to |names|
        invariant Written() == WithNames(old(Written()), sorted, section.name, names[..i])
        invariant emitted == old(emitted) + Dirs(FindAll(sorted, names[..i]))
      {
        assert names[..i + 1][..i] == names[..i];
        var found := Find(sorted, names[i]);
        if found == [] { continue; }
        EmitSection(section.name);
        EmitExports(found[0]);
        emitted := emitted + {names[i]};
        FindsName(sorted, names[i]);
        DirsSnoc(FindAll(sorted, names[..i]), found[0]);
        assert found == [found[0]];
      }
      assert names[..|names|] == names;
    }

    method EmitSections(sorted: seq<Component>, sections: seq<Section>)
      modifies this
      ensures Written() == WithSections(old(Written()), sorted, sections)
      ensures emitted == old(emitted) + Dirs(FindAll(sorted, SectionNames(sections)))
    {
      for i := 0 to |sections|
        invariant Written() == WithSections(old(Written()), sorted, sections[..i])
        invariant emitted == old(emitted) + Dirs(FindAll(sorted, SectionNames(sections[..i])))
      {
        assert sections[..i + 1][..i] == sections[..i];
        FindAllConcat(sorted, SectionNames(sections[..i]), sections[i].components);
        DirsConcat(FindAll(sorted, SectionNames(sections[..i])), FindAll(sorted, sections[i].components));
        EmitNames(sorted, sections[i]);
      }
      assert sections[..|sections|] == sections;
    }

    /** The sorted components, and last what the form directory takes from elsewhere. */
    method EmitAll(header: string, sorted: seq<Component>, sections: seq<Section>)
      requires Written() == Page([header, ""], "") && emitted == {}
      modifies this
      ensures Written() == Body(header, sorted, sections)
      ensures emitted == Dirs(Emission(sorted, sections))
    {
      var named := SectionNames(sections);
      EmitSection("Core");
      EmitCore(sorted, named);
      EmitSections(sorted, sections);
      DirsConcat(Core(sorted, named), FindAll(sorted, named));
    }

    method Finish(formMeta: bool)
      modifies this`lines
      ensures lines == Finished(old(lines), formMeta)
    {
      if formMeta {
        Space();
        lines := lines + [Heading(SCHEMA_DRIVEN)];
        lines := lines + [FORM_META_LINE];
      }
      Space();
    }
  }

  lemma {:induction false} FindsName(cs: seq<Component>, name: string)
    ensures |Find(cs, name)| <= 1
    ensures Find(cs, name) == [] ==> forall c :: c in cs ==> c.dirName != name
    ensures Find(cs, name) != [] ==> Find(cs, name)[0] in cs && Find(cs, name)[0].dirName == name
  {
    if cs != [] && cs[0].dirName != name {
      FindsName(cs[1..], name);
    }
  }

  lemma {:induction false} FindAllConcat(cs: seq<Component>, a: seq<string>, b: seq<string>)
    ensures FindAll(cs, a + b) == FindAll(cs, a) + FindAll(cs, b)
  {
    if b == [] {
      assert a + b == a;
    } else {
      FindAllConcat(cs, a, b[..|b| - 1]);
      assert (a + b)[..|a + b| - 1] == a + b[..|b| - 1];
    }
  }

  lemma {:induction false} CoreHas(cs: seq<Component>, named: seq<string>, c: Component)
    ensures c in Core(cs, named) <==> c in cs && c.dirName !in named
  {
    if cs != [] {
      CoreHas(cs[..|cs| - 1], named, c);
      assert cs == cs[..|cs| - 1] + [cs[|cs| - 1]];
    }
  }

  lemma {:induction false} FindAllHas(cs: seq<Component>, names: seq<string>, name: string)
    requires name in names && exists c :: c in cs && c.dirName == name
    ensures exists c :: c in FindAll(cs, names) && c.dirName == name
  {
    var k := |names| - 1;
    if names[k] == name {
      FindsName(cs, name);
      assert Find(cs, name)[0] in FindAll(cs, names);
    } else {
      assert names == names[..k] + [names[k]];
      FindAllHas(cs, names[..k], name);
      var c :| c in FindAll(cs, names[..k]) && c.dirName == name;
      assert c in FindAll(cs, names);
    }
  }

  lemma {:induction false} AllEmitted(sorted: seq<Component>, sections: seq<Section>, c: Component)
    requires c in sorted
    ensures exists d :: d in Emission(sorted, sections) && d.dirName == c.dirName
  {
    var named := SectionNames(sections);
    CoreHas(sorted, named, c);
    if c.dirName in named {
      FindAllHas(sorted, named, c.dirName);
      var d :| d in FindAll(sorted, named) && d.dirName == c.dirName;
      assert d in Emission(sorted, sections);
    } else {
      assert c in Emission(sorted, sections);
    }
  }

  /** The names the generator warns about as missing from the output. */
  method Unemitted(sorted: seq<Component>, emitted: set<string>) returns (missing: seq<string>)
    ensures forall c :: c in sorted ==> (c.dirName in missing <==> c.dirName !in emitted)
    ensures missing == [] <==> forall c :: c in sorted ==> c.dirName in emitted
  {
    missing := [];
    for i := 0 to |sorted|
      invariant forall n :: n in missing ==> n !in emitted
      invariant forall k :: 0 <= k < i ==> (sorted[k].dirName in missing <==> sorted[k].dirName !in emitted)
      invariant missing == [] <==> forall k :: 0 <= k < i ==> sorted[k].dirName in emitted
    {
      if sorted[i].dirName !in emitted { missing := missing + [sorted[i].dirName]; }
    }
  }

  /** The generator, given its header and table of sections. Its warning about missing components never fires. */
  method GenerateSections(header: string, components: seq<Component>, le: Order, sections: seq<Section>)
    returns (barrel: string, missing: seq<string>)
    ensures barrel == Barrel(header, components, le, sections)
    ensures missing == []
  {
    var sorted := Sorted(components, le);
    var writer := new BarrelWriter(header);
    writer.EmitAll(header, sorted, sections);
    forall c | c in sorted
      ensures c.dirName in writer.emitted
    {
      AllEmitted(sorted, sections, c);
    }
    missing := Unemitted(sorted, writer.emitted);
    writer.Finish(HasFormMeta(sorted));
    barrel := Join(writer.lines, "\n");
  }

  method GenerateBarrel(components: seq<Component>, le: Order) returns (barrel: string, missing: seq<string>)
    ensures barrel == Barrel(HEADER, components, le, SECTION_ORDER)
    ensures missing == []
  {
    barrel, missing := GenerateSections(HEADER, components, le, SECTION_ORDER);
  }
}
