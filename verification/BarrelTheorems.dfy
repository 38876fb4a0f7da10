/** The barrel file as a whole: what it exports, that nothing is lost, that listing order does not matter. */
module BarrelTheorems {
  import opened Collections
  import opened Text
  import opened BarrelParser
  import opened BarrelPrinter
  import opened BarrelLayout
  import opened BarrelRoundTrip

  // ── Sorting ──

  ghost predicate Ordered(cs: seq<Component>, le: Order) {
    forall i, j :: 0 <= i < j < |cs| ==> le(cs[i].dirName, cs[j].dirName)
  }

  ghost predicate DistinctDirs(cs: seq<Component>) {
    forall i, j :: 0 <= i < j < |cs| ==> cs[i].dirName != cs[j].dirName
  }

  lemma {:induction false} InsertPermutes(c: Component, cs: seq<Component>, le: Order)
    ensures multiset(Insert(c, cs, le)) == multiset{c} + multiset(cs)
  {
    if cs != [] && !le(c.dirName, cs[0].dirName) {
      InsertPermutes(c, cs[1..], le);
      assert cs == [cs[0]] + cs[1..];
    }
  }

  lemma {:induction false} SortedPermutes(cs: seq<Component>, le: Order)
    ensures multiset(Sorted(cs, le)) == multiset(cs)
  {
    if cs != [] {
      SortedPermutes(cs[1..], le);
      InsertPermutes(cs[0], Sorted(cs[1..], le), le);
      assert cs == [cs[0]] + cs[1..];
    }
  }

  lemma {:induction false} InsertOrders(c: Component, cs: seq<Component>, le: Order)
    requires Total(le) && Ordered(cs, le)
    ensures Ordered(Insert(c, cs, le), le)
  {
    if cs != [] {
      if le(c.dirName, cs[0].dirName) {
        assert forall j :: 0 <= j < |cs| ==> le(cs[0].dirName, cs[j].dirName);
      } else {
        InsertOrders(c, cs[1..], le);
        InsertPermutes(c, cs[1..], le);
        var rest := Insert(c, cs[1..], le);
        forall j | 0 <= j < |rest|
          ensures le(cs[0].dirName, rest[j].dirName)
        {
          assert rest[j] in multiset(rest);
          assert rest[j] == c || rest[j] in cs[1..];
        }
      }
    }
  }

  lemma {:induction false} SortedOrders(cs: seq<Component>, le: Order)
    requires Total(le)
    ensures Ordered(Sorted(cs, le), le)
  {
    if cs != [] {
      SortedOrders(cs[1..], le);
      InsertOrders(cs[0], Sorted(cs[1..], le), le);
    }
  }

  /** The components of one directory name, in order. */
  function OfName(cs: seq<Component>, name: string): seq<Component> {
    if cs == [] then [] else (if cs[0].dirName == name then [cs[0]] else []) + OfName(cs[1..], name)
  }

  lemma {:induction false} InsertIsStable(c: Component, cs: seq<Component>, le: Order, name: string)
    requires Total(le)
    ensures OfName(Insert(c, cs, le), name) == OfName([c] + cs, name)
  {
    assert ([c] + cs)[1..] == cs;
    if cs != [] && !le(c.dirName, cs[0].dirName) {
      var rest := Insert(c, cs[1..], le);
      InsertIsStable(c, cs[1..], le, name);
      assert ([cs[0]] + rest)[1..] == rest && ([c] + cs[1..])[1..] == cs[1..];
    }
  }

  /** Components of one name keep the order they were found in. */
  lemma {:induction false} SortIsStable(cs: seq<Component>, le: Order, name: string)
    requires Total(le)
    ensures OfName(Sorted(cs, le), name) == OfName(cs, name)
  {
    if cs != [] {
      var rest := Sorted(cs[1..], le);
      SortIsStable(cs[1..], le, name);
      InsertIsStable(cs[0], rest, le, name);
      assert ([cs[0]] + rest)[1..] == rest;
    }
  }

  /** There is one ordered arrangement of components with distinct names. */
  lemma {:induction false} OrderedIsUnique(xs: seq<Component>, ys: seq<Component>, le: Order)
    requires Total(le) && Ordered(xs, le) && Ordered(ys, le)
    requires multiset(xs) == multiset(ys) && DistinctDirs(xs)
    ensures xs == ys
  {
    assert |multiset(xs)| == |xs| && |multiset(ys)| == |ys|;
    if xs != [] {
      SameHead(xs, ys, le);
      MultisetOfTail(xs);
      MultisetOfTail(ys);
      TailIsOrdered(xs, le);
      TailIsOrdered(ys, le);
      OrderedIsUnique(xs[1..], ys[1..], le);
      assert xs == [xs[0]] + xs[1..] && ys == [ys[0]] + ys[1..];
    }
  }

  lemma {:induction false} MultisetOfTail<T>(xs: seq<T>)
    requires xs != []
    ensures multiset(xs[1..]) == multiset(xs) - multiset{xs[0]}
  {
    assert xs == [xs[0]] + xs[1..];
  }

  lemma {:induction false} TailIsOrdered(xs: seq<Component>, le: Order)
    requires xs != [] && Ordered(xs, le)
    ensures Ordered(xs[1..], le) && (DistinctDirs(xs) ==> DistinctDirs(xs[1..]))
  {
  }

  lemma {:induction false} SameHead(xs: seq<Component>, ys: seq<Component>, le: Order)
    requires Total(le) && Ordered(xs, le) && Ordered(ys, le) && xs != [] && ys != []
    requires multiset(xs) == multiset(ys) && DistinctDirs(xs)
    ensures xs[0] == ys[0]
  {
    PermutationKeepsMembers(xs, ys);
    assert xs[0] in ys && ys[0] in xs;
    var k :| 0 <= k < |ys| && ys[k] == xs[0];
    var m :| 0 <= m < |xs| && xs[m] == ys[0];
    assert le(xs[0].dirName, ys[0].dirName) && le(ys[0].dirName, xs[0].dirName);
    assert xs[m].dirName == xs[0].dirName;
  }

  lemma {:induction false} PermutationKeepsDistinctDirs(xs: seq<Component>, ys: seq<Component>)
    requires multiset(xs) == multiset(ys) && DistinctDirs(xs)
    ensures DistinctDirs(ys)
  {
    PermutationKeepsMembers(xs, ys);
    assert Distinct(xs);
    PermutationKeepsDistinct(xs, ys);
    forall i, j | 0 <= i < j < |ys|
      ensures ys[i].dirName != ys[j].dirName
    {
      assert ys[i] in xs && ys[j] in xs;
      var k :| 0 <= k < |xs| && xs[k] == ys[i];
      var m :| 0 <= m < |xs| && xs[m] == ys[j];
      assert k != m;
    }
  }

  /** The barrel does not depend on the order in which the directories are listed. */
  lemma {:induction false} ListingOrderIsIrrelevant(header: string, cs: seq<Component>, ds: seq<Component>,
                                                    le: Order, sections: seq<Section>)
    requires Total(le) && DistinctDirs(cs) && multiset(cs) == multiset(ds)
    ensures Barrel(header, cs, le, sections) == Barrel(header, ds, le, sections)
  {
    SortedPermutes(cs, le);
    SortedPermutes(ds, le);
    SortedOrders(cs, le);
    SortedOrders(ds, le);
    PermutationKeepsDistinctDirs(cs, Sorted(cs, le));
    OrderedIsUnique(Sorted(cs, le), Sorted(ds, le), le);
  }

  // ── Nothing lost, nothing twice ──

  lemma {:induction false} CoreCount(cs: seq<Component>, named: seq<string>, c: Component)
    ensures multiset(Core(cs, named))[c] == if c.dirName in named then 0 else multiset(cs)[c]
  {
    if cs != [] {
      var n := |cs| - 1;
      CoreCount(cs[..n], named, c);
      assert cs == cs[..n] + [cs[n]];
    }
  }

  lemma {:induction false} FindAllCount(cs: seq<Component>, names: seq<string>, c: Component)
    requires Distinct(names)
    ensures multiset(FindAll(cs, names))[c] == if c.dirName in names && Find(cs, c.dirName) == [c] then 1 else 0
  {
    if names != [] {
      var n := |names| - 1;
      FindAllCount(cs, names[..n], c);
      FindsName(cs, names[n]);
      assert names == names[..n] + [names[n]];
      FindCount(cs, names[n], c);
    }
  }

  lemma {:induction false} FindCount(cs: seq<Component>, name: string, c: Component)
    ensures multiset(Find(cs, name))[c] == if Find(cs, name) == [c] then 1 else 0
    ensures Find(cs, name) == [c] ==> c.dirName == name
  {
    FindsName(cs, name);
    if Find(cs, name) != [] {
      assert Find(cs, name) == [Find(cs, name)[0]];
    }
  }

  /** No two components share a directory name that some section lists. */
  ghost predicate NamedDirsDistinct(cs: seq<Component>, named: seq<string>) {
    forall i, j :: 0 <= i < j < |cs| && cs[i].dirName in named ==> cs[i].dirName != cs[j].dirName
  }

  lemma {:induction false} TwiceInSequence<T>(xs: seq<T>, x: T) returns (i: nat, j: nat)
    requires multiset(xs)[x] >= 2
    ensures i < j < |xs| && xs[i] == xs[j] == x
  {
    var n := |xs| - 1;
    assert xs == xs[..n] + [xs[n]];
    if xs[n] == x {
      assert x in xs[..n];
      i :| 0 <= i < n && xs[..n][i] == x;
      j := n;
    } else {
      i, j := TwiceInSequence(xs[..n], x);
    }
  }

  lemma {:induction false} FindOnly(cs: seq<Component>, c: Component)
    requires c in cs && forall d :: d in cs && d.dirName == c.dirName ==> d == c
    ensures Find(cs, c.dirName) == [c]
  {
    FindsName(cs, c.dirName);
  }

  lemma {:induction false} EmissionCount(cs: seq<Component>, sections: seq<Section>, c: Component)
    requires Distinct(SectionNames(sections))
    ensures multiset(Emission(cs, sections))[c]
         == if c.dirName !in SectionNames(sections) then multiset(cs)[c]
            else if Find(cs, c.dirName) == [c] then 1 else 0
  {
    CoreCount(cs, SectionNames(sections), c);
    FindAllCount(cs, SectionNames(sections), c);
  }

  /**
   Every component's exports are written exactly once if and only if no two components
   share the name of a directory that a section lists; of two that do, all but the
   first are dropped, and the warning about missing components does not notice.
   */
  lemma {:induction false} EmittedOnceIff(cs: seq<Component>, sections: seq<Section>)
    requires Distinct(SectionNames(sections))
    ensures multiset(Emission(cs, sections)) == multiset(cs) <==> NamedDirsDistinct(cs, SectionNames(sections))
  {
    var named := SectionNames(sections);
    if multiset(Emission(cs, sections)) == multiset(cs) {
      forall i, j | 0 <= i < j < |cs| && cs[i].dirName in named
        ensures cs[i].dirName != cs[j].dirName
      {
        EmissionCount(cs, sections, cs[i]);
        EmissionCount(cs, sections, cs[j]);
        assert cs[i] in multiset(cs) && cs[j] in multiset(cs);
        if cs[i] == cs[j] {
          RepeatCounts(cs, i, j);
        }
      }
    }
    if NamedDirsDistinct(cs, named) {
      forall c
        ensures multiset(Emission(cs, sections))[c] == multiset(cs)[c]
      {
        DistinctIsOnce(cs, sections, c);
      }
    }
  }

  lemma {:induction false} DistinctIsOnce(cs: seq<Component>, sections: seq<Section>, c: Component)
    requires Distinct(SectionNames(sections)) && NamedDirsDistinct(cs, SectionNames(sections))
    ensures multiset(Emission(cs, sections))[c] == multiset(cs)[c]
  {
    EmissionCount(cs, sections, c);
    FindsName(cs, c.dirName);
    if c.dirName in SectionNames(sections) && c in cs {
      FindOnly(cs, c);
      if multiset(cs)[c] >= 2 {
        var i, j := TwiceInSequence(cs, c);
      }
    }
  }

  // ── The sections of the script ──

  predicate Apart(xs: seq<string>, ys: seq<string>) {
    forall x :: x in xs ==> x !in ys
  }

  lemma {:induction false} DistinctConcat(xs: seq<string>, ys: seq<string>)
    requires Distinct(xs) && Distinct(ys) && Apart(xs, ys)
    ensures Distinct(xs + ys)
  {
    var zs := xs + ys;
    forall i, j | 0 <= i < j < |zs|
      ensures zs[i] != zs[j]
    {
      if i < |xs| <= j {
        assert zs[i] in xs && zs[j] in ys;
      }
    }
  }

  lemma {:induction false} ApartConcat(xs: seq<string>, ys: seq<string>, zs: seq<string>)
    requires Apart(xs, zs) && Apart(ys, zs)
    ensures Apart(xs + ys, zs)
  {
  }

  lemma {:induction false} DistinctPhase3() ensures Distinct(PHASE_3.components) {}
  lemma {:induction false} DistinctDevices() ensures Distinct(DEVICES.components) {}
  lemma {:induction false} DistinctFormInputs() ensures Distinct(FORM_INPUTS.components) {}
  lemma {:induction false} FirstVsFirst() ensures Apart(DEVICES_FIRST, PHASE_3_FIRST) {}
  lemma {:induction false} FirstVsRest() ensures Apart(DEVICES_FIRST, PHASE_3_REST) {}
  lemma {:induction false} RestVsFirst() ensures Apart(DEVICES_REST, PHASE_3_FIRST) {}
  lemma {:induction false} RestVsRest() ensures Apart(DEVICES_REST, PHASE_3_REST) {}
  lemma {:induction false} DevicesFirstVsFormInputs() ensures Apart(DEVICES_FIRST, FORM_INPUTS.components) {}
  lemma {:induction false} DevicesRestVsFormInputs() ensures Apart(DEVICES_REST, FORM_INPUTS.components) {}
  lemma {:induction false} FirstVsFormInputs() ensures Apart(PHASE_3_FIRST, FORM_INPUTS.components) {}
  lemma {:induction false} RestVsFormInputs() ensures Apart(PHASE_3_REST, FORM_INPUTS.components) {}

  lemma {:induction false} DevicesVsOthers()
    ensures Apart(PHASE_3.components, DEVICES.components) && Apart(DEVICES.components, FORM_INPUTS.components)
  {
    FirstVsFirst();
    FirstVsRest();
    RestVsFirst();
    RestVsRest();
    ApartConcat(DEVICES_FIRST, DEVICES_REST, PHASE_3_FIRST);
    ApartConcat(DEVICES_FIRST, DEVICES_REST, PHASE_3_REST);
    ApartConcat(PHASE_3_FIRST, PHASE_3_REST, DEVICES.components);
    DevicesFirstVsFormInputs();
    DevicesRestVsFormInputs();
    ApartConcat(DEVICES_FIRST, DEVICES_REST, FORM_INPUTS.components);
  }

  lemma {:induction false} Phase3VsFormInputs()
    ensures Apart(PHASE_3.components, FORM_INPUTS.components)
  {
    FirstVsFormInputs();
    RestVsFormInputs();
    ApartConcat(PHASE_3_FIRST, PHASE_3_REST, FORM_INPUTS.components);
  }

  lemma {:induction false} Phase3VsRest() ensures Apart(PHASE_3.components, ["side-panel", "schema-driven"]) {}
  lemma {:induction false} DevicesVsRest() ensures Apart(DEVICES.components, ["side-panel", "schema-driven"]) {}
  lemma {:induction false} FormInputsVsRest() ensures Apart(FORM_INPUTS.components, ["side-panel", "schema-driven"]) {}

  lemma {:induction false} SectionNamesAdd(sections: seq<Section>, s: Section)
    ensures SectionNames(sections + [s]) == SectionNames(sections) + s.components
  {
    assert (sections + [s])[..|sections|] == sections;
  }

  lemma {:induction false} SectionOrderNames()
    ensures SectionNames(SECTION_ORDER)
         == PHASE_3.components + DEVICES.components + FORM_INPUTS.components + ["side-panel", "schema-driven"]
  {
    SectionNamesAdd([], PHASE_3);
    SectionNamesAdd([PHASE_3], DEVICES);
    SectionNamesAdd([PHASE_3, DEVICES], FORM_INPUTS);
    SectionNamesAdd([PHASE_3, DEVICES, FORM_INPUTS], SIDE_PANEL);
    SectionNamesAdd([PHASE_3, DEVICES, FORM_INPUTS, SIDE_PANEL], SCHEMA_FORMS);
    assert [] + [PHASE_3] == [PHASE_3];
    assert [PHASE_3] + [DEVICES] == [PHASE_3, DEVICES];
    assert [PHASE_3, DEVICES] + [FORM_INPUTS] == [PHASE_3, DEVICES, FORM_INPUTS];
    assert [PHASE_3, DEVICES, FORM_INPUTS] + [SIDE_PANEL] == [PHASE_3, DEVICES, FORM_INPUTS, SIDE_PANEL];
    assert [PHASE_3, DEVICES, FORM_INPUTS, SIDE_PANEL] + [SCHEMA_FORMS] == SECTION_ORDER;
    assert SIDE_PANEL.components + SCHEMA_FORMS.components == ["side-panel", "schema-driven"];
  }

  /** The script's section lists are disjoint and name no directory twice. */
  lemma {:induction false} SectionOrderIsDistinct()
    ensures Distinct(SectionNames(SECTION_ORDER))
  {
    var p, d, f := PHASE_3.components, DEVICES.components, FORM_INPUTS.components;
    var rest := ["side-panel", "schema-driven"];
    SectionOrderNames();
    DistinctPhase3();
    DistinctDevices();
    DistinctFormInputs();
    DevicesVsOthers();
    Phase3VsFormInputs();
    Phase3VsRest();
    DevicesVsRest();
    FormInputsVsRest();
    DistinctConcat(p, d);
    ApartConcat(p, d, f);
    DistinctConcat(p + d, f);
    ApartConcat(p, d, rest);
    ApartConcat(p + d, f, rest);
    DistinctConcat(p + d + f, rest);
  }

  // ── The order of writing ──

  lemma {:induction false} CoreIsOrdered(cs: seq<Component>, named: seq<string>, le: Order)
    requires Ordered(cs, le)
    ensures Ordered(Core(cs, named), le) && forall c :: c in Core(cs, named) ==> c.dirName !in named
  {
    forall c | c in Core(cs, named)
      ensures c.dirName !in named
    {
      CoreHas(cs, named, c);
    }
    if cs != [] {
      var n := |cs| - 1;
      var front := Core(cs[..n], named);
      CoreIsOrdered(cs[..n], named, le);
      forall i | 0 <= i < |front|
        ensures le(front[i].dirName, cs[n].dirName)
      {
        CoreHas(cs[..n], named, front[i]);
      }
    }
  }

  function DirsIn(cs: seq<Component>): seq<string> {
    seq(|cs|, i requires 0 <= i < |cs| => cs[i].dirName)
  }

  /** The names that some component has. */
  function Present(names: seq<string>, cs: seq<Component>): seq<string> {
    if names == [] then []
    else
      var name := names[|names| - 1];
      Present(names[..|names| - 1], cs) + if exists c :: c in cs && c.dirName == name then [name] else []
  }

  lemma {:induction false} FoundArePresent(cs: seq<Component>, names: seq<string>)
    ensures DirsIn(FindAll(cs, names)) == Present(names, cs)
  {
    if names != [] {
      var n := |names| - 1;
      FoundArePresent(cs, names[..n]);
      FindsName(cs, names[n]);
      if Find(cs, names[n]) != [] {
        assert Find(cs, names[n])[0] in cs;
      }
    }
  }

  predicate IsFirstOfName(cs: seq<Component>, c: Component) {
    OfName(cs, c.dirName) != [] && OfName(cs, c.dirName)[0] == c
  }

  lemma {:induction false} FindIsFirst(cs: seq<Component>, name: string)
    ensures Find(cs, name) == if OfName(cs, name) == [] then [] else [OfName(cs, name)[0]]
  {
    if cs != [] && cs[0].dirName != name {
      FindIsFirst(cs[1..], name);
    }
  }

  lemma {:induction false} FoundAreFirst(cs: seq<Component>, names: seq<string>)
    ensures forall c :: c in FindAll(cs, names) ==> IsFirstOfName(cs, c)
  {
    if names != [] {
      var n := |names| - 1;
      FoundAreFirst(cs, names[..n]);
      FindsName(cs, names[n]);
      FindIsFirst(cs, names[n]);
    }
  }

  lemma {:induction false} PresentPermutation(names: seq<string>, cs: seq<Component>, ds: seq<Component>)
    requires multiset(cs) == multiset(ds)
    ensures Present(names, cs) == Present(names, ds)
  {
    PermutationKeepsMembers(cs, ds);
    if names != [] {
      PresentPermutation(names[..|names| - 1], cs, ds);
    }
  }

  /**
   First come the components that no section lists, in the order of their names, then those
   that the sections list, in the sections' order, each the first found of its name.
   */
  lemma {:induction false} WritingIsOrdered(cs: seq<Component>, le: Order, sections: seq<Section>) returns (k: nat)
    requires Total(le)
    ensures var (written, names) := (Emission(Sorted(cs, le), sections), SectionNames(sections));
            && k <= |written| && Ordered(written[..k], le)
            && (forall i :: 0 <= i < k ==> written[i].dirName !in names)
            && DirsIn(written[k..]) == Present(names, cs)
            && forall c :: c in written[k..] ==> IsFirstOfName(cs, c)
  {
    var sorted, names := Sorted(cs, le), SectionNames(sections);
    var core, found := Core(sorted, names), FindAll(sorted, names);
    SortedOrders(cs, le);
    SortedPermutes(cs, le);
    CoreIsOrdered(sorted, names, le);
    FoundArePresent(sorted, names);
    PresentPermutation(names, sorted, cs);
    FoundAreFirst(sorted, names);
    forall c | c in found
      ensures IsFirstOfName(cs, c)
    {
      SortIsStable(cs, le, c.dirName);
    }
    k := |core|;
    assert (core + found)[..k] == core && (core + found)[k..] == found;
  }

  // ── A name shared by two components ──

  lemma {:induction false} DotIsListed()
    ensures "dot" in SectionNames(SECTION_ORDER)
  {
    SectionOrderNames();
    assert DEVICES_FIRST[1] == "dot";
    assert "dot" in DEVICES.components;
  }

  /** Two components, each with a directory name that a section lists. */
  lemma {:induction false} PairSharesName(cs: seq<Component>, named: seq<string>)
    requires |cs| == 2 && cs[0].dirName == cs[1].dirName && cs[0].dirName in named
    ensures !NamedDirsDistinct(cs, named)
  {
  }

  lemma {:induction false} PairPermuted(cs: seq<Component>, ds: seq<Component>)
    requires |cs| == 2 && cs[0].dirName == cs[1].dirName && multiset(cs) == multiset(ds)
    ensures |ds| == 2 && ds[0].dirName == ds[1].dirName == cs[0].dirName
  {
    assert |ds| == |multiset(ds)| == |multiset(cs)|;
    PermutationKeepsMembers(cs, ds);
    assert ds[0] in ds && ds[1] in ds;
  }

  /**
   A directory `dot` beside a standalone `dot.tsx` gives two components of that name, which
   a section of the script lists. However they are sorted, one of them is not written.
   */
  lemma {:induction false} SharedDirectoryIsLost(le: Order)
    ensures var cs := [Component("dot", ["Dot"], []), Component("dot", ["DotIcon"], [])];
            multiset(Emission(Sorted(cs, le), SECTION_ORDER)) != multiset(cs)
  {
    var cs := [Component("dot", ["Dot"], []), Component("dot", ["DotIcon"], [])];
    var sorted := Sorted(cs, le);
    SortedPermutes(cs, le);
    PairPermuted(cs, sorted);
    DotIsListed();
    PairSharesName(sorted, SectionNames(SECTION_ORDER));
    SectionOrderIsDistinct();
    EmittedOnceIff(sorted, SECTION_ORDER);
  }

  // ── The theorems for the script ──

  /** A header and sections that readers find nothing in. */
  ghost predicate IsQuiet(header: string, sections: seq<Section>) {
    && Read(VALUES_IN, header) == [] && Read(TYPES_IN, header) == [] && Read(STATEMENTS_IN, header) == []
    && (forall s :: s in sections ==> Free(s.name, '\n')) && Free(SCHEMA_DRIVEN, '\n')
    && NamesDiffer(sections, "Core")
  }

  lemma {:induction false} ScriptIsQuiet()
    ensures IsQuiet(HEADER, SECTION_ORDER)
  {
    ReadersAreDiscerning();
    HeaderIsSilent(VALUES_IN);
    HeaderIsSilent(TYPES_IN);
    HeaderIsSilent(STATEMENTS_IN);
    SectionHeadingsAreLines();
    SectionNamesDiffer();
  }

  /** What a reader finds in the barrel. */
  lemma {:induction false} BarrelIsRead<T>(
    f: string -> seq<T>, own: Component -> seq<T>,
    header: string, cs: seq<Component>, le: Order, sections: seq<Section>)
    requires Discerning(f) && CleanComponents(cs) && forall c :: c in cs ==> FlatMap(f, ComponentLines(c)) == own(c)
    requires IsQuiet(header, sections) && Read(f, header) == []
    ensures Read(f, Barrel(header, cs, le, sections))
         == FlatMap(own, Emission(Sorted(cs, le), sections)) + if HasFormMeta(cs) then Read(f, FORM_META_LINE) else []
  {
    var sorted := Sorted(cs, le);
    SortedPermutes(cs, le);
    PermutationKeepsMembers(cs, sorted);
    assert HasFormMeta(sorted) == HasFormMeta(cs);
    ReaderReads(f, own, sorted);
    BarrelIsLaidOut(header, cs, le, sections);
    ReadJoined(f, Layout(header, sorted, sections, HasFormMeta(sorted)));
    LayoutIsRead(Reading(f), own, header, sorted, sections, HasFormMeta(sorted));
  }

  lemma {:induction false} FormMetaLine()
    ensures var path := "@/lib/form-field-meta";
            && Free(FORM_META_LINE, '\n') && LineExports(FORM_META_LINE) == Exports([], FORM_TYPES)
            && StatementIn(FORM_META_LINE) == [Statement(true, FORM_TYPES, path)]
  {
    FormTypesAreClean();
    assert Free("@/lib/form-field-meta", '\n') && Free("@/lib/form-field-meta", '"');
    ListsAreLines(FORM_TYPES, "@/lib/form-field-meta");
    LinesExport(FORM_TYPES, "@/lib/form-field-meta");
    LinesState(FORM_TYPES, "@/lib/form-field-meta");
  }

  lemma {:induction false} OwnOfAll(cs: seq<Component>)
    requires CleanComponents(cs)
    ensures forall c :: c in cs ==> FlatMap(VALUES_IN, ComponentLines(c)) == VALUES_OF(c)
    ensures forall c :: c in cs ==> FlatMap(TYPES_IN, ComponentLines(c)) == TYPES_OF(c)
  {
    forall c | c in cs
      ensures FlatMap(VALUES_IN, ComponentLines(c)) == VALUES_OF(c)
      ensures FlatMap(TYPES_IN, ComponentLines(c)) == TYPES_OF(c)
    {
      OwnExports(c);
    }
  }

  /** No directory name holds a quote. */
  predicate NoQuotes(cs: seq<Component>) {
    forall c :: c in cs ==> Free(c.dirName, '"')
  }

  lemma {:induction false} StatementsOfAll(cs: seq<Component>)
    requires CleanComponents(cs) && NoQuotes(cs)
    ensures forall c :: c in cs ==> FlatMap(STATEMENTS_IN, ComponentLines(c)) == STATEMENTS_OF(c)
  {
    forall c | c in cs
      ensures FlatMap(STATEMENTS_IN, ComponentLines(c)) == STATEMENTS_OF(c)
    {
      OwnStatements(c);
    }
  }

  lemma {:induction false} ValuesAreRead(header: string, cs: seq<Component>, le: Order, sections: seq<Section>)
    requires IsQuiet(header, sections) && CleanComponents(cs)
    ensures Read(VALUES_IN, Barrel(header, cs, le, sections))
         == FlatMap(VALUES_OF, Emission(Sorted(cs, le), sections))
            + if HasFormMeta(cs) then Read(VALUES_IN, FORM_META_LINE) else []
  {
    ReadersAreDiscerning();
    OwnOfAll(cs);
    BarrelIsRead(VALUES_IN, VALUES_OF, header, cs, le, sections);
  }

  lemma {:induction false} TypesAreRead(header: string, cs: seq<Component>, le: Order, sections: seq<Section>)
    requires IsQuiet(header, sections) && CleanComponents(cs)
    ensures Read(TYPES_IN, Barrel(header, cs, le, sections))
         == FlatMap(TYPES_OF, Emission(Sorted(cs, le), sections))
            + if HasFormMeta(cs) then Read(TYPES_IN, FORM_META_LINE) else []
  {
    ReadersAreDiscerning();
    OwnOfAll(cs);
    BarrelIsRead(TYPES_IN, TYPES_OF, header, cs, le, sections);
  }

  lemma {:induction false} StatementsAreRead(header: string, cs: seq<Component>, le: Order, sections: seq<Section>)
    requires IsQuiet(header, sections) && CleanComponents(cs) && NoQuotes(cs)
    ensures StatesAs(Barrel(header, cs, le, sections), Emission(Sorted(cs, le), sections), HasFormMeta(cs))
  {
    ReadersAreDiscerning();
    StatementsOfAll(cs);
    BarrelIsRead(STATEMENTS_IN, STATEMENTS_OF, header, cs, le, sections);
  }

  /** The text's values and types are these components', and the form types where the special case fires. */
  ghost predicate ReadsAs(text: string, written: seq<Component>, formMeta: bool) {
    && Read(VALUES_IN, text) == FlatMap(VALUES_OF, written) + (if formMeta then Read(VALUES_IN, FORM_META_LINE) else [])
    && Read(TYPES_IN, text) == FlatMap(TYPES_OF, written) + (if formMeta then Read(TYPES_IN, FORM_META_LINE) else [])
  }

  lemma {:induction false} BarrelReadsAs(header: string, cs: seq<Component>, le: Order, sections: seq<Section>)
    requires IsQuiet(header, sections) && CleanComponents(cs)
    ensures ReadsAs(Barrel(header, cs, le, sections), Emission(Sorted(cs, le), sections), HasFormMeta(cs))
  {
    ValuesAreRead(header, cs, le, sections);
    TypesAreRead(header, cs, le, sections);
  }

  lemma {:induction false} ExportsOfText(text: string, written: seq<Component>, formMeta: bool)
    requires ReadsAs(text, written, formMeta)
    ensures Exported(text)
         == Exports(FlatMap(VALUES_OF, written), FlatMap(TYPES_OF, written) + if formMeta then FORM_TYPES else [])
  {
    GatherIsRead(Split(text, '\n'));
    FormMetaLine();
    ReadLine(VALUES_IN, FORM_META_LINE);
    ReadLine(TYPES_IN, FORM_META_LINE);
  }

  lemma {:induction false} BarrelExports(header: string, cs: seq<Component>, le: Order, sections: seq<Section>)
    requires IsQuiet(header, sections) && CleanComponents(cs)
    ensures var written := Emission(Sorted(cs, le), sections);
            Exported(Barrel(header, cs, le, sections))
            == Exports(FlatMap(VALUES_OF, written),
                       FlatMap(TYPES_OF, written) + if HasFormMeta(cs) then FORM_TYPES else [])
  {
    BarrelReadsAs(header, cs, le, sections);
    ExportsOfText(Barrel(header, cs, le, sections), Emission(Sorted(cs, le), sections), HasFormMeta(cs));
  }

  /**
   Parsing the generated barrel gives exactly the components' values and types in
   emission order, and the three form types when the special case fires.
   */
  lemma {:induction false} BarrelRoundTrips(cs: seq<Component>, le: Order)
    requires CleanComponents(cs)
    ensures var written := Emission(Sorted(cs, le), SECTION_ORDER);
            Exported(Barrel(HEADER, cs, le, SECTION_ORDER))
            == Exports(FlatMap(VALUES_OF, written),
                       FlatMap(TYPES_OF, written) + if HasFormMeta(cs) then FORM_TYPES else [])
  {
    ScriptIsQuiet();
    BarrelExports(HEADER, cs, le, SECTION_ORDER);
  }

  /** What the special case adds. */
  const FORM_STATEMENT :=
    Statement(true, ["FormSchemaDefinition", "FormFieldMetaEntry", "FormSectionDef"], "@/lib/form-field-meta")

  ghost predicate StatesAs(text: string, written: seq<Component>, formMeta: bool) {
    Read(STATEMENTS_IN, text)
    == FlatMap(STATEMENTS_OF, written) + if formMeta then Read(STATEMENTS_IN, FORM_META_LINE) else []
  }

  lemma {:induction false} StatementsOfText(text: string, written: seq<Component>, formMeta: bool)
    requires StatesAs(text, written, formMeta)
    ensures Statements(text) == FlatMap(STATEMENTS_OF, written) + if formMeta then [FORM_STATEMENT] else []
  {
    FormMetaLine();
    ReadLine(STATEMENTS_IN, FORM_META_LINE);
  }

  lemma {:induction false} BarrelStatesOwn(header: string, cs: seq<Component>, le: Order, sections: seq<Section>)
    requires IsQuiet(header, sections) && CleanComponents(cs) && NoQuotes(cs)
    ensures Statements(Barrel(header, cs, le, sections))
         == FlatMap(STATEMENTS_OF, Emission(Sorted(cs, le), sections))
            + if HasFormMeta(cs) then [FORM_STATEMENT] else []
  {
    StatementsAreRead(header, cs, le, sections);
    StatementsOfText(Barrel(header, cs, le, sections), Emission(Sorted(cs, le), sections), HasFormMeta(cs));
  }

  /**
   Statement by statement: each component written exports its values and then its types, one
   statement for each list that is not empty, from "./" and its directory; the form types
   follow, from the library, when the special case fires.
   */
  lemma {:induction false} BarrelStates(cs: seq<Component>, le: Order)
    requires CleanComponents(cs) && NoQuotes(cs)
    ensures Statements(Barrel(HEADER, cs, le, SECTION_ORDER))
         == FlatMap(STATEMENTS_OF, Emission(Sorted(cs, le), SECTION_ORDER))
            + if HasFormMeta(cs) then [FORM_STATEMENT] else []
  {
    ScriptIsQuiet();
    BarrelStatesOwn(HEADER, cs, le, SECTION_ORDER);
  }

  lemma {:induction false} OwnPathsAreLocal(cs: seq<Component>)
    ensures FORM_STATEMENT !in FlatMap(STATEMENTS_OF, cs)
  {
    if cs != [] {
      var c := cs[|cs| - 1];
      OwnPathsAreLocal(cs[..|cs| - 1]);
      assert ("./" + c.dirName)[0] == '.' && FORM_STATEMENT.path[0] == '@';
    }
  }

  lemma {:induction false} SpecialIffFormMeta(own: seq<Statement>, all: seq<Statement>, formMeta: bool)
    requires FORM_STATEMENT !in own && all == own + if formMeta then [FORM_STATEMENT] else []
    ensures FORM_STATEMENT in all <==> formMeta
  {
  }

  /** The form types are re-exported exactly when the form directory exports the schema type. */
  lemma {:induction false} FormTypesAreAddedIff(cs: seq<Component>, le: Order)
    requires CleanComponents(cs) && NoQuotes(cs)
    ensures FORM_STATEMENT in Statements(Barrel(HEADER, cs, le, SECTION_ORDER)) <==>
            exists c :: c in cs && c.dirName == "form" && "FormSchemaDefinition" in c.types
  {
    var written := Emission(Sorted(cs, le), SECTION_ORDER);
    BarrelStates(cs, le);
    OwnPathsAreLocal(written);
    SpecialIffFormMeta(FlatMap(STATEMENTS_OF, written), Statements(Barrel(HEADER, cs, le, SECTION_ORDER)),
                       HasFormMeta(cs));
  }

  /** With distinct directory names every component's exports are in the barrel, each once. */
  lemma {:induction false} BarrelLosesNothing(cs: seq<Component>, le: Order)
    requires DistinctDirs(cs)
    ensures multiset(Emission(Sorted(cs, le), SECTION_ORDER)) == multiset(cs)
  {
    SortedPermutes(cs, le);
    PermutationKeepsDistinctDirs(cs, Sorted(cs, le));
    SectionOrderIsDistinct();
    EmittedOnceIff(Sorted(cs, le), SECTION_ORDER);
  }
}
