/** What every run of deliveries keeps, with storage failures anywhere. */
module WebhookInvariants {
  import opened Wrappers
  import opened Employees
  import opened WebhookRuns

  // ── The table only grows, and rows keep their identity ──

  /** No row is lost or moved; identity and external id stay; nobody comes back to life. */
  ghost predicate Evolves(b: Backend, before: seq<Employee>, after: seq<Employee>) {
    && |before| <= |after|
    && forall i :: 0 <= i < |before| ==> RowEvolves(b, before[i], after[i])
  }

  predicate RowEvolves(b: Backend, r: Employee, r': Employee) {
    && r'.id == r.id
    && r'.externalId == r.externalId
    && (r'.active ==> r.active)
    && (!b.wholeRow ==> r'.pin == r.pin && r'.active == r.active)
  }

  /** Rows whose external id is not among `names` are the same; added rows carry one of `names`. */
  ghost predicate OnlyNamed(before: seq<Employee>, after: seq<Employee>, names: set<string>) {
    && |before| <= |after|
    && (forall i :: 0 <= i < |before| ==>
         after[i] == before[i] || (before[i].externalId.Some? && before[i].externalId.value in names))
    && (forall i :: |before| <= i < |after| ==>
         after[i].externalId.Some? && after[i].externalId.value in names)
  }

  function NamesOf(js: seq<Job>): set<string> {
    set j | j in js :: Named(j)
  }

  lemma {:induction false} MoveEvolves(b: Backend, w: World, w': World, ext: string, m: Move)
    requires WellFormed(w) && MovesBy(b, w, w', ext, m)
    ensures WellFormed(w')
    ensures Evolves(b, w.rows, w'.rows)
    ensures OnlyNamed(w.rows, w'.rows, {ext})
    ensures w.log <= w'.log
  {
  }

  lemma {:induction false} NamesOfLast(js: seq<Job>)
    requires js != []
    ensures NamesOf(js) == NamesOf(js[..|js| - 1]) + {Named(js[|js| - 1])}
  {
    assert js == js[..|js| - 1] + [js[|js| - 1]];
  }

  /** One more job after a run. */
  lemma {:induction false} JobEvolves(b: Backend, w: World, v: World, j: Job, names: set<string>)
    requires WellFormed(v) && Evolves(b, w.rows, v.rows) && OnlyNamed(w.rows, v.rows, names) && w.log <= v.log
    ensures var u := Do(b, v, j);
            && WellFormed(u) && Evolves(b, w.rows, u.rows)
            && OnlyNamed(w.rows, u.rows, names + {Named(j)}) && w.log <= u.log
  {
    var m := JobMoves(b, v, j);
    var u := Do(b, v, j);
    MoveEvolves(b, v, u, Named(j), m);
    EvolvesTransitive(b, w.rows, v.rows, u.rows);
    OnlyNamedTransitive(b, w.rows, v.rows, u.rows, names, {Named(j)});
  }

  lemma {:induction false} DoAllEvolves(b: Backend, w: World, js: seq<Job>)
    requires WellFormed(w)
    ensures WellFormed(DoAll(b, w, js))
    ensures Evolves(b, w.rows, DoAll(b, w, js).rows)
    ensures OnlyNamed(w.rows, DoAll(b, w, js).rows, NamesOf(js))
    ensures w.log <= DoAll(b, w, js).log
  {
    if js != [] {
      var n := |js| - 1;
      DoAllEvolves(b, w, js[..n]);
      JobEvolves(b, w, DoAll(b, w, js[..n]), js[n], NamesOf(js[..n]));
      NamesOfLast(js);
    }
  }

  lemma {:induction false} EvolvesTransitive(b: Backend, r0: seq<Employee>, r1: seq<Employee>, r2: seq<Employee>)
    requires Evolves(b, r0, r1) && Evolves(b, r1, r2)
    ensures Evolves(b, r0, r2)
  {
    forall i | 0 <= i < |r0|
      ensures RowEvolves(b, r0[i], r2[i])
    {
      assert RowEvolves(b, r0[i], r1[i]) && RowEvolves(b, r1[i], r2[i]);
    }
  }

  lemma {:induction false} OnlyNamedTransitive(
    b: Backend, r0: seq<Employee>, r1: seq<Employee>, r2: seq<Employee>, a: set<string>, c: set<string>)
    requires OnlyNamed(r0, r1, a) && OnlyNamed(r1, r2, c) && Evolves(b, r0, r1) && Evolves(b, r1, r2)
    ensures OnlyNamed(r0, r2, a + c)
  {
  }

  /** Over every run: nothing is deleted, no inactive employee is active again, ids and external ids stay. */
  lemma {:induction false} RunsNeverReactivate(b: Backend, w: World, ds: seq<Delivery>)
    requires WellFormed(w)
    ensures WellFormed(Run(b, w, ds))
    ensures Evolves(b, w.rows, Run(b, w, ds).rows)
  {
    RunIsJobs(b, w, ds);
    DoAllEvolves(b, w, AllJobs(ds));
  }

  /** A delivery leaves every row whose external id it does not name exactly as it was. */
  lemma {:induction false} DeliveriesTouchOnlyNamedRows(b: Backend, w: World, d: Delivery)
    requires WellFormed(w)
    ensures OnlyNamed(w.rows, Deliver(b, w, d).rows, NamesOf(Jobs(d)))
    ensures d.Unlink? || d.Unknown? ==> Deliver(b, w, d).rows == w.rows
  {
    DeliveryIsJobs(b, w, d);
    DoAllEvolves(b, w, Jobs(d));
    if d.Unlink? {
      UnlinkAnnouncesOnly(w, d.ids);
    }
  }

  /**
   In the shipped stores an update stores neither PIN nor active flag, so no run of
   deliveries ever changes either in an existing row: a webhook deactivation is
   announced but does not take effect.
   */
  lemma {:induction false} ShippedStoreKeepsPinAndFlag(uniquePins: bool, w: World, ds: seq<Delivery>, i: nat)
    requires WellFormed(w) && i < |w.rows|
    ensures var after := Run(Backend(uniquePins, false), w, ds).rows;
            |after| > i && after[i].pin == w.rows[i].pin && after[i].active == w.rows[i].active
  {
    var b := Backend(uniquePins, false);
    RunsNeverReactivate(b, w, ds);
    assert RowEvolves(b, w.rows[i], Run(b, w, ds).rows[i]);
  }

  // ── Unlink announces and writes nothing ──

  /** The announcements of one unlinked id. */
  function Pair(table: seq<Employee>, odooId: int): seq<Publication> {
    var i := FindExternal(table, Decimal(odooId));
    if i == |table| then []
    else [Publication(EmployeeRemoveRequested(table[i].pin), table),
          Publication(EmployeeDeactivated(table[i].pin), table)]
  }

  function Pairs(table: seq<Employee>, ids: seq<int>): seq<Publication> {
    if ids == [] then [] else Pairs(table, ids[..|ids| - 1]) + Pair(table, ids[|ids| - 1])
  }

  ghost predicate LookupsSucceed(w: World) {
    true !in w.lookupFaults
  }

  /** An unlink delivery writes no row, and publishes the remove/deactivate pair of each id it finds. */
  lemma {:induction false} UnlinkAnnouncesOnly(w: World, ids: seq<int>)
    ensures UnlinkBatch(w, ids).rows == w.rows
    ensures LookupsSucceed(w) ==> LookupsSucceed(UnlinkBatch(w, ids))
    ensures LookupsSucceed(w) ==> UnlinkBatch(w, ids).log == w.log + Pairs(w.rows, ids)
  {
    if ids != [] {
      UnlinkAnnouncesOnly(w, ids[..|ids| - 1]);
      var v := UnlinkBatch(w, ids[..|ids| - 1]);
      if LookupsSucceed(w) {
        assert !Fails(v.lookupFaults);
      }
    }
  }

  // ── External ids stay unique ──

  ghost predicate UniqueExternal(rows: seq<Employee>) {
    forall i, j :: 0 <= i < j < |rows| && rows[i].externalId.Some? ==> rows[i].externalId != rows[j].externalId
  }

  ghost predicate UniquePins(rows: seq<Employee>) {
    forall i, j :: 0 <= i < j < |rows| ==> rows[i].pin != rows[j].pin
  }

  lemma {:induction false} MoveKeepsUnique(b: Backend, w: World, w': World, ext: string, m: Move)
    requires WellFormed(w) && MovesBy(b, w, w', ext, m)
    ensures UniqueExternal(w.rows) && !Fails(w.lookupFaults) ==> UniqueExternal(w'.rows)
    ensures UniquePins(w.rows) && b.uniquePins ==> UniquePins(w'.rows)
  {
    if m.Edit? && b.wholeRow && b.uniquePins && UniquePins(w.rows) {
      assert forall k :: 0 <= k < |w.rows| && k != m.i ==> w.rows[k].id != m.row.id;
    }
  }

  lemma {:induction false} DoAllKeepsUnique(b: Backend, w: World, js: seq<Job>)
    requires WellFormed(w)
    ensures LookupsSucceed(w) ==> LookupsSucceed(DoAll(b, w, js))
    ensures UniqueExternal(w.rows) && LookupsSucceed(w) ==> UniqueExternal(DoAll(b, w, js).rows)
    ensures UniquePins(w.rows) && b.uniquePins ==> UniquePins(DoAll(b, w, js).rows)
  {
    if js != [] {
      var n := |js| - 1;
      DoAllKeepsUnique(b, w, js[..n]);
      DoAllEvolves(b, w, js[..n]);
      var v := DoAll(b, w, js[..n]);
      var m := JobMoves(b, v, js[n]);
      MoveKeepsUnique(b, v, DoAll(b, w, js), Named(js[n]), m);
    }
  }

  /** Over every run whose lookups succeed no external id gets two rows, whatever writes fail. */
  lemma {:induction false} RunsKeepExternalIdsUnique(b: Backend, w: World, ds: seq<Delivery>)
    requires WellFormed(w) && UniqueExternal(w.rows) && LookupsSucceed(w)
    ensures UniqueExternal(Run(b, w, ds).rows)
  {
    RunIsJobs(b, w, ds);
    DoAllKeepsUnique(b, w, AllJobs(ds));
  }

  /** A store that refuses taken PINs keeps them unique, whatever calls fail. */
  lemma {:induction false} RunsKeepPinsUnique(b: Backend, w: World, ds: seq<Delivery>)
    requires WellFormed(w) && UniquePins(w.rows) && b.uniquePins
    ensures UniquePins(Run(b, w, ds).rows)
  {
    RunIsJobs(b, w, ds);
    DoAllKeepsUnique(b, w, AllJobs(ds));
  }

  /**
   A create step gives an external id a second row exactly when its lookup fails (a
   failed lookup is taken for "not synced yet"), the id is in the table already, and
   the store accepts the row.
   */
  lemma {:induction false} CreateStepKeepsUniqueIff(b: Backend, w: World, p: Payload)
    requires UniqueExternal(w.rows)
    ensures UniqueExternal(CreateStep(b, w, p).rows) <==>
            !(&& p.pin != ""
              && Fails(w.lookupFaults)
              && FindExternal(w.rows, ExternalId(p)) < |w.rows|
              && !Fails(w.writeFaults)
              && !(b.uniquePins && PinTaken(w.rows, p.pin)))
  {
    var w' := CreateStep(b, w, p);
    var i := FindExternal(w.rows, ExternalId(p));
    if i < |w.rows| && |w'.rows| == |w.rows| + 1 {
      assert w'.rows[i].externalId == w'.rows[|w.rows|].externalId;
    }
  }

  /** An employee with the Odoo id 1. */
  const ANN := Employee(0, "7", "Ann", None, Some(Decimal(1)), true, 0)

  /** A failed lookup lets a known employee in again, under another PIN. */
  lemma {:induction false} FailedLookupDuplicates()
    ensures var w := World([ANN], 1, 0, [true], [], []);
            var p := Payload(1, "Ann", "8", "", true);
            WellFormed(w) && UniqueExternal(w.rows) && !UniqueExternal(CreateStep(SHIPPED, w, p).rows)
  {
    var w := World([ANN], 1, 0, [true], [], []);
    var p := Payload(1, "Ann", "8", "", true);
    assert "7"[0] != "8"[0];
    assert !PinTaken(w.rows, "8");
    var rows := CreateStep(SHIPPED, w, p).rows;
    assert |rows| == 2 && rows[0].externalId == rows[1].externalId == Some(Decimal(1));
  }

  // ── Conservation ──

  function ActiveCount(rows: seq<Employee>): int {
    if rows == [] then 0
    else ActiveCount(rows[..|rows| - 1]) + if rows[|rows| - 1].active then 1 else 0
  }

  lemma {:induction false} ActiveCountUpdate(rows: seq<Employee>, i: nat, e: Employee)
    requires i < |rows|
    ensures ActiveCount(rows[i := e]) ==
            ActiveCount(rows) - (if rows[i].active then 1 else 0) + (if e.active then 1 else 0)
  {
    var n := |rows| - 1;
    if i == n {
      assert rows[i := e][..n] == rows[..n];
    } else {
      ActiveCountUpdate(rows[..n], i, e);
      assert rows[i := e][..n] == rows[..n][i := e];
    }
  }

  /**
   The books of a create or write delivery: rows added are creations announced, and
   the change in active employees is creations minus deactivations, where only a
   store of whole rows carries a deactivation out.
   */
  ghost predicate Balanced(b: Backend, w: World, w': World) {
    var t, t' := TallyOf(w.log), TallyOf(w'.log);
    && |w'.rows| - |w.rows| == t'.created - t.created
    && ActiveCount(w'.rows) - ActiveCount(w.rows)
       == t'.created - t.created - (if b.wholeRow then t'.deactivated - t.deactivated else 0)
    && t'.deactivated - t.deactivated == t'.removed - t.removed
  }

  lemma {:induction false} MoveBalances(b: Backend, w: World, w': World, ext: string, m: Move)
    requires MovesBy(b, w, w', ext, m) && !m.Drop?
    ensures Balanced(b, w, w')
  {
    match m
    case Stay =>
      assert w.log + [] == w.log;
    case Add(e) =>
      assert w'.rows[..|w.rows|] == w.rows;
      TallyPublished(w.log, News(b, w.rows, m)[0]);
    case Retire(i, e) =>
      ActiveCountUpdate(w.rows, i, Stored(b, w.rows[i], e));
      var news := News(b, w.rows, m);
      TallyPublished(w.log, news[0]);
      TallyPublished(w.log + [news[0]], news[1]);
      assert w.log + news == w.log + [news[0]] + [news[1]];
    case Edit(i, e) =>
      ActiveCountUpdate(w.rows, i, Stored(b, w.rows[i], e));
      TallyPublished(w.log, News(b, w.rows, m)[0]);
  }

  lemma {:induction false} DoAllBalances(b: Backend, w: World, js: seq<Job>)
    requires WellFormed(w) && forall j :: j in js ==> !j.UnlinkJob?
    ensures Balanced(b, w, DoAll(b, w, js))
  {
    if js != [] {
      var n := |js| - 1;
      DoAllBalances(b, w, js[..n]);
      DoAllEvolves(b, w, js[..n]);
      var m := JobMoves(b, DoAll(b, w, js[..n]), js[n]);
      MoveBalances(b, DoAll(b, w, js[..n]), DoAll(b, w, js), Named(js[n]), m);
    }
  }

  /** Conservation, per create or write delivery, with failures allowed anywhere. */
  lemma {:induction false} DeliveriesBalance(b: Backend, w: World, d: Delivery)
    requires WellFormed(w) && !d.Unlink?
    ensures Balanced(b, w, Deliver(b, w, d))
  {
    DeliveryIsJobs(b, w, d);
    DoAllBalances(b, w, Jobs(d));
  }

  // ── Publish after commit ──

  /** The table at the moment of publication already shows what the event says. */
  predicate Backed(p: Publication) {
    match p.event
    case EmployeeCreated(pin, name) => exists r :: r in p.table && r.pin == pin && r.name == name && r.active
    case EmployeeUpdated(id, pin, name) => exists r :: r in p.table && r.id == id && r.pin == pin && r.name == name
    case EmployeeDeactivated(pin) => exists r :: r in p.table && r.pin == pin && !r.active
    case EmployeeRemoveRequested(pin) => exists r :: r in p.table && r.pin == pin && !r.active
  }

  lemma {:induction false} MoveIsBacked(b: Backend, w: World, w': World, ext: string, m: Move)
    requires MovesBy(b, w, w', ext, m) && !m.Drop?
    requires b.wholeRow || m.Add? || m.Stay?
    ensures forall k :: |w.log| <= k < |w'.log| ==> Backed(w'.log[k]) && w'.log[k].table == w'.rows
  {
    match m
    case Stay =>
    case Add(e) => assert w'.rows[|w.rows|] == e;
    case Retire(i, e) => assert w'.rows[i] == e;
    case Edit(i, e) => assert w'.rows[i] == e;
  }

  lemma {:induction false} DoAllIsBacked(b: Backend, w: World, js: seq<Job>, k: nat)
    requires WellFormed(w) && forall j :: j in js ==> j.CreateJob? || (j.WriteJob? && b.wholeRow)
    requires |w.log| <= k < |DoAll(b, w, js).log|
    ensures Backed(DoAll(b, w, js).log[k])
  {
    if js != [] {
      var n := |js| - 1;
      DoAllEvolves(b, w, js[..n]);
      var v := DoAll(b, w, js[..n]);
      assert js[n] in js;
      var m := JobMoves(b, v, js[n]);
      if k < |v.log| {
        DoAllIsBacked(b, w, js[..n], k);
      } else {
        MoveIsBacked(b, v, DoAll(b, w, js), Named(js[n]), m);
      }
    }
  }

  /**
   Every event of a create delivery is backed by the table when it is published, whatever
   the store; so is every event of a write delivery in a store of whole rows.
   */
  lemma {:induction false} EventsFollowCommits(b: Backend, w: World, d: Delivery, k: nat)
    requires WellFormed(w) && !d.Unlink? && (d.Write? ==> b.wholeRow)
    requires |w.log| <= k < |Deliver(b, w, d).log|
    ensures Backed(Deliver(b, w, d).log[k])
  {
    DeliveryIsJobs(b, w, d);
    DoAllIsBacked(b, w, Jobs(d), k);
  }

  lemma {:induction false} ShippedRetirementIsUnbacked(w: World, w': World, ext: string, m: Move, k: nat)
    requires UniquePins(w.rows) && MovesBy(SHIPPED, w, w', ext, m) && m.Retire?
    requires |w.log| <= k < |w'.log|
    ensures !Backed(w'.log[k])
  {
    assert w'.log[k].event in [EmployeeDeactivated(w.rows[m.i].pin), EmployeeRemoveRequested(w.rows[m.i].pin)];
    assert w'.rows[m.i].active;
    forall r | r in w'.rows && r.pin == w.rows[m.i].pin
      ensures r.active
    {
      var j :| 0 <= j < |w'.rows| && w'.rows[j] == r;
      assert w.rows[j].pin == w.rows[m.i].pin;
      assert j == m.i;
    }
  }

  lemma {:induction false} ShippedEditIsBackedIff(w: World, w': World, ext: string, m: Move, k: nat)
    requires WellFormed(w) && MovesBy(SHIPPED, w, w', ext, m) && m.Edit?
    requires |w.log| <= k < |w'.log|
    ensures Backed(w'.log[k]) <==> m.row.pin == w.rows[m.i].pin
  {
    assert w'.log[k].event == EmployeeUpdated(m.row.id, m.row.pin, m.row.name);
    var row := w'.rows[m.i];
    forall r | r in w'.rows && r.id == m.row.id
      ensures r == row
    {
      var j :| 0 <= j < |w'.rows| && w'.rows[j] == r;
      assert w.rows[j].id == w.rows[m.i].id;
      assert j == m.i;
    }
  }

  /** If the payload's employee is known, it is not retired and keeps its PIN. */
  predicate KeepsFlagAndPin(rows: seq<Employee>, p: Payload) {
    var i := FindExternal(rows, ExternalId(p));
    i == |rows| || ((p.active || !rows[i].active) && (p.pin == "" || p.pin == rows[i].pin))
  }

  /**
   In the shipped stores an event of a write step is backed exactly when the step did
   not have to store a flag or a PIN: creations are, deactivations never are, and an
   update is when the payload names no other PIN than the row's.
   */
  lemma {:induction false} ShippedEventsFollowCommitsIff(w: World, p: Payload, k: nat)
    requires WellFormed(w) && UniquePins(w.rows)
    requires |w.log| <= k < |WriteStep(SHIPPED, w, p).log|
    ensures Backed(WriteStep(SHIPPED, w, p).log[k]) <==> KeepsFlagAndPin(w.rows, p)
  {
    var w' := WriteStep(SHIPPED, w, p);
    var i := FindExternal(w.rows, ExternalId(p));
    if i == |w.rows| {
      var m := CreateMoves(SHIPPED, w, p);
      MoveIsBacked(SHIPPED, w, w', ExternalId(p), m);
    } else {
      FindOwnId(w, i);
      var m := FoundMoves(SHIPPED, w, p, i);
      if m.Retire? {
        ShippedRetirementIsUnbacked(w, w', ExternalId(p), m, k);
      } else {
        ShippedEditIsBackedIff(w, w', ExternalId(p), m, k);
      }
    }
  }

  /** A shipped store announces the retirement of a row that stays active. */
  lemma {:induction false} ShippedRetirementIsOnlyAnnounced()
    ensures var w := World([ANN], 1, 0, [], [], []);
            var w' := WriteStep(SHIPPED, w, Payload(1, "Ann", "7", "", false));
            && WellFormed(w) && UniquePins(w.rows)
            && w'.log != [] && w'.log[0].event == EmployeeDeactivated("7") && !Backed(w'.log[0])
  {
    var w, p := World([ANN], 1, 0, [], [], []), Payload(1, "Ann", "7", "", false);
    FindOwnId(w, 0);
    assert FindExternal(w.rows, ExternalId(p)) == 0;
    ShippedEventsFollowCommitsIff(w, p, 0);
  }
}
