/** When repeating or reordering a write batch changes nothing. */
module WebhookRedelivery {
  import opened Wrappers
  import opened Collections
  import opened Employees
  import opened WebhookRuns
  import opened WebhookInvariants
  import opened WebhookConvergence

  // ── Order ──

  lemma {:induction false} PermutationIsReady(b: Backend, w: World, ps: seq<Payload>, qs: seq<Payload>)
    requires Ready(b, w, ps) && DistinctIds(ps) && multiset(ps) == multiset(qs)
    ensures Ready(b, w, qs) && DistinctIds(qs)
  {
    PermutationKeepsMembers(ps, qs);
    PermutationKeepsDistinct(ps, qs);
    forall i, j | 0 <= i < j < |qs|
      ensures qs[i].odooId != qs[j].odooId
    {
      assert qs[i] in ps && qs[j] in ps;
      var k :| 0 <= k < |ps| && ps[k] == qs[i];
      var l :| 0 <= l < |ps| && ps[l] == qs[j];
      assert k != l;
    }
  }

  lemma {:induction false} ForPermutation(ps: seq<Payload>, qs: seq<Payload>, ext: Option<string>)
    requires DistinctIds(ps) && DistinctIds(qs) && multiset(ps) == multiset(qs)
    ensures For(ps, ext) == For(qs, ext)
  {
    PermutationKeepsMembers(ps, qs);
    ForFinds(ps, ext);
    ForFinds(qs, ext);
    match For(ps, ext)
    case None =>
    case Some(p) => ForIs(qs, p);
  }

  lemma {:induction false} SameRowsAfterEither(
    b: Backend, w: World, v: World, u: World, ps: seq<Payload>, qs: seq<Payload>)
    requires DistinctIds(ps) && DistinctIds(qs) && multiset(ps) == multiset(qs)
    requires RowsSettle(b, w.rows, v.rows, ps) && RowsSettle(b, w.rows, u.rows, qs)
    ensures Roster(v.rows[..|w.rows|]) == Roster(u.rows[..|w.rows|])
  {
    forall i | 0 <= i < |w.rows|
      ensures View(v.rows[i]) == View(u.rows[i])
    {
      ForPermutation(ps, qs, w.rows[i].externalId);
    }
  }

  lemma {:induction false} RosterSplits(rows: seq<Employee>, n: nat)
    requires n <= |rows|
    ensures multiset(Roster(rows)) == multiset(Roster(rows[..n])) + multiset(Roster(rows[n..]))
  {
    assert Roster(rows) == Roster(rows[..n]) + Roster(rows[n..]);
  }

  /**
   Any order of a write batch ends in the same roster, row by row for the rows that
   were there, and publishes the same events, apart from their order.
   */
  lemma {:induction false} OrderDoesNotMatter(b: Backend, w: World, ps: seq<Payload>, qs: seq<Payload>)
    requires Ready(b, w, ps) && DistinctIds(ps) && multiset(ps) == multiset(qs)
    ensures var v, u := WriteBatch(b, w, ps), WriteBatch(b, w, qs);
            && |v.rows| >= |w.rows| && |u.rows| >= |w.rows|
            && Roster(v.rows[..|w.rows|]) == Roster(u.rows[..|w.rows|])
            && multiset(Roster(v.rows)) == multiset(Roster(u.rows))
            && multiset(Events(v.log)) == multiset(Events(u.log))
  {
    var v, u := WriteBatch(b, w, ps), WriteBatch(b, w, qs);
    PermutationIsReady(b, w, ps, qs);
    BatchIsPointwise(b, w, ps, ps);
    BatchIsPointwise(b, w, qs, qs);
    assert multiset(Roster(v.rows)) == multiset(Roster(u.rows)) by {
      SameRowsAfterEither(b, w, v, u, ps, qs);
      FlatMapPermutation(Adder(w.rows), ps, qs);
      RosterSplits(v.rows, |w.rows|);
      RosterSplits(u.rows, |w.rows|);
    }
    assert multiset(Events(v.log)) == multiset(Events(u.log)) by {
      FlatMapPermutation(Sayer(w.rows), ps, qs);
    }
    SameRowsAfterEither(b, w, v, u, ps, qs);
  }

  // ── Two newcomers: the PIN premise is exact ──

  lemma {:induction false} BatchOfTwo(b: Backend, w: World, p: Payload, q: Payload)
    ensures WriteBatch(b, w, [p, q]) == WriteStep(b, WriteStep(b, w, p), q)
  {
    assert [p, q][..1] == [p] && [p][..0] == [];
    assert WriteBatch(b, w, [p]) == WriteStep(b, w, p);
  }

  /** The payload names an unknown employee whose PIN is free. */
  predicate IsNewcomer(rows: seq<Employee>, p: Payload) {
    p.pin != "" && FindExternal(rows, ExternalId(p)) == |rows| && !PinTaken(rows, p.pin)
  }

  lemma {:induction false} NewcomerGetsIn(b: Backend, w: World, p: Payload)
    requires NoFaults(w) && IsNewcomer(w.rows, p)
    ensures var v := WriteStep(b, w, p);
            && NoFaults(v) && |v.rows| == |w.rows| + 1
            && v.rows[..|w.rows|] == w.rows && View(v.rows[|w.rows|]) == Newcomer(p)
  {
    assert !Fails(w.lookupFaults) && !Fails(w.writeFaults);
  }

  lemma {:induction false} TakenPinStaysOut(b: Backend, w: World, p: Payload)
    requires NoFaults(w) && b.uniquePins && FindExternal(w.rows, ExternalId(p)) == |w.rows| && PinTaken(w.rows, p.pin)
    ensures WriteStep(b, w, p).rows == w.rows
  {
    assert !Fails(w.lookupFaults);
  }

  /** Of two newcomers with one PIN only the first gets in. */
  lemma {:induction false} FirstTakesPin(b: Backend, w: World, p: Payload, q: Payload)
    requires NoFaults(w) && b.uniquePins && IsNewcomer(w.rows, p) && IsNewcomer(w.rows, q)
    requires p.odooId != q.odooId && p.pin == q.pin
    ensures Roster(WriteBatch(b, w, [p, q]).rows) == Roster(w.rows) + [Newcomer(p)]
  {
    var v := WriteStep(b, w, p);
    BatchOfTwo(b, w, p, q);
    NewcomerGetsIn(b, w, p);
    PinIsTakenBy(w.rows, v.rows, p, q);
    TakenPinStaysOut(b, v, q);
  }

  lemma {:induction false} PinIsTakenBy(rows: seq<Employee>, rows': seq<Employee>, p: Payload, q: Payload)
    requires |rows'| == |rows| + 1 && rows'[..|rows|] == rows && View(rows'[|rows|]) == Newcomer(p)
    requires p.odooId != q.odooId && p.pin == q.pin && FindExternal(rows, ExternalId(q)) == |rows|
    ensures FindExternal(rows', ExternalId(q)) == |rows'| && PinTaken(rows', q.pin)
    ensures Roster(rows') == Roster(rows) + [Newcomer(p)]
  {
    DecimalInjective(p.odooId, q.odooId);
    var n := |rows|;
    assert View(rows'[n]).externalId == rows'[n].externalId && View(rows'[n]).pin == rows'[n].pin && rows'[n] in rows';
    assert forall k :: 0 <= k < n ==> rows'[k] == rows[k];
  }

  /** In a store that enforces PINs two newcomers may come in either order exactly when their PINs differ. */
  lemma {:induction false} TwoNewcomersCommuteIff(b: Backend, w: World, p: Payload, q: Payload)
    requires WellFormed(w) && UniqueExternal(w.rows) && UniquePins(w.rows) && NoFaults(w) && b.uniquePins
    requires IsNewcomer(w.rows, p) && IsNewcomer(w.rows, q) && p.odooId != q.odooId
    ensures multiset(Roster(WriteBatch(b, w, [p, q]).rows)) == multiset(Roster(WriteBatch(b, w, [q, p]).rows))
            <==> p.pin != q.pin
  {
    if p.pin == q.pin {
      FirstTakesPin(b, w, p, q);
      FirstTakesPin(b, w, q, p);
      DecimalInjective(p.odooId, q.odooId);
      assert Newcomer(p) != Newcomer(q);
      assert multiset(Roster(w.rows) + [Newcomer(p)])[Newcomer(p)] == multiset(Roster(w.rows))[Newcomer(p)] + 1;
      assert multiset(Roster(w.rows) + [Newcomer(q)])[Newcomer(p)] == multiset(Roster(w.rows))[Newcomer(p)];
    } else {
      assert multiset([p, q]) == multiset{p, q} == multiset([q, p]);
      OrderDoesNotMatter(b, w, [p, q], [q, p]);
    }
  }

  // ── Repetition ──

  /** The payload has nothing to change in this table. */
  predicate Quiet(rows: seq<Employee>, p: Payload) {
    var i := FindExternal(rows, ExternalId(p));
    if i < |rows| then (p.active || !rows[i].active) && Merged(rows[i], p) == rows[i] else p.pin == ""
  }

  function Redeliver(b: Backend, w: World, ps: seq<Payload>, n: nat): World {
    if n == 0 then w else WriteBatch(b, Redeliver(b, w, ps, n - 1), ps)
  }

  /** Two worlds that differ at most in the scripts of storage faults. */
  predicate SameTableAndLog(w: World, v: World) {
    v.rows == w.rows && v.log == w.log
  }

  lemma {:induction false} QuietBatchChangesNothing(b: Backend, w: World, all: seq<Payload>, ps: seq<Payload>)
    requires Ready(b, w, all) && forall p :: p in ps ==> p in all && Quiet(w.rows, p)
    ensures SameTableAndLog(w, WriteBatch(b, w, ps))
  {
    if ps != [] {
      var k := |ps| - 1;
      QuietBatchChangesNothing(b, w, all, ps[..k]);
      BatchKeepsReady(b, w, all, ps[..k]);
      var v := WriteBatch(b, w, ps[..k]);
      var i := FindExternal(v.rows, ExternalId(ps[k]));
      if i < |v.rows| {
        StepOnKnown(b, v, all, ps[k], i);
      } else {
        StepOnUnknown(b, v, all, ps[k]);
      }
    }
  }

  lemma {:induction false} SilenceIsQuiet(rows: seq<Employee>, ps: seq<Payload>)
    requires FlatMap(Sayer(rows), ps) == []
    ensures forall p :: p in ps ==> Quiet(rows, p)
  {
    if ps != [] {
      var k := |ps| - 1;
      SilenceIsQuiet(rows, ps[..k]);
      assert Says(rows, ps[k]) == [];
      assert Quiet(rows, ps[k]);
      assert ps == ps[..k] + [ps[k]];
    }
  }

  /** A batch changes nothing exactly when every payload is quiet. */
  lemma {:induction false} FixedPointIff(b: Backend, w: World, ps: seq<Payload>)
    requires Ready(b, w, ps) && DistinctIds(ps)
    ensures SameTableAndLog(w, WriteBatch(b, w, ps)) <==> forall p :: p in ps ==> Quiet(w.rows, p)
  {
    BatchIsPointwise(b, w, ps, ps);
    if SameTableAndLog(w, WriteBatch(b, w, ps)) {
      assert |Events(w.log)| == |Events(w.log)| + |FlatMap(Sayer(w.rows), ps)|;
      SilenceIsQuiet(w.rows, ps);
    } else if forall p :: p in ps ==> Quiet(w.rows, p) {
      QuietBatchChangesNothing(b, w, ps, ps);
    }
  }

  lemma {:induction false} RedeliverIsReady(b: Backend, w: World, ps: seq<Payload>, n: nat)
    requires Ready(b, w, ps)
    ensures Ready(b, Redeliver(b, w, ps, n), ps)
  {
    if n > 0 {
      RedeliverIsReady(b, w, ps, n - 1);
      BatchKeepsReady(b, Redeliver(b, w, ps, n - 1), ps, ps);
    }
  }

  /** What one payload's row looks like after a delivery, in terms of the table before it. */
  lemma {:induction false} RowAfterDelivery(b: Backend, w: World, ps: seq<Payload>, p: Payload)
    requires Ready(b, w, ps) && DistinctIds(ps) && p in ps
    ensures var i, rows' := FindExternal(w.rows, ExternalId(p)), WriteBatch(b, w, ps).rows;
            var j := FindExternal(rows', ExternalId(p));
            if i < |w.rows| then j == i && i < |rows'| && View(rows'[i]) == View(After(b, w.rows[i], p))
            else if p.pin == "" then j == |rows'|
            else j < |rows'| && View(rows'[j]) == Newcomer(p)
  {
    var v := WriteBatch(b, w, ps);
    var ext := ExternalId(p);
    BatchIsPointwise(b, w, ps, ps);
    BatchKeepsReady(b, w, ps, ps);
    ForIs(ps, p);
    var i := FindExternal(w.rows, ext);
    if i < |w.rows| {
      RowWithExternal(v.rows, i, ext);
    } else {
      NewRowOf(b, w, v, ps, p);
    }
  }

  lemma {:induction false} NewRowOf(b: Backend, w: World, v: World, ps: seq<Payload>, p: Payload)
    requires Pointwise(b, w, v, ps) && UniqueExternal(v.rows) && DistinctIds(ps) && p in ps
    requires FindExternal(w.rows, ExternalId(p)) == |w.rows|
    ensures var j := FindExternal(v.rows, ExternalId(p));
            if p.pin == "" then j == |v.rows| else j < |v.rows| && View(v.rows[j]) == Newcomer(p)
  {
    var n := |w.rows|;
    if p.pin != "" {
      AddedByMember(Adder(w.rows), ps, p, Newcomer(p));
      var k :| 0 <= k < |Roster(v.rows[n..])| && Roster(v.rows[n..])[k] == Newcomer(p);
      assert v.rows[n + k].externalId == Some(ExternalId(p));
    }
    var j := FindExternal(v.rows, ExternalId(p));
    if j < |v.rows| {
      NewRowIsOwn(b, w, v, ps, p, j);
    }
  }

  lemma {:induction false} SettlingKeepsExternal(
    b: Backend, rows: seq<Employee>, rows': seq<Employee>, ps: seq<Payload>)
    requires RowsSettle(b, rows, rows', ps)
    ensures forall i :: 0 <= i < |rows| ==> rows'[i].externalId == rows[i].externalId
  {
    forall i | 0 <= i < |rows|
      ensures rows'[i].externalId == rows[i].externalId
    {
      assert View(rows'[i]) == ViewAfter(b, rows[i], ps);
    }
  }

  lemma {:induction false} NewRowIsOwn(b: Backend, w: World, v: World, ps: seq<Payload>, p: Payload, j: nat)
    requires Pointwise(b, w, v, ps) && DistinctIds(ps) && p in ps
    requires FindExternal(w.rows, ExternalId(p)) == |w.rows|
    requires j < |v.rows| && v.rows[j].externalId == Some(ExternalId(p))
    ensures p.pin != "" && View(v.rows[j]) == Newcomer(p)
  {
    var n := |w.rows|;
    SettlingKeepsExternal(b, w.rows, v.rows, ps);
    assert j >= n;
    var x := Roster(v.rows[n..])[j - n];
    assert x == View(v.rows[j]);
    var q := MemberAdds(w.rows, ps, x);
    DecimalInjective(p.odooId, q.odooId);
    assert q == p;
  }

  lemma {:induction false} MemberAdds(rows: seq<Employee>, ps: seq<Payload>, n: Profile) returns (p: Payload)
    requires n in FlatMap(Adder(rows), ps)
    ensures p in ps && n in Adds(rows, p)
  {
    var k := |ps| - 1;
    if n in Adds(rows, ps[k]) {
      p := ps[k];
    } else {
      p := MemberAdds(rows, ps[..k], n);
    }
  }

  lemma {:induction false} AddedByMember<A, B>(f: A -> seq<B>, xs: seq<A>, x: A, y: B)
    requires x in xs && y in f(x)
    ensures y in FlatMap(f, xs)
  {
    var k := |xs| - 1;
    if xs[k] != x {
      assert xs == xs[..k] + [xs[k]];
      AddedByMember(f, xs[..k], x, y);
    }
  }

  // ── A store of whole rows ──

  /** A first delivery leaves this payload nothing to do. */
  predicate OneIsEnough(rows: seq<Employee>, p: Payload) {
    var i := FindExternal(rows, ExternalId(p));
    if i < |rows| then p.active || !rows[i].active || Merged(rows[i], p) == rows[i]
    else p.active || p.pin == ""
  }

  lemma {:induction false} QuietAfterOne(b: Backend, w: World, ps: seq<Payload>, p: Payload)
    requires Ready(b, w, ps) && DistinctIds(ps) && p in ps && b.wholeRow
    ensures Quiet(WriteBatch(b, w, ps).rows, p) <==> OneIsEnough(w.rows, p)
  {
    RowAfterDelivery(b, w, ps, p);
  }

  /** One delivery reaches the fixed point exactly when every payload is done after one. */
  lemma {:induction false} OneDeliverySettlesIff(b: Backend, w: World, ps: seq<Payload>)
    requires Ready(b, w, ps) && DistinctIds(ps) && b.wholeRow
    ensures SameTableAndLog(Redeliver(b, w, ps, 1), Redeliver(b, w, ps, 2)) <==>
            forall p :: p in ps ==> OneIsEnough(w.rows, p)
  {
    var v := Redeliver(b, w, ps, 1);
    assert v == WriteBatch(b, Redeliver(b, w, ps, 0), ps);
    RedeliverIsReady(b, w, ps, 1);
    FixedPointIff(b, v, ps);
    forall p | p in ps
      ensures Quiet(v.rows, p) <==> OneIsEnough(w.rows, p)
    {
      QuietAfterOne(b, w, ps, p);
    }
  }

  lemma {:induction false} BatchOfOne(b: Backend, w: World, p: Payload)
    ensures WriteBatch(b, w, [p]) == WriteStep(b, w, p)
  {
    assert [p][..0] == [];
  }

  lemma {:induction false} AnnIsReady(b: Backend, p: Payload)
    requires p.odooId == 1 && p.pin == "7"
    ensures Ready(b, World([ANN], 1, 0, [], [], []), [p]) && DistinctIds([p])
    ensures FindExternal([ANN], ExternalId(p)) == 0
  {
  }

  /** A deactivation that also renames takes a second delivery for the name. */
  lemma {:induction false} RenameWaitsForSecondDelivery(b: Backend)
    requires b.wholeRow
    ensures var w, ps := World([ANN], 1, 0, [], [], []), [Payload(1, "Bea", "7", "", false)];
            var gone := [EmployeeDeactivated("7"), EmployeeRemoveRequested("7")];
            && Ready(b, w, ps) && DistinctIds(ps)
            && Events(Redeliver(b, w, ps, 1).log) == gone
            && Events(Redeliver(b, w, ps, 2).log) == gone + [EmployeeUpdated(0, "7", "Bea")]
  {
    var w, p := World([ANN], 1, 0, [], [], []), Payload(1, "Bea", "7", "", false);
    var v := Redeliver(b, w, [p], 1);
    assert "Ann"[0] != "Bea"[0];
    AnnIsReady(b, p);
    assert Redeliver(b, w, [p], 0) == w;
    BatchOfOne(b, w, p);
    StepOnKnown(b, w, [p], p, 0);
    StepKeepsReady(b, w, [p], p);
    RowWithExternal(v.rows, 0, ExternalId(p));
    BatchOfOne(b, v, p);
    StepOnKnown(b, v, [p], p, 0);
  }

  /** Two deliveries always reach it; from then on every delivery changes and announces nothing. */
  lemma {:induction false} TwoDeliveriesSettle(b: Backend, w: World, ps: seq<Payload>, n: nat)
    requires Ready(b, w, ps) && DistinctIds(ps) && b.wholeRow && n >= 2
    ensures SameTableAndLog(Redeliver(b, w, ps, 2), Redeliver(b, w, ps, n))
  {
    if n > 2 {
      TwoDeliveriesSettle(b, w, ps, n - 1);
      var v := Redeliver(b, w, ps, n - 1);
      RedeliverIsReady(b, w, ps, n - 1);
      forall p | p in ps
        ensures Quiet(v.rows, p)
      {
        QuietAfterTwo(b, w, ps, p);
      }
      FixedPointIff(b, v, ps);
    }
  }

  lemma {:induction false} QuietAfterTwo(b: Backend, w: World, ps: seq<Payload>, p: Payload)
    requires Ready(b, w, ps) && DistinctIds(ps) && p in ps && b.wholeRow
    ensures Quiet(Redeliver(b, w, ps, 2).rows, p)
  {
    var v := WriteBatch(b, w, ps);
    assert Redeliver(b, w, ps, 1) == v;
    BatchKeepsReady(b, w, ps, ps);
    RowAfterDelivery(b, w, ps, p);
    QuietAfterOne(b, v, ps, p);
  }

  // ── The shipped stores ──

  /**
   The payload asks for nothing that an update of these stores drops: no retirement
   of an active employee, and no other PIN than the row's.
   */
  predicate Storable(rows: seq<Employee>, p: Payload) {
    var i := FindExternal(rows, ExternalId(p));
    if i < |rows| then (p.active || !rows[i].active) && (p.pin == "" || p.pin == rows[i].pin)
    else p.active || p.pin == ""
  }

  lemma {:induction false} StorableAfterDelivery(b: Backend, w: World, ps: seq<Payload>, p: Payload)
    requires Ready(b, w, ps) && DistinctIds(ps) && p in ps && !b.wholeRow
    ensures Storable(WriteBatch(b, w, ps).rows, p) <==> Storable(w.rows, p)
    ensures Quiet(WriteBatch(b, w, ps).rows, p) <==> Storable(w.rows, p)
  {
    RowAfterDelivery(b, w, ps, p);
  }

  lemma {:induction false} StorableAfterDeliveries(b: Backend, w: World, ps: seq<Payload>, n: nat, p: Payload)
    requires Ready(b, w, ps) && DistinctIds(ps) && p in ps && !b.wholeRow
    ensures Storable(Redeliver(b, w, ps, n).rows, p) <==> Storable(w.rows, p)
    ensures n > 0 ==> (Quiet(Redeliver(b, w, ps, n).rows, p) <==> Storable(w.rows, p))
  {
    if n > 0 {
      StorableAfterDeliveries(b, w, ps, n - 1, p);
      RedeliverIsReady(b, w, ps, n - 1);
      StorableAfterDelivery(b, Redeliver(b, w, ps, n - 1), ps, p);
    }
  }

  /**
   With the shipped stores redelivery settles exactly when every payload is storable:
   then every delivery after the first is without effect, and otherwise every single
   one announces something again.
   */
  lemma {:induction false} ShippedRedeliverySettlesIff(b: Backend, w: World, ps: seq<Payload>, n: nat)
    requires Ready(b, w, ps) && DistinctIds(ps) && !b.wholeRow && n >= 1
    ensures SameTableAndLog(Redeliver(b, w, ps, n), Redeliver(b, w, ps, n + 1)) <==>
            forall p :: p in ps ==> Storable(w.rows, p)
  {
    var v := Redeliver(b, w, ps, n);
    RedeliverIsReady(b, w, ps, n);
    FixedPointIff(b, v, ps);
    forall p | p in ps
      ensures Quiet(v.rows, p) <==> Storable(w.rows, p)
    {
      StorableAfterDeliveries(b, w, ps, n, p);
    }
  }

  /** A shipped store announces the same deactivation with every delivery, and the row stays as it is. */
  lemma {:induction false} DeactivationRepeats(n: nat)
    ensures var w, ps := World([ANN], 1, 0, [], [], []), [Payload(1, "Ann", "7", "", false)];
            var v := Redeliver(SHIPPED, w, ps, n);
            && Ready(SHIPPED, w, ps) && DistinctIds(ps) && Ready(SHIPPED, v, ps)
            && Roster(v.rows) == Roster(w.rows) && |v.log| == 2 * n
  {
    var w, p := World([ANN], 1, 0, [], [], []), Payload(1, "Ann", "7", "", false);
    AnnIsReady(SHIPPED, p);
    if n > 0 {
      DeactivationRepeats(n - 1);
      var v := Redeliver(SHIPPED, w, [p], n - 1);
      assert View(v.rows[0]) == Roster(v.rows)[0] == Roster(w.rows)[0] == View(ANN);
      RowWithExternal(v.rows, 0, ExternalId(p));
      BatchOfOne(SHIPPED, v, p);
      StepOnKnown(SHIPPED, v, [p], p, 0);
      StepKeepsReady(SHIPPED, v, [p], p);
      assert |Events(WriteStep(SHIPPED, v, p).log)| == |Events(v.log)| + 2;
    }
  }
}
