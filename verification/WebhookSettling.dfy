/**
 Redelivery of a write batch whose PINs may clash, to a store of whole rows. A refused
 payload waits for its PIN, so how many deliveries it takes depends on the batch; each one
 that does anything pays off a part of what the batch still owes the table.
 */
module WebhookSettling {
  import opened Wrappers
  import opened Employees
  import opened WebhookRuns
  import opened WebhookInvariants
  import opened WebhookConvergence
  import opened WebhookRedelivery
  import opened WebhookCommits

  /** How many accepted steps a payload takes until it has nothing to change. */
  function Owes(rows: seq<Employee>, p: Payload): nat {
    var i := FindExternal(rows, ExternalId(p));
    if i < |rows| then (if !p.active && rows[i].active then 1 else 0) + (if Merged(rows[i], p) != rows[i] then 1 else 0)
    else if p.pin == "" then 0
    else if p.active then 1
    else 2
  }

  function Owed(rows: seq<Employee>, ps: seq<Payload>): nat {
    if ps == [] then 0 else Owed(rows, ps[..|ps| - 1]) + Owes(rows, ps[|ps| - 1])
  }

  lemma {:induction false} OwedIsBounded(rows: seq<Employee>, ps: seq<Payload>)
    ensures Owed(rows, ps) <= 2 * |ps|
  {
    if ps != [] {
      OwedIsBounded(rows, ps[..|ps| - 1]);
    }
  }

  // ── One step ──

  lemma {:induction false} SameExternal(rows: seq<Employee>, i: nat, e: Employee, ext: string)
    requires i < |rows| && e.externalId == rows[i].externalId
    ensures FindExternal(rows[i := e], ext) == FindExternal(rows, ext)
  {
    var rows' := rows[i := e];
    assert forall n :: 0 <= n < |rows| ==> rows'[n].externalId == rows[n].externalId;
  }

  lemma {:induction false} RetirementPays(rows: seq<Employee>, p: Payload, i: nat, clock: int)
    requires i == FindExternal(rows, ExternalId(p)) < |rows| && !p.active && rows[i].active
    ensures Owes(rows[i := rows[i].(active := false, updatedAt := clock)], p) < Owes(rows, p)
  {
    var e := rows[i].(active := false, updatedAt := clock);
    SameExternal(rows, i, e, ExternalId(p));
    assert Merged(e, p) == Merged(rows[i], p).(active := false, updatedAt := clock);
  }

  lemma {:induction false} EditPays(rows: seq<Employee>, p: Payload, i: nat, clock: int)
    requires i == FindExternal(rows, ExternalId(p)) < |rows| && (p.active || !rows[i].active)
    requires Merged(rows[i], p) != rows[i]
    ensures Owes(rows[i := Merged(rows[i], p).(updatedAt := clock)], p) < Owes(rows, p)
  {
    var e := Merged(rows[i], p).(updatedAt := clock);
    SameExternal(rows, i, e, ExternalId(p));
    assert Merged(e, p) == e;
  }

  lemma {:induction false} CreationPays(w: World, p: Payload)
    requires FindExternal(w.rows, ExternalId(p)) == |w.rows| && p.pin != ""
    ensures Owes(w.rows + [NewEmployee(w, p)], p) < Owes(w.rows, p)
  {
    var e := NewEmployee(w, p);
    var rows' := w.rows + [e];
    var i := FindExternal(rows', ExternalId(p));
    assert rows'[|w.rows|] == e;
    assert forall k :: 0 <= k < |w.rows| ==> rows'[k] == w.rows[k];
    assert i == |w.rows|;
    assert Merged(e, p) == e;
  }

  /** Whether the store takes what the payload asks for; the clock and the coming id do not matter. */
  predicate IsTaken(b: Backend, rows: seq<Employee>, p: Payload) {
    var i := FindExternal(rows, ExternalId(p));
    if i == |rows| then p.pin != "" && !(b.uniquePins && PinTaken(rows, p.pin))
    else
      var e := if !p.active && rows[i].active then rows[i] else Merged(rows[i], p);
      && (e != rows[i] || (!p.active && rows[i].active))
      && !(b.uniquePins && PinTakenByOther(rows, e.pin, e.id))
  }

  lemma {:induction false} KnownStep(b: Backend, w: World, p: Payload)
    requires b.wholeRow && WellFormed(w) && NoFaults(w) && FindExternal(w.rows, ExternalId(p)) < |w.rows|
    ensures var w' := WriteStep(b, w, p);
            if IsTaken(b, w.rows, p) then w'.log != w.log && Owes(w'.rows, p) < Owes(w.rows, p)
            else SameTableAndLog(w, w')
  {
    var i := FindExternal(w.rows, ExternalId(p));
    assert !Fails(w.lookupFaults) && !Fails(w.writeFaults);
    FindOwnId(w, i);
    if !p.active && w.rows[i].active {
      RetirementPays(w.rows, p, i, w.clock);
    } else if Merged(w.rows[i], p) != w.rows[i] {
      EditPays(w.rows, p, i, w.clock);
    }
  }

  lemma {:induction false} UnknownStep(b: Backend, w: World, p: Payload)
    requires NoFaults(w) && FindExternal(w.rows, ExternalId(p)) == |w.rows|
    ensures var w' := WriteStep(b, w, p);
            if IsTaken(b, w.rows, p) then w'.log != w.log && Owes(w'.rows, p) < Owes(w.rows, p)
            else SameTableAndLog(w, w')
  {
    assert !Fails(w.lookupFaults) && !Fails(w.writeFaults);
    if p.pin != "" { CreationPays(AfterLookUp(w), p); }
  }

  lemma {:induction false} StepPays(b: Backend, w: World, p: Payload)
    requires b.wholeRow && WellFormed(w) && NoFaults(w)
    ensures var w' := WriteStep(b, w, p);
            if IsTaken(b, w.rows, p) then w'.log != w.log && Owes(w'.rows, p) < Owes(w.rows, p)
            else SameTableAndLog(w, w')
  {
    if FindExternal(w.rows, ExternalId(p)) < |w.rows| { KnownStep(b, w, p); } else { UnknownStep(b, w, p); }
  }

  /** A payload owes the same after a step on another employee. */
  lemma {:induction false} OthersOweTheSame(b: Backend, w: World, p: Payload, q: Payload)
    requires WellFormed(w) && p.odooId != q.odooId
    ensures Owes(WriteStep(b, w, p).rows, q) == Owes(w.rows, q)
  {
    var w' := WriteStep(b, w, p);
    var m := JobMoves(b, w, WriteJob(p));
    MoveEvolves(b, w, w', ExternalId(p), m);
    DecimalInjective(p.odooId, q.odooId);
    RowStaysFor(b, w.rows, w'.rows, ExternalId(p), ExternalId(q));
  }

  lemma {:induction false} RowStaysFor(
    b: Backend, rows: seq<Employee>, rows': seq<Employee>, ext: string, other: string)
    requires Evolves(b, rows, rows') && OnlyNamed(rows, rows', {ext}) && other != ext
    ensures var i, j := FindExternal(rows, other), FindExternal(rows', other);
            if i < |rows| then j == i && rows'[i] == rows[i] else j == |rows'|
  {
    var i, j := FindExternal(rows, other), FindExternal(rows', other);
    assert forall k :: 0 <= k < |rows| ==> RowEvolves(b, rows[k], rows'[k]);
    if i < |rows| {
      assert rows'[i].externalId == Some(other);
      assert j <= i;
      assert rows[j].externalId == rows'[j].externalId;
    }
  }

  // ── One delivery ──

  lemma {:induction false} OthersOwed(b: Backend, w: World, ps: seq<Payload>, p: Payload)
    requires WellFormed(w) && forall q :: q in ps ==> q.odooId != p.odooId
    ensures Owed(WriteStep(b, w, p).rows, ps) == Owed(w.rows, ps)
  {
    if ps != [] {
      OthersOwed(b, w, ps[..|ps| - 1], p);
      OthersOweTheSame(b, w, p, ps[|ps| - 1]);
    }
  }

  lemma {:induction false} OwedAfterStep(b: Backend, w: World, ps: seq<Payload>, p: Payload)
    requires b.wholeRow && WellFormed(w) && NoFaults(w) && DistinctIds(ps) && p in ps && IsTaken(b, w.rows, p)
    ensures Owed(WriteStep(b, w, p).rows, ps) < Owed(w.rows, ps)
  {
    var k := |ps| - 1;
    if ps[k] == p {
      StepPays(b, w, p);
      OthersOwed(b, w, ps[..k], p);
    } else {
      assert ps == ps[..k] + [ps[k]];
      OwedAfterStep(b, w, ps[..k], p);
      OthersOweTheSame(b, w, p, ps[k]);
    }
  }

  /** A delivery changes and announces nothing, or the batch owes less after it. */
  ghost predicate Pays(w: World, v: World, all: seq<Payload>) {
    SameTableAndLog(w, v) || Owed(v.rows, all) < Owed(w.rows, all)
  }

  lemma {:induction false} StepIsFine(b: Backend, w: World, all: seq<Payload>, p: Payload)
    requires b.wholeRow && WellFormed(w) && NoFaults(w) && DistinctIds(all) && p in all
    ensures var w' := WriteStep(b, w, p);
            WellFormed(w') && NoFaults(w') && Pays(w, w', all) && (IsTaken(b, w.rows, p) <==> !SameTableAndLog(w, w'))
  {
    var w' := WriteStep(b, w, p);
    var m := JobMoves(b, w, WriteJob(p));
    MoveEvolves(b, w, w', ExternalId(p), m);
    StepKeepsNoFaults(b, w, p);
    StepPays(b, w, p);
    if IsTaken(b, w.rows, p) {
      OwedAfterStep(b, w, all, p);
    }
  }

  lemma {:induction false} BatchPays(b: Backend, w: World, all: seq<Payload>, ps: seq<Payload>)
    requires b.wholeRow && WellFormed(w) && NoFaults(w) && DistinctIds(all) && forall p :: p in ps ==> p in all
    ensures var v := WriteBatch(b, w, ps);
            WellFormed(v) && NoFaults(v) && Pays(w, v, all)
  {
    if ps != [] {
      var k := |ps| - 1;
      BatchPays(b, w, all, ps[..k]);
      StepIsFine(b, WriteBatch(b, w, ps[..k]), all, ps[k]);
    }
  }

  /** What a batch left undone it leaves undone again. */
  lemma {:induction false} SilenceRepeats(b: Backend, w: World, v: World, all: seq<Payload>, ps: seq<Payload>)
    requires b.wholeRow && WellFormed(w) && NoFaults(w) && WellFormed(v) && NoFaults(v) && v.rows == w.rows
    requires DistinctIds(all) && forall p :: p in ps ==> p in all
    requires SameTableAndLog(w, WriteBatch(b, w, ps))
    ensures SameTableAndLog(v, WriteBatch(b, v, ps))
  {
    if ps != [] {
      var k := |ps| - 1;
      var u, x := WriteBatch(b, w, ps[..k]), WriteBatch(b, v, ps[..k]);
      BatchPays(b, w, all, ps[..k]);
      BatchPays(b, v, all, ps[..k]);
      StepIsFine(b, u, all, ps[k]);
      assert SameTableAndLog(w, u);
      SilenceRepeats(b, w, v, all, ps[..k]);
      StepIsFine(b, x, all, ps[k]);
    }
  }

  // ── Any number of deliveries ──

  lemma {:induction false} RedeliverIsFine(b: Backend, w: World, ps: seq<Payload>, n: nat)
    requires b.wholeRow && WellFormed(w) && NoFaults(w) && DistinctIds(ps)
    ensures WellFormed(Redeliver(b, w, ps, n)) && NoFaults(Redeliver(b, w, ps, n))
    ensures Pays(Redeliver(b, w, ps, n), Redeliver(b, w, ps, n + 1), ps)
  {
    if n > 0 {
      RedeliverIsFine(b, w, ps, n - 1);
      BatchPays(b, Redeliver(b, w, ps, n - 1), ps, ps);
    }
    BatchPays(b, Redeliver(b, w, ps, n), ps, ps);
  }

  predicate Silent(b: Backend, w: World, ps: seq<Payload>, n: nat) {
    SameTableAndLog(Redeliver(b, w, ps, n), Redeliver(b, w, ps, n + 1))
  }

  function OwedAfter(b: Backend, w: World, ps: seq<Payload>, n: nat): nat {
    Owed(Redeliver(b, w, ps, n).rows, ps)
  }

  /** What decreases with every delivery that is not silent lets one be silent in time. */
  lemma {:induction false} SilentInTime(silent: nat -> bool, owed: nat -> nat, n: nat)
    requires forall k: nat :: silent(k) || owed(k + 1) < owed(k)
    ensures (exists k :: 0 <= k < n && silent(k)) || owed(n) + n <= owed(0)
  {
    if n > 0 {
      SilentInTime(silent, owed, n - 1);
      assert silent(n - 1) || owed(n - 1 + 1) < owed(n - 1);
    }
  }

  lemma {:induction false} SilentOnceMore(b: Backend, w: World, ps: seq<Payload>, n: nat)
    requires b.wholeRow && WellFormed(w) && NoFaults(w) && DistinctIds(ps) && Silent(b, w, ps, n)
    ensures Silent(b, w, ps, n + 1)
  {
    RedeliverIsFine(b, w, ps, n);
    RedeliverIsFine(b, w, ps, n + 1);
    SilenceRepeats(b, Redeliver(b, w, ps, n), Redeliver(b, w, ps, n + 1), ps, ps);
  }

  lemma {:induction false} Lasts(silent: nat -> bool, k: nat, n: nat)
    requires (forall i: nat :: silent(i) ==> silent(i + 1)) && silent(k) && k <= n
    ensures silent(n)
    decreases n
  {
    if k < n {
      Lasts(silent, k, n - 1);
      assert silent(n - 1 + 1);
    }
  }

  lemma {:induction false} SilenceLasts(b: Backend, w: World, ps: seq<Payload>, k: nat, n: nat)
    requires b.wholeRow && WellFormed(w) && NoFaults(w) && DistinctIds(ps) && Silent(b, w, ps, k) && k <= n
    ensures Silent(b, w, ps, n)
  {
    var silent := (i: nat) => Silent(b, w, ps, i);
    forall i: nat | silent(i)
      ensures silent(i + 1)
    {
      SilentOnceMore(b, w, ps, i);
    }
    Lasts(silent, k, n);
  }

  lemma {:induction false} SameAgain(u: World, v: World, w: World)
    requires SameTableAndLog(u, v) && SameTableAndLog(v, w)
    ensures SameTableAndLog(u, w)
  {
  }

  lemma {:induction false} SilenceStays(b: Backend, w: World, ps: seq<Payload>, k: nat, n: nat)
    requires b.wholeRow && WellFormed(w) && NoFaults(w) && DistinctIds(ps) && Silent(b, w, ps, k) && k <= n
    ensures SameTableAndLog(Redeliver(b, w, ps, k), Redeliver(b, w, ps, n))
  {
    if k < n {
      SilenceStays(b, w, ps, k, n - 1);
      SilenceLasts(b, w, ps, k, n - 1);
      SameAgain(Redeliver(b, w, ps, k), Redeliver(b, w, ps, n - 1), Redeliver(b, w, ps, n));
    }
  }

  lemma {:induction false} OneIsSilent(b: Backend, w: World, ps: seq<Payload>) returns (k: nat)
    requires b.wholeRow && WellFormed(w) && NoFaults(w) && DistinctIds(ps)
    ensures k <= Owed(w.rows, ps) && Silent(b, w, ps, k)
  {
    var silent := (n: nat) => Silent(b, w, ps, n);
    var owed := (n: nat) => OwedAfter(b, w, ps, n);
    forall n: nat
      ensures silent(n) || owed(n + 1) < owed(n)
    {
      RedeliverIsFine(b, w, ps, n);
    }
    SilentInTime(silent, owed, owed(0) + 1);
    k :| 0 <= k < owed(0) + 1 && silent(k);
  }

  /**
   Whatever PINs the batch asks for: after as many deliveries as it owes the table steps,
   at most two for each payload, every later one changes no row and publishes nothing.
   */
  lemma {:induction false} DeliveriesSettle(b: Backend, w: World, ps: seq<Payload>, n: nat)
    requires b.wholeRow && WellFormed(w) && NoFaults(w) && DistinctIds(ps) && n >= Owed(w.rows, ps)
    ensures SameTableAndLog(Redeliver(b, w, ps, Owed(w.rows, ps)), Redeliver(b, w, ps, n))
    ensures Owed(w.rows, ps) <= 2 * |ps|
  {
    var owed := Owed(w.rows, ps);
    OwedIsBounded(w.rows, ps);
    var k := OneIsSilent(b, w, ps);
    SilenceStays(b, w, ps, k, owed);
    SilenceStays(b, w, ps, k, n);
  }

  // ── A batch that takes as many deliveries as it has payloads ──

  const STRICT := Backend(true, true)

  /** Employee `k` holds PIN `k`. */
  function Team(n: nat): World {
    World(seq(n, k requires 0 <= k < n => Employee(k, Decimal(k), "", None, Some(Decimal(k)), true, 0)),
          n, 0, [], [], [])
  }

  /** Each employee is to get the next one's PIN, and the last one a new PIN. */
  function Chain(n: nat): seq<Payload> {
    seq(n, k requires 0 <= k < n => Payload(k, "", Decimal(k + 1), "", true))
  }

  /** The PINs when the last `t` employees have theirs. */
  function PinsAfter(n: nat, t: nat): seq<string> {
    seq(n, k requires 0 <= k < n => Decimal(if k < n - t then k else k + 1))
  }

  predicate IsMember(e: Employee, k: nat, pin: string) {
    e.id == k && e.externalId == Some(Decimal(k)) && e.active && e.department == None && e.pin == pin
  }

  ghost predicate Holds(w: World, pins: seq<string>) {
    NoFaults(w) && |w.rows| == |pins| && forall k: nat :: k < |pins| ==> IsMember(w.rows[k], k, pins[k])
  }

  lemma {:induction false} MemberIsFound(w: World, pins: seq<string>, k: nat)
    requires Holds(w, pins) && k < |pins|
    ensures FindExternal(w.rows, Decimal(k)) == k && FindId(w.rows, k) == k
  {
    var i, j := FindExternal(w.rows, Decimal(k)), FindId(w.rows, k);
    assert IsMember(w.rows[k], k, pins[k]);
    assert i <= k && j <= k;
    assert IsMember(w.rows[i], i, pins[i]) && IsMember(w.rows[j], j, pins[j]);
    DecimalInjective(i, k);
  }

  lemma {:induction false} PinIsHeld(w: World, pins: seq<string>, k: nat, pin: string)
    requires Holds(w, pins) && k < |pins| && pins[k] != pin
    ensures PinTakenByOther(w.rows, pin, k) <==> pin in pins
  {
    if pin in pins {
      var j: nat :| j < |pins| && pins[j] == pin;
      assert IsMember(w.rows[j], j, pin) && w.rows[j] in w.rows;
    }
    if PinTakenByOther(w.rows, pin, k) {
      var r :| r in w.rows && r.pin == pin && r.id != k;
      var j: nat :| j < |w.rows| && w.rows[j] == r;
      assert IsMember(w.rows[j], j, pins[j]);
    }
  }

  /** A member gets the PIN asked for exactly when nobody holds it. */
  lemma {:induction false} MemberAsks(w: World, pins: seq<string>, k: nat, pin: string)
    requires Holds(w, pins) && k < |pins| && pin != ""
    ensures var w' := WriteStep(STRICT, w, Payload(k, "", pin, "", true));
            if pin in pins then Holds(w', pins) && w'.log == w.log
            else Holds(w', pins[k := pin]) && |w'.log| > |w.log|
  {
    var p := Payload(k, "", pin, "", true);
    assert !Fails(w.lookupFaults) && !Fails(w.writeFaults);
    StepKeepsNoFaults(STRICT, w, p);
    MemberIsFound(w, pins, k);
    assert IsMember(w.rows[k], k, pins[k]);
    assert Merged(w.rows[k], p) == w.rows[k].(pin := pin);
    if pins[k] != pin { PinIsHeld(w, pins, k, pin); }
  }

  lemma {:induction false} PinIsFree(n: nat, t: nat, k: nat)
    requires t < n && k == n - t - 1
    ensures Decimal(k + 1) !in PinsAfter(n, t)
    ensures PinsAfter(n, t)[k := Decimal(k + 1)] == PinsAfter(n, t + 1)
  {
    forall j | 0 <= j < n
      ensures PinsAfter(n, t)[j] != Decimal(k + 1)
    {
      DecimalInjective(if j < n - t then j else j + 1, k + 1);
    }
  }

  lemma {:induction false} PinIsNotFree(n: nat, t: nat, k: nat)
    requires t <= n && k < n && k != n - t - 1
    ensures Decimal(k + 1) in PinsAfter(n, t)
  {
    assert PinsAfter(n, t)[if k < n - t then k + 1 else k] == Decimal(k + 1);
  }

  /** The PINs in the middle of delivery `t + 1`. */
  function PinsWithin(n: nat, t: nat, m: nat): seq<string> {
    PinsAfter(n, if m < n - t then t else t + 1)
  }

  lemma {:induction false} ChainAsks(w: World, n: nat, t: nat, k: nat)
    requires t < n && k < n && Holds(w, PinsWithin(n, t, k))
    ensures var w' := WriteStep(STRICT, w, Payload(k, "", Decimal(k + 1), "", true));
            Holds(w', PinsWithin(n, t, k + 1)) && if k == n - t - 1 then |w'.log| > |w.log| else w'.log == w.log
  {
    if k == n - t - 1 { PinIsFree(n, t, k); } else { PinIsNotFree(n, if k < n - t then t else t + 1, k); }
    MemberAsks(w, PinsWithin(n, t, k), k, Decimal(k + 1));
  }

  lemma {:induction false} ChainNext(w: World, n: nat, k: nat)
    requires k < n
    ensures WriteBatch(STRICT, w, Chain(n)[..k + 1])
         == WriteStep(STRICT, WriteBatch(STRICT, w, Chain(n)[..k]), Payload(k, "", Decimal(k + 1), "", true))
  {
    assert Chain(n)[..k + 1][..k] == Chain(n)[..k];
  }

  ghost predicate MovedOne(w: World, v: World, n: nat, t: nat, m: nat) {
    Holds(v, PinsWithin(n, t, m)) && if m < n - t then v.log == w.log else |v.log| > |w.log|
  }

  lemma {:induction false} MovesOn(w: World, v: World, v': World, n: nat, t: nat, k: nat)
    requires t < n && k < n && MovedOne(w, v, n, t, k) && Holds(v', PinsWithin(n, t, k + 1))
    requires if k == n - t - 1 then |v'.log| > |v.log| else v'.log == v.log
    ensures MovedOne(w, v', n, t, k + 1)
  {
  }

  lemma {:induction false} ChainMovesOne(w: World, n: nat, t: nat, m: nat)
    requires t < n && m <= n && Holds(w, PinsAfter(n, t))
    ensures MovedOne(w, WriteBatch(STRICT, w, Chain(n)[..m]), n, t, m)
  {
    if m > 0 {
      var v := WriteBatch(STRICT, w, Chain(n)[..m - 1]);
      ChainMovesOne(w, n, t, m - 1);
      ChainAsks(v, n, t, m - 1);
      ChainNext(w, n, m - 1);
      MovesOn(w, v, WriteBatch(STRICT, w, Chain(n)[..m]), n, t, m - 1);
    }
  }

  /** In one delivery only the last employee without the new PIN gets it. */
  lemma {:induction false} ChainDelivered(w: World, n: nat, t: nat)
    requires t < n && Holds(w, PinsAfter(n, t))
    ensures var v := WriteBatch(STRICT, w, Chain(n));
            Holds(v, PinsAfter(n, t + 1)) && |v.log| > |w.log|
  {
    assert Chain(n)[..n] == Chain(n);
    ChainMovesOne(w, n, t, n);
  }

  lemma {:induction false} ChainAfter(n: nat, t: nat)
    requires t <= n
    ensures Holds(Redeliver(STRICT, Team(n), Chain(n), t), PinsAfter(n, t))
  {
    if t > 0 {
      ChainAfter(n, t - 1);
      ChainDelivered(Redeliver(STRICT, Team(n), Chain(n), t - 1), n, t - 1);
    }
  }

  /**
   No fixed number of deliveries does: with PINs handed along a chain of `n` employees each
   of the first `n` deliveries changes something.
   */
  lemma {:induction false} ChainTakesAllDeliveries(n: nat)
    ensures WellFormed(Team(n)) && UniquePins(Team(n).rows) && NoFaults(Team(n)) && DistinctIds(Chain(n))
    ensures forall t: nat :: t < n ==> !Silent(STRICT, Team(n), Chain(n), t)
  {
    forall i, j | 0 <= i < j < n
      ensures Team(n).rows[i].pin != Team(n).rows[j].pin
    {
      DecimalInjective(i, j);
    }
    forall t: nat | t < n
      ensures !Silent(STRICT, Team(n), Chain(n), t)
    {
      ChainAfter(n, t);
      ChainDelivered(Redeliver(STRICT, Team(n), Chain(n), t), n, t);
    }
  }
}
