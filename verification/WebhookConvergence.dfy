/**
 Redelivery and reordering of a write batch, when the store refuses nothing.

 The premise is something a caller can check: no storage call fails, external ids
 are unique, and, for a store that enforces PINs, the batch's PINs are distinct and
 each is free or already held by the employee it names.
 */
module WebhookConvergence {
  import opened Wrappers
  import opened Collections
  import opened Employees
  import opened WebhookRuns
  import opened WebhookInvariants

  // ── The premise ──

  ghost predicate NoFaults(w: World) {
    true !in w.lookupFaults && true !in w.writeFaults
  }

  ghost predicate DistinctIds(ps: seq<Payload>) {
    forall i, j :: 0 <= i < j < |ps| ==> ps[i].odooId != ps[j].odooId
  }

  /** Only the employee the payload names may hold its PIN. */
  predicate PinFree(rows: seq<Employee>, p: Payload) {
    p.pin != "" ==> forall r :: r in rows && r.pin == p.pin ==> r.externalId == Some(ExternalId(p))
  }

  ghost predicate PinsClear(rows: seq<Employee>, ps: seq<Payload>) {
    && UniquePins(rows)
    && (forall p, q :: p in ps && q in ps && p.pin == q.pin != "" ==> p.odooId == q.odooId)
    && (forall p :: p in ps ==> PinFree(rows, p))
  }

  ghost predicate Ready(b: Backend, w: World, ps: seq<Payload>) {
    && WellFormed(w)
    && UniqueExternal(w.rows)
    && NoFaults(w)
    && (b.uniquePins ==> PinsClear(w.rows, ps))
  }

  // ── What a row becomes and what is announced ──

  /** A row without its generated id and time stamp. */
  datatype Profile = Profile(
    externalId: Option<string>, pin: string, name: string, department: Option<string>, active: bool)

  function View(e: Employee): Profile {
    Profile(e.externalId, e.pin, e.name, e.department, e.active)
  }

  function Roster(rows: seq<Employee>): seq<Profile> {
    seq(|rows|, i requires 0 <= i < |rows| => View(rows[i]))
  }

  function Events(log: seq<Publication>): seq<Event> {
    seq(|log|, i requires 0 <= i < |log| => log[i].event)
  }

  /** The row after an accepted write, up to the time stamp. */
  function After(b: Backend, x: Employee, p: Payload): Employee {
    Stored(b, x, if !p.active && x.active then x.(active := false) else Merged(x, p))
  }

  function Newcomer(p: Payload): Profile {
    Profile(Some(ExternalId(p)), p.pin, p.name, OptionalString(p.department), true)
  }

  function Announced(x: Employee, p: Payload): seq<Event> {
    if !p.active && x.active then [EmployeeDeactivated(x.pin), EmployeeRemoveRequested(x.pin)]
    else if Merged(x, p) == x then []
    else [EmployeeUpdated(x.id, Merged(x, p).pin, Merged(x, p).name)]
  }

  /** What a payload announces, given the table before its batch. */
  function Says(rows: seq<Employee>, p: Payload): seq<Event> {
    var i := FindExternal(rows, ExternalId(p));
    if i < |rows| then Announced(rows[i], p)
    else if p.pin == "" then []
    else [EmployeeCreated(p.pin, p.name)]
  }

  /** The rows a payload adds, given the table before its batch. */
  function Adds(rows: seq<Employee>, p: Payload): seq<Profile> {
    if FindExternal(rows, ExternalId(p)) < |rows| || p.pin == "" then [] else [Newcomer(p)]
  }

  function Sayer(rows: seq<Employee>): Payload -> seq<Event> {
    p => Says(rows, p)
  }

  function Adder(rows: seq<Employee>): Payload -> seq<Profile> {
    p => Adds(rows, p)
  }

  // ── One accepted step ──

  lemma {:induction false} RowWithExternal(rows: seq<Employee>, i: nat, ext: string)
    requires UniqueExternal(rows) && i < |rows| && rows[i].externalId == Some(ext)
    ensures FindExternal(rows, ext) == i
  {
  }

  /** The row becomes what the payload makes of it, the others stay, the payload's events are published. */
  ghost predicate KnownOutcome(b: Backend, w: World, w': World, p: Payload, i: nat)
    requires i < |w.rows|
  {
    var x := w.rows[i];
    && |w'.rows| == |w.rows|
    && w'.rows == w.rows[i := w'.rows[i]]
    && View(w'.rows[i]) == View(After(b, x, p))
    && w'.rows[i].id == x.id
    && (Announced(x, p) == [] ==> w'.rows == w.rows && w'.log == w.log)
    && Events(w'.log) == Events(w.log) + Announced(x, p)
  }

  lemma {:induction false} StepOnKnown(b: Backend, w: World, ps: seq<Payload>, p: Payload, i: nat)
    requires Ready(b, w, ps) && p in ps && i == FindExternal(w.rows, ExternalId(p)) < |w.rows|
    ensures KnownOutcome(b, w, WriteStep(b, w, p), p, i)
  {
    assert !Fails(w.lookupFaults) && !Fails(w.writeFaults);
    FindOwnId(w, i);
    if b.uniquePins { NobodyHoldsPin(b, w, ps, p, i); }
    if !p.active && w.rows[i].active { AcceptedRetirement(b, w, p, i); } else { AcceptedRewrite(b, w, p, i); }
  }

  /** Nothing stands in the way of an update of row `i`. */
  predicate IsFree(b: Backend, w: World, p: Payload, i: nat) {
    && !Fails(w.lookupFaults) && !Fails(w.writeFaults)
    && i == FindExternal(w.rows, ExternalId(p)) < |w.rows| && FindId(w.rows, w.rows[i].id) == i
    && (b.uniquePins ==> !PinTakenByOther(w.rows, w.rows[i].pin, w.rows[i].id))
    && (b.uniquePins && p.pin != "" ==> !PinTakenByOther(w.rows, p.pin, w.rows[i].id))
  }

  lemma {:induction false} AcceptedRetirement(b: Backend, w: World, p: Payload, i: nat)
    requires IsFree(b, w, p, i) && !p.active && w.rows[i].active
    ensures KnownOutcome(b, w, WriteStep(b, w, p), p, i)
  {
    var e := w.rows[i].(active := false, updatedAt := w.clock);
    assert UpdateAccepted(b, Ticked(AfterLookUp(w)), e);
  }

  lemma {:induction false} AcceptedRewrite(b: Backend, w: World, p: Payload, i: nat)
    requires IsFree(b, w, p, i) && (p.active || !w.rows[i].active)
    ensures KnownOutcome(b, w, WriteStep(b, w, p), p, i)
  {
    var e := Merged(w.rows[i], p).(updatedAt := w.clock);
    assert UpdateAccepted(b, Ticked(AfterLookUp(w)), e);
  }

  /** No other row holds the PIN the row has or is given. */
  lemma {:induction false} NobodyHoldsPin(b: Backend, w: World, ps: seq<Payload>, p: Payload, i: nat)
    requires Ready(b, w, ps) && b.uniquePins && p in ps && i == FindExternal(w.rows, ExternalId(p)) < |w.rows|
    ensures !PinTakenByOther(w.rows, w.rows[i].pin, w.rows[i].id)
    ensures p.pin != "" ==> !PinTakenByOther(w.rows, p.pin, w.rows[i].id)
  {
    assert PinFree(w.rows, p);
    forall r | r in w.rows && (r.pin == w.rows[i].pin || (p.pin != "" && r.pin == p.pin))
      ensures r.id == w.rows[i].id
    {
      var j :| 0 <= j < |w.rows| && w.rows[j] == r;
      assert j == i;
    }
  }

  lemma {:induction false} StepOnUnknown(b: Backend, w: World, ps: seq<Payload>, p: Payload)
    requires Ready(b, w, ps) && p in ps && FindExternal(w.rows, ExternalId(p)) == |w.rows|
    ensures var w' := WriteStep(b, w, p);
            if p.pin == "" then w'.rows == w.rows && w'.log == w.log
            else && |w'.rows| == |w.rows| + 1
                 && w'.rows[..|w.rows|] == w.rows
                 && View(w'.rows[|w.rows|]) == Newcomer(p)
                 && Events(w'.log) == Events(w.log) + [EmployeeCreated(p.pin, p.name)]
  {
    assert !Fails(w.lookupFaults) && !Fails(w.writeFaults);
    if b.uniquePins && p.pin != "" {
      assert PinFree(w.rows, p);
      assert !PinTaken(w.rows, p.pin);
    }
  }

  /** After a step a row has its old PIN, or it is the payload's row and has the payload's PIN. */
  ghost predicate PinsFrom(rows: seq<Employee>, rows': seq<Employee>, p: Payload) {
    forall j :: 0 <= j < |rows'| ==>
      || (j < |rows| && rows'[j].pin == rows[j].pin && rows'[j].externalId == rows[j].externalId)
      || (rows'[j].pin == p.pin && rows'[j].externalId == Some(ExternalId(p)))
  }

  lemma {:induction false} StepPins(b: Backend, w: World, ps: seq<Payload>, p: Payload)
    requires Ready(b, w, ps) && p in ps
    ensures PinsFrom(w.rows, WriteStep(b, w, p).rows, p)
  {
    var rows, rows' := w.rows, WriteStep(b, w, p).rows;
    var i := FindExternal(rows, ExternalId(p));
    if i < |rows| {
      StepOnKnown(b, w, ps, p, i);
      assert View(rows'[i]) == View(After(b, rows[i], p));
      assert forall j :: 0 <= j < |rows| && j != i ==> rows'[j] == rows[j];
    } else {
      StepOnUnknown(b, w, ps, p);
      assert forall j :: 0 <= j < |rows| ==> rows'[j] == rows[j];
      assert |rows'| > |rows| ==> View(rows'[|rows|]) == Newcomer(p);
    }
  }

  lemma {:induction false} StepKeepsReady(b: Backend, w: World, ps: seq<Payload>, p: Payload)
    requires Ready(b, w, ps) && p in ps
    ensures Ready(b, WriteStep(b, w, p), ps)
  {
    var w' := WriteStep(b, w, p);
    StepKeepsTable(b, w, p);
    assert NoFaults(w');
    if b.uniquePins {
      StepKeepsPins(b, w, ps, p);
    }
  }

  lemma {:induction false} StepKeepsPins(b: Backend, w: World, ps: seq<Payload>, p: Payload)
    requires Ready(b, w, ps) && b.uniquePins && p in ps
    ensures forall q :: q in ps ==> PinFree(WriteStep(b, w, p).rows, q)
  {
    StepPins(b, w, ps, p);
    forall q | q in ps
      ensures PinFree(WriteStep(b, w, p).rows, q)
    {
      StepKeepsPinFree(w.rows, WriteStep(b, w, p).rows, p, q);
    }
  }

  lemma {:induction false} StepKeepsTable(b: Backend, w: World, p: Payload)
    requires WellFormed(w) && UniqueExternal(w.rows) && NoFaults(w)
    ensures var w' := WriteStep(b, w, p);
            && WellFormed(w') && UniqueExternal(w'.rows)
            && (b.uniquePins && UniquePins(w.rows) ==> UniquePins(w'.rows))
  {
    assert !Fails(w.lookupFaults);
    var m := JobMoves(b, w, WriteJob(p));
    MoveEvolves(b, w, WriteStep(b, w, p), ExternalId(p), m);
    MoveKeepsUnique(b, w, WriteStep(b, w, p), ExternalId(p), m);
  }

  lemma {:induction false} StepKeepsPinFree(rows: seq<Employee>, rows': seq<Employee>, p: Payload, q: Payload)
    requires PinFree(rows, q) && (p.pin == q.pin != "" ==> p.odooId == q.odooId)
    requires PinsFrom(rows, rows', p)
    ensures PinFree(rows', q)
  {
    if q.pin != "" {
      forall r | r in rows' && r.pin == q.pin
        ensures r.externalId == Some(ExternalId(q))
      {
        var j :| 0 <= j < |rows'| && rows'[j] == r;
        if j < |rows| && r.pin == rows[j].pin && r.externalId == rows[j].externalId {
          assert rows[j] in rows;
        }
      }
    }
  }

  // ── A whole batch, payload by payload ──

  lemma {:induction false} BatchKeepsReady(b: Backend, w: World, all: seq<Payload>, ps: seq<Payload>)
    requires Ready(b, w, all) && forall p :: p in ps ==> p in all
    ensures Ready(b, WriteBatch(b, w, ps), all)
  {
    if ps != [] {
      BatchKeepsReady(b, w, all, ps[..|ps| - 1]);
      StepKeepsReady(b, WriteBatch(b, w, ps[..|ps| - 1]), all, ps[|ps| - 1]);
    }
  }

  /** The payload of a batch that names this row. */
  function For(ps: seq<Payload>, ext: Option<string>): Option<Payload> {
    if ps == [] then None
    else if Some(ExternalId(ps[|ps| - 1])) == ext then Some(ps[|ps| - 1])
    else For(ps[..|ps| - 1], ext)
  }

  lemma {:induction false} ForFinds(ps: seq<Payload>, ext: Option<string>)
    ensures For(ps, ext).Some? ==> For(ps, ext).value in ps && Some(ExternalId(For(ps, ext).value)) == ext
    ensures For(ps, ext).None? ==> forall p :: p in ps ==> Some(ExternalId(p)) != ext
  {
    if ps != [] {
      ForFinds(ps[..|ps| - 1], ext);
      assert ps == ps[..|ps| - 1] + [ps[|ps| - 1]];
    }
  }

  lemma {:induction false} ForIs(ps: seq<Payload>, p: Payload)
    requires DistinctIds(ps) && p in ps
    ensures For(ps, Some(ExternalId(p))) == Some(p)
  {
    ForFinds(ps, Some(ExternalId(p)));
    var q := For(ps, Some(ExternalId(p))).value;
    DecimalInjective(p.odooId, q.odooId);
    var i :| 0 <= i < |ps| && ps[i] == p;
    var j :| 0 <= j < |ps| && ps[j] == q;
    assert i == j;
  }

  function ViewAfter(b: Backend, x: Employee, ps: seq<Payload>): Profile {
    match For(ps, x.externalId)
    case None => View(x)
    case Some(p) => View(After(b, x, p))
  }

  /**
   What a batch amounts to: every row becomes what its own payload makes of it, the
   newcomers follow in batch order, and the announcements are each payload's own.
   */
  ghost predicate Pointwise(b: Backend, w: World, w': World, ps: seq<Payload>) {
    && RowsSettle(b, w.rows, w'.rows, ps)
    && Roster(w'.rows[|w.rows|..]) == FlatMap(Adder(w.rows), ps)
    && Events(w'.log) == Events(w.log) + FlatMap(Sayer(w.rows), ps)
  }

  ghost predicate RowsSettle(b: Backend, rows: seq<Employee>, rows': seq<Employee>, ps: seq<Payload>) {
    && |rows'| >= |rows|
    && forall i :: 0 <= i < |rows| ==>
         && View(rows'[i]) == ViewAfter(b, rows[i], ps)
         && rows'[i].id == rows[i].id
         && (For(ps, rows[i].externalId).None? ==> rows'[i] == rows[i])
  }

  lemma {:induction false} NewcomersAreNamed(rows: seq<Employee>, ps: seq<Payload>, n: Profile)
    requires n in FlatMap(Adder(rows), ps)
    ensures exists p :: p in ps && n.externalId == Some(ExternalId(p))
  {
    var k := |ps| - 1;
    if n in FlatMap(Adder(rows), ps[..k]) {
      NewcomersAreNamed(rows, ps[..k], n);
    } else {
      assert n in Adds(rows, ps[k]);
    }
  }

  lemma {:induction false} LastIsNew(ps: seq<Payload>, k: nat)
    requires DistinctIds(ps) && k == |ps| - 1
    ensures For(ps[..k], Some(ExternalId(ps[k]))) == None
    ensures forall q :: q in ps[..k] ==> ExternalId(q) != ExternalId(ps[k])
  {
    forall q | q in ps[..k]
      ensures ExternalId(q) != ExternalId(ps[k])
    {
      DecimalInjective(q.odooId, ps[k].odooId);
    }
    ForFinds(ps[..k], Some(ExternalId(ps[k])));
  }

  /** A payload finds its own row where it was, or not at all, whatever the others did before it. */
  lemma {:induction false} FoundInPlace(b: Backend, w: World, v: World, ps: seq<Payload>, p: Payload)
    requires UniqueExternal(w.rows) && UniqueExternal(v.rows) && Pointwise(b, w, v, ps)
    requires For(ps, Some(ExternalId(p))) == None && forall q :: q in ps ==> ExternalId(q) != ExternalId(p)
    ensures var i := FindExternal(w.rows, ExternalId(p));
            if i < |w.rows| then FindExternal(v.rows, ExternalId(p)) == i && v.rows[i] == w.rows[i]
            else FindExternal(v.rows, ExternalId(p)) == |v.rows|
  {
    var ext := ExternalId(p);
    var i := FindExternal(w.rows, ext);
    if i < |w.rows| {
      RowWithExternal(v.rows, i, ext);
    } else {
      forall j | 0 <= j < |v.rows|
        ensures v.rows[j].externalId != Some(ext)
      {
        if j < |w.rows| {
          assert View(v.rows[j]) == ViewAfter(b, w.rows[j], ps);
        } else {
          var n := Roster(v.rows[|w.rows|..])[j - |w.rows|];
          assert n == View(v.rows[j]);
          NewcomersAreNamed(w.rows, ps, n);
        }
      }
    }
  }

  lemma {:induction false} BatchIsPointwise(b: Backend, w: World, all: seq<Payload>, ps: seq<Payload>)
    requires Ready(b, w, all) && DistinctIds(ps) && forall p :: p in ps ==> p in all
    ensures Pointwise(b, w, WriteBatch(b, w, ps), ps)
  {
    if ps == [] {
      assert Events(w.log) + [] == Events(w.log);
    } else {
      var k := |ps| - 1;
      BatchIsPointwise(b, w, all, ps[..k]);
      BatchKeepsReady(b, w, all, ps[..k]);
      LastIsNew(ps, k);
      var v := WriteBatch(b, w, ps[..k]);
      FoundInPlace(b, w, v, ps[..k], ps[k]);
      if FindExternal(w.rows, ExternalId(ps[k])) < |w.rows| {
        PointwiseKnown(b, w, v, all, ps);
      } else {
        PointwiseUnknown(b, w, v, all, ps);
      }
    }
  }

  lemma {:induction false} SettleStep(
    b: Backend, rows: seq<Employee>, mid: seq<Employee>, rows': seq<Employee>, ps: seq<Payload>)
    requires ps != [] && RowsSettle(b, rows, mid, ps[..|ps| - 1]) && |rows'| >= |rows|
    requires forall j :: 0 <= j < |rows| ==>
               if rows[j].externalId == Some(ExternalId(ps[|ps| - 1])) then
                 View(rows'[j]) == View(After(b, rows[j], ps[|ps| - 1])) && rows'[j].id == rows[j].id
               else rows'[j] == mid[j]
    ensures RowsSettle(b, rows, rows', ps)
  {
    forall j | 0 <= j < |rows| && rows[j].externalId != Some(ExternalId(ps[|ps| - 1]))
      ensures For(ps, rows[j].externalId) == For(ps[..|ps| - 1], rows[j].externalId)
    {
    }
  }

  /** Only the row of the last payload is changed after the others. */
  lemma {:induction false} KnownRowSettles(
    b: Backend, rows: seq<Employee>, mid: seq<Employee>, rows': seq<Employee>, ps: seq<Payload>, i: nat)
    requires ps != [] && UniqueExternal(rows) && RowsSettle(b, rows, mid, ps[..|ps| - 1])
    requires i < |rows| && rows[i].externalId == Some(ExternalId(ps[|ps| - 1])) && mid[i] == rows[i]
    requires |rows'| == |mid| && rows' == mid[i := rows'[i]] && rows'[i].id == mid[i].id
    requires View(rows'[i]) == View(After(b, mid[i], ps[|ps| - 1]))
    ensures RowsSettle(b, rows, rows', ps)
  {
    forall j | 0 <= j < |rows| && rows[j].externalId == Some(ExternalId(ps[|ps| - 1]))
      ensures j == i
    {
      RowWithExternal(rows, j, ExternalId(ps[|ps| - 1]));
      RowWithExternal(rows, i, ExternalId(ps[|ps| - 1]));
    }
    SettleStep(b, rows, mid, rows', ps);
  }

  lemma {:induction false} PointwiseKnown(b: Backend, w: World, v: World, all: seq<Payload>, ps: seq<Payload>)
    requires ps != [] && UniqueExternal(w.rows) && Ready(b, v, all) && ps[|ps| - 1] in all
    requires Pointwise(b, w, v, ps[..|ps| - 1])
    requires var i := FindExternal(w.rows, ExternalId(ps[|ps| - 1]));
             i < |w.rows| && FindExternal(v.rows, ExternalId(ps[|ps| - 1])) == i && v.rows[i] == w.rows[i]
    ensures Pointwise(b, w, WriteStep(b, v, ps[|ps| - 1]), ps)
  {
    var i := FindExternal(w.rows, ExternalId(ps[|ps| - 1]));
    StepOnKnown(b, v, all, ps[|ps| - 1], i);
    AfterKnown(b, w, v, WriteStep(b, v, ps[|ps| - 1]), ps, i);
  }

  lemma {:induction false} AfterKnown(b: Backend, w: World, v: World, w': World, ps: seq<Payload>, i: nat)
    requires ps != [] && UniqueExternal(w.rows) && Pointwise(b, w, v, ps[..|ps| - 1])
    requires i == FindExternal(w.rows, ExternalId(ps[|ps| - 1])) < |w.rows| && v.rows[i] == w.rows[i]
    requires |w'.rows| == |v.rows| && w'.rows == v.rows[i := w'.rows[i]] && w'.rows[i].id == v.rows[i].id
    requires View(w'.rows[i]) == View(After(b, v.rows[i], ps[|ps| - 1]))
    requires Events(w'.log) == Events(v.log) + Announced(v.rows[i], ps[|ps| - 1])
    ensures Pointwise(b, w, w', ps)
  {
    var p := ps[|ps| - 1];
    assert Events(w'.log) == Events(w.log) + (FlatMap(Sayer(w.rows), ps[..|ps| - 1]) + Says(w.rows, p));
    assert w'.rows[|w.rows|..] == v.rows[|w.rows|..] && Adds(w.rows, p) == [];
    KnownRowSettles(b, w.rows, v.rows, w'.rows, ps, i);
  }

  lemma {:induction false} PointwiseUnknown(b: Backend, w: World, v: World, all: seq<Payload>, ps: seq<Payload>)
    requires ps != [] && Ready(b, v, all) && ps[|ps| - 1] in all
    requires Pointwise(b, w, v, ps[..|ps| - 1])
    requires FindExternal(w.rows, ExternalId(ps[|ps| - 1])) == |w.rows|
    requires FindExternal(v.rows, ExternalId(ps[|ps| - 1])) == |v.rows|
    ensures Pointwise(b, w, WriteStep(b, v, ps[|ps| - 1]), ps)
  {
    var w' := WriteStep(b, v, ps[|ps| - 1]);
    StepOnUnknown(b, v, all, ps[|ps| - 1]);
    assert w'.rows[..|v.rows|] == v.rows;
    AfterUnknown(b, w, v, w', ps);
  }

  lemma {:induction false} AfterUnknown(b: Backend, w: World, v: World, w': World, ps: seq<Payload>)
    requires ps != [] && Pointwise(b, w, v, ps[..|ps| - 1])
    requires FindExternal(w.rows, ExternalId(ps[|ps| - 1])) == |w.rows|
    requires |w'.rows| >= |v.rows| && w'.rows[..|v.rows|] == v.rows
    requires Roster(w'.rows[|v.rows|..]) == Adds(w.rows, ps[|ps| - 1])
    requires Events(w'.log) == Events(v.log) + Says(w.rows, ps[|ps| - 1])
    ensures Pointwise(b, w, w', ps)
  {
    assert Events(w'.log) == Events(w.log) + (FlatMap(Sayer(w.rows), ps[..|ps| - 1]) + Says(w.rows, ps[|ps| - 1]));
    RosterGrows(w.rows, v.rows, w'.rows, Adds(w.rows, ps[|ps| - 1]));
    SettleStep(b, w.rows, v.rows, w'.rows, ps);
  }

  lemma {:induction false} RosterGrows(
    rows: seq<Employee>, mid: seq<Employee>, rows': seq<Employee>, more: seq<Profile>)
    requires |rows| <= |mid| <= |rows'| && rows'[..|mid|] == mid && Roster(rows'[|mid|..]) == more
    ensures Roster(rows'[|rows|..]) == Roster(mid[|rows|..]) + more
  {
    assert rows'[|rows|..] == mid[|rows|..] + rows'[|mid|..];
  }
}
