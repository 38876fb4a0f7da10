/**
 Concurrent create deliveries. Each delivery is a task; the awaited lookup, the
 awaited insert and the publication that follows are separate steps, and a schedule
 interleaves the tasks' steps in any way. Lookups succeed; the schedule says which
 inserts the store fails. Taken PINs are refused.
 */
module WebhookRaces {
  import opened Wrappers
  import opened Employees
  import opened WebhookInvariants

  /** Where a task stands with the payload at the head of its batch. */
  datatype Phase = Ready | Missed(p: Payload) | Inserted(p: Payload)

  datatype Task = Task(todo: seq<Payload>, phase: Phase)

  datatype System = System(rows: seq<Employee>, nextId: nat, clock: int, log: seq<Event>, tasks: seq<Task>)

  /** One scheduling decision: which task moves, and whether the store fails its insert. */
  datatype Tick = Tick(task: nat, insertFails: bool)

  function Inserting(s: System, p: Payload): Employee {
    Employee(s.nextId, p.pin, p.name, OptionalString(p.department), Some(ExternalId(p)), true, s.clock)
  }

  function Step(s: System, t: Tick): System {
    if t.task >= |s.tasks| then s
    else
      var k := s.tasks[t.task];
      match k.phase
      case Ready =>
        if k.todo == [] then s
        else
          var p := k.todo[0];
          var skip := p.pin == "" || FindExternal(s.rows, ExternalId(p)) < |s.rows|;
          s.(tasks := s.tasks[t.task := Task(k.todo[1..], if skip then Ready else Missed(p))])
      case Missed(p) =>
        var next := s.(nextId := s.nextId + 1, clock := s.clock + 1);
        if t.insertFails || PinTaken(s.rows, p.pin)
        then next.(tasks := s.tasks[t.task := Task(k.todo, Ready)])
        else next.(rows := s.rows + [Inserting(s, p)], tasks := s.tasks[t.task := Task(k.todo, Inserted(p))])
      case Inserted(p) =>
        s.(log := s.log + [EmployeeCreated(p.pin, p.name)], tasks := s.tasks[t.task := Task(k.todo, Ready)])
  }

  function Schedule(s: System, ticks: seq<Tick>): System {
    if ticks == [] then s else Step(Schedule(s, ticks[..|ticks| - 1]), ticks[|ticks| - 1])
  }

  function Start(rows: seq<Employee>, nextId: nat, clock: int, log: seq<Event>, batches: seq<seq<Payload>>): System {
    System(rows, nextId, clock, log, seq(|batches|, i requires 0 <= i < |batches| => Task(batches[i], Ready)))
  }

  predicate Done(s: System) {
    forall i :: 0 <= i < |s.tasks| ==> s.tasks[i] == Task([], Ready)
  }

  // ── One task alone is the handler ──

  /** Scheduled alone, a task does to one payload what the handler's loop body does. */
  lemma {:induction false} SoloTaskIsCreateStep(w: World, p: Payload, fails: bool, wholeRow: bool)
    requires w.lookupFaults == [] && w.writeFaults == [fails]
    ensures var s := Start(w.rows, w.nextId, w.clock, [], [[p]]);
            var s' := Schedule(s, [Tick(0, fails), Tick(0, fails), Tick(0, fails)]);
            var w' := CreateStep(Backend(true, wholeRow), w, p);
            && Done(s') && s'.rows == w'.rows && s'.nextId == w'.nextId && s'.clock == w'.clock
            && |w'.log| == |w.log| + |s'.log|
            && forall k :: 0 <= k < |s'.log| ==> w'.log[|w.log| + k].event == s'.log[k]
  {
    var s := Start(w.rows, w.nextId, w.clock, [], [[p]]);
    var t := Tick(0, fails);
    var s1 := Step(s, t);
    var s2 := Step(s1, t);
    var s3 := Step(s2, t);
    assert Schedule(s, []) == s;
    assert [t][..0] == [] && Schedule(s, [t]) == s1;
    assert [t, t][..1] == [t] && Schedule(s, [t, t]) == s2;
    assert [t, t, t][..2] == [t, t] && Schedule(s, [t, t, t]) == s3;
    assert s.tasks == [Task([p], Ready)];
  }

  // ── Any number of deliveries, any schedule ──

  /** Each Odoo id comes with one PIN wherever it comes with a PIN. */
  ghost predicate OnePinEach(batches: seq<seq<Payload>>) {
    forall p, q :: InSome(batches, p) && InSome(batches, q) && p.odooId == q.odooId && p.pin != "" && q.pin != ""
      ==> p.pin == q.pin
  }

  ghost predicate InSome(batches: seq<seq<Payload>>, p: Payload) {
    exists i :: 0 <= i < |batches| && p in batches[i]
  }

  /** How many announcements of `e` a task owes. */
  function Owed(k: Task, e: Event): nat {
    if k.phase.Inserted? && e == EmployeeCreated(k.phase.p.pin, k.phase.p.name) then 1 else 0
  }

  function AllOwed(ts: seq<Task>, e: Event): nat {
    if ts == [] then 0 else AllOwed(ts[..|ts| - 1], e) + Owed(ts[|ts| - 1], e)
  }

  function Creations(rows: seq<Employee>): seq<Event> {
    seq(|rows|, i requires 0 <= i < |rows| => EmployeeCreated(rows[i].pin, rows[i].name))
  }

  ghost predicate TaskOk(s: System, first: nat, batches: seq<seq<Payload>>, k: Task) {
    && (forall p :: p in k.todo ==> InSome(batches, p))
    && (k.phase.Missed? ==>
         && InSome(batches, k.phase.p) && k.phase.p.pin != ""
         && forall i :: 0 <= i < |s.rows| && s.rows[i].externalId == Some(ExternalId(k.phase.p)) ==> i >= first)
  }

  /** Rows from `first` on were inserted by this system, each from a payload of some batch. */
  ghost predicate RowsFromBatches(rows: seq<Employee>, first: nat, batches: seq<seq<Payload>>) {
    forall i :: first <= i < |rows| ==>
      exists p :: InSome(batches, p) && p.pin != "" && rows[i].externalId == Some(ExternalId(p)) && rows[i].pin == p.pin
  }

  ghost predicate Sound(s0: System, s: System, batches: seq<seq<Payload>>) {
    && |s0.rows| <= |s.rows| && s.rows[..|s0.rows|] == s0.rows
    && |s.tasks| == |batches|
    && UniqueExternal(s.rows)
    && RowsFromBatches(s.rows, |s0.rows|, batches)
    && (forall i :: 0 <= i < |s.tasks| ==> TaskOk(s, |s0.rows|, batches, s.tasks[i]))
  }

  /** Announced and owed together are one creation for each added row. */
  ghost predicate Accounted(first: nat, log0: seq<Event>, s: System, e: Event) {
    && first <= |s.rows|
    && multiset(s.log)[e] + AllOwed(s.tasks, e) == multiset(log0)[e] + multiset(Creations(s.rows[first..]))[e]
  }

  lemma {:induction false} AllOwedUpdate(ts: seq<Task>, i: nat, k: Task, e: Event)
    requires i < |ts|
    ensures AllOwed(ts[i := k], e) + Owed(ts[i], e) == AllOwed(ts, e) + Owed(k, e)
  {
    var n := |ts| - 1;
    if i == n {
      assert ts[i := k][..n] == ts[..n];
    } else {
      AllOwedUpdate(ts[..n], i, k, e);
      assert ts[i := k][..n] == ts[..n][i := k];
    }
  }

  lemma {:induction false} OneMoreCreation(rows: seq<Employee>, first: nat, r: Employee, e: Event)
    requires first <= |rows|
    ensures multiset(Creations((rows + [r])[first..]))[e]
         == multiset(Creations(rows[first..]))[e] + if e == EmployeeCreated(r.pin, r.name) then 1 else 0
  {
    assert (rows + [r])[first..] == rows[first..] + [r];
    assert Creations((rows + [r])[first..]) == Creations(rows[first..]) + [EmployeeCreated(r.pin, r.name)];
  }

  lemma {:induction false} StepIsAccounted(first: nat, log0: seq<Event>, s: System, t: Tick, e: Event)
    requires Accounted(first, log0, s, e)
    ensures Accounted(first, log0, Step(s, t), e)
  {
    var s' := Step(s, t);
    if t.task < |s.tasks| {
      var k := s.tasks[t.task];
      AllOwedUpdate(s.tasks, t.task, s'.tasks[t.task], e);
      assert s.tasks[t.task := s'.tasks[t.task]] == s'.tasks;
      if k.phase.Missed? {
        OneMoreCreation(s.rows, first, Inserting(s, k.phase.p), e);
      }
    }
  }

  /** A row that a missed payload could clash with came from a payload of the same id, so holds the same PIN. */
  lemma {:induction false} MissedMeetsItsPin(s: System, first: nat, batches: seq<seq<Payload>>, p: Payload, i: nat)
    requires OnePinEach(batches) && RowsFromBatches(s.rows, first, batches)
    requires InSome(batches, p) && p.pin != "" && first <= i < |s.rows|
    requires s.rows[i].externalId == Some(ExternalId(p))
    ensures PinTaken(s.rows, p.pin)
  {
    var q :| InSome(batches, q) && q.pin != "" && s.rows[i].externalId == Some(ExternalId(q)) && s.rows[i].pin == q.pin;
    DecimalInjective(p.odooId, q.odooId);
    assert s.rows[i] in s.rows;
  }

  lemma {:induction false} LookupIsSound(s0: System, s: System, t: Tick, batches: seq<seq<Payload>>)
    requires Sound(s0, s, batches) && t.task < |s.tasks| && s.tasks[t.task].phase.Ready?
    ensures Sound(s0, Step(s, t), batches)
  {
    var k := s.tasks[t.task];
    if k.todo != [] {
      var s' := Step(s, t);
      assert TaskOk(s, |s0.rows|, batches, k);
      assert k.todo[0] in k.todo;
      assert TaskOk(s', |s0.rows|, batches, s'.tasks[t.task]);
      OthersStayOk(s0, s, s', batches, t.task);
    }
  }

  lemma {:induction false} OthersStayOk(s0: System, s: System, s': System, batches: seq<seq<Payload>>, task: nat)
    requires Sound(s0, s, batches) && task < |s.tasks| == |s'.tasks|
    requires forall i :: 0 <= i < |s.tasks| && i != task ==> s'.tasks[i] == s.tasks[i]
    requires |s'.rows| >= |s.rows| && s'.rows[..|s.rows|] == s.rows
    ensures forall i :: 0 <= i < |s.tasks| && i != task ==> TaskOk(s', |s0.rows|, batches, s'.tasks[i])
  {
    forall i | 0 <= i < |s.tasks| && i != task
      ensures TaskOk(s', |s0.rows|, batches, s'.tasks[i])
    {
      assert TaskOk(s, |s0.rows|, batches, s.tasks[i]);
    }
  }

  lemma {:induction false} PublishIsSound(s0: System, s: System, t: Tick, batches: seq<seq<Payload>>)
    requires Sound(s0, s, batches) && t.task < |s.tasks| && s.tasks[t.task].phase.Inserted?
    ensures Sound(s0, Step(s, t), batches)
  {
    var s' := Step(s, t);
    assert TaskOk(s, |s0.rows|, batches, s.tasks[t.task]);
    assert TaskOk(s', |s0.rows|, batches, s'.tasks[t.task]);
    OthersStayOk(s0, s, s', batches, t.task);
  }

  /** An accepted insert adds the first row with its external id. */
  lemma {:induction false} InsertedIsNew(s0: System, s: System, batches: seq<seq<Payload>>, k: Task)
    requires OnePinEach(batches) && Sound(s0, s, batches) && TaskOk(s, |s0.rows|, batches, k)
    requires k.phase.Missed? && !PinTaken(s.rows, k.phase.p.pin)
    ensures UniqueExternal(s.rows + [Inserting(s, k.phase.p)])
  {
    forall i | 0 <= i < |s.rows|
      ensures s.rows[i].externalId != Some(ExternalId(k.phase.p))
    {
      if s.rows[i].externalId == Some(ExternalId(k.phase.p)) {
        MissedMeetsItsPin(s, |s0.rows|, batches, k.phase.p, i);
      }
    }
  }

  lemma {:induction false} InsertIsSound(s0: System, s: System, t: Tick, batches: seq<seq<Payload>>)
    requires OnePinEach(batches) && Sound(s0, s, batches)
    requires t.task < |s.tasks| && s.tasks[t.task].phase.Missed?
    ensures Sound(s0, Step(s, t), batches)
  {
    var s' := Step(s, t);
    var k := s.tasks[t.task];
    var first := |s0.rows|;
    assert TaskOk(s, first, batches, k);
    assert TaskOk(s', first, batches, s'.tasks[t.task]);
    if s'.rows != s.rows {
      InsertedIsNew(s0, s, batches, k);
      RowsFromGrow(s, s', first, batches, k.phase.p);
      assert s'.rows[..first] == s.rows[..first];
    }
    OthersStayOk(s0, s, s', batches, t.task);
  }

  lemma {:induction false} RowsFromGrow(s: System, s': System, first: nat, batches: seq<seq<Payload>>, p: Payload)
    requires RowsFromBatches(s.rows, first, batches) && InSome(batches, p) && p.pin != "" && first <= |s.rows|
    requires s'.rows == s.rows + [Inserting(s, p)]
    ensures RowsFromBatches(s'.rows, first, batches)
  {
    forall i | first <= i < |s'.rows|
      ensures exists q :: InSome(batches, q) && q.pin != ""
                && s'.rows[i].externalId == Some(ExternalId(q)) && s'.rows[i].pin == q.pin
    {
      if i < |s.rows| {
        assert s'.rows[i] == s.rows[i];
      } else {
        assert s'.rows[i] == Inserting(s, p);
      }
    }
  }

  lemma {:induction false} SchedulesAreSound(s0: System, ticks: seq<Tick>, batches: seq<seq<Payload>>)
    requires OnePinEach(batches) && Sound(s0, s0, batches)
    ensures Sound(s0, Schedule(s0, ticks), batches)
  {
    if ticks != [] {
      var n := |ticks| - 1;
      SchedulesAreSound(s0, ticks[..n], batches);
      var s := Schedule(s0, ticks[..n]);
      var t := ticks[n];
      if t.task < |s.tasks| {
        match s.tasks[t.task].phase
        case Ready => LookupIsSound(s0, s, t, batches);
        case Missed(_) => InsertIsSound(s0, s, t, batches);
        case Inserted(_) => PublishIsSound(s0, s, t, batches);
      }
    }
  }

  lemma {:induction false} SchedulesAreAccounted(s0: System, ticks: seq<Tick>, e: Event)
    requires Accounted(|s0.rows|, s0.log, s0, e)
    ensures Accounted(|s0.rows|, s0.log, Schedule(s0, ticks), e)
  {
    if ticks != [] {
      var n := |ticks| - 1;
      SchedulesAreAccounted(s0, ticks[..n], e);
      StepIsAccounted(|s0.rows|, s0.log, Schedule(s0, ticks[..n]), ticks[n], e);
    }
  }

  lemma {:induction false} NothingOwed(ts: seq<Task>)
    requires forall i :: 0 <= i < |ts| ==> ts[i].phase.Ready?
    ensures forall e :: AllOwed(ts, e) == 0
  {
    if ts != [] {
      NothingOwed(ts[..|ts| - 1]);
    }
  }

  lemma {:induction false} StartIsSound(
    rows: seq<Employee>, nextId: nat, clock: int, log: seq<Event>, batches: seq<seq<Payload>>)
    requires UniqueExternal(rows)
    ensures var s := Start(rows, nextId, clock, log, batches);
            Sound(s, s, batches) && forall e :: Accounted(|rows|, log, s, e)
  {
    var s := Start(rows, nextId, clock, log, batches);
    NothingOwed(s.tasks);
    assert Creations(rows[|rows|..]) == [];
    forall i | 0 <= i < |s.tasks|
      ensures TaskOk(s, |rows|, batches, s.tasks[i])
    {
      assert forall p :: p in s.tasks[i].todo ==> p in batches[i];
    }
  }

  /**
   However create deliveries interleave and whatever inserts fail, no external id ever
   has two rows; and once the deliveries are done, the announcements are exactly one
   EmployeeCreated for each added row.
   */
  lemma {:induction false} RacesAreSafe(rows: seq<Employee>, nextId: nat, clock: int, log: seq<Event>,
                     batches: seq<seq<Payload>>, ticks: seq<Tick>)
    requires UniqueExternal(rows) && OnePinEach(batches)
    ensures var s := Schedule(Start(rows, nextId, clock, log, batches), ticks);
            && UniqueExternal(s.rows)
            && |rows| <= |s.rows| && s.rows[..|rows|] == rows
            && (Done(s) ==> multiset(s.log) == multiset(log) + multiset(Creations(s.rows[|rows|..])))
  {
    var s0 := Start(rows, nextId, clock, log, batches);
    StartIsSound(rows, nextId, clock, log, batches);
    SchedulesAreSound(s0, ticks, batches);
    var s := Schedule(s0, ticks);
    if Done(s) {
      NothingOwed(s.tasks);
      forall e
        ensures multiset(s.log)[e] == multiset(log)[e] + multiset(Creations(s.rows[|rows|..]))[e]
      {
        SchedulesAreAccounted(s0, ticks, e);
      }
    }
  }

  // ── Nothing is forgotten ──

  /** The payload has no PIN, or its employee is in the table, or its PIN is somebody's. */
  predicate Served(rows: seq<Employee>, p: Payload) {
    p.pin == "" || FindExternal(rows, ExternalId(p)) < |rows| || PinTaken(rows, p.pin)
  }

  predicate Waiting(k: Task, p: Payload) {
    p in k.todo || k.phase == Missed(p)
  }

  lemma {:induction false} ServedStays(rows: seq<Employee>, rows': seq<Employee>, p: Payload)
    requires Served(rows, p) && |rows| <= |rows'| && rows'[..|rows|] == rows
    ensures Served(rows', p)
  {
    var i := FindExternal(rows, ExternalId(p));
    if i < |rows| {
      assert rows'[i].externalId == Some(ExternalId(p));
    } else if p.pin != "" {
      var r :| r in rows && r.pin == p.pin;
      assert r in rows';
    }
  }

  lemma {:induction false} StepServes(s: System, t: Tick, i: nat, p: Payload)
    requires i < |s.tasks| && (Served(s.rows, p) || Waiting(s.tasks[i], p)) && !t.insertFails
    ensures var s' := Step(s, t);
            |s'.tasks| == |s.tasks| && (Served(s'.rows, p) || Waiting(s'.tasks[i], p))
  {
    var s' := Step(s, t);
    if Served(s.rows, p) {
      ServedStays(s.rows, s'.rows, p);
    } else if t.task == i {
      var k := s.tasks[i];
      if k.phase == Missed(p) {
        assert s'.rows == s.rows + [Inserting(s, p)];
        assert Inserting(s, p) in s'.rows;
      }
    }
  }

  /** When the store fails no insert and the deliveries are done, every payload of every delivery is served. */
  lemma {:induction false} RacesServeAll(rows: seq<Employee>, nextId: nat, clock: int, log: seq<Event>,
                                         batches: seq<seq<Payload>>, ticks: seq<Tick>, i: nat, p: Payload)
    requires i < |batches| && p in batches[i]
    requires forall t :: t in ticks ==> !t.insertFails
    ensures var s := Schedule(Start(rows, nextId, clock, log, batches), ticks);
            |s.tasks| == |batches| && (Served(s.rows, p) || Waiting(s.tasks[i], p)) && (Done(s) ==> Served(s.rows, p))
  {
    if ticks != [] {
      var n := |ticks| - 1;
      RacesServeAll(rows, nextId, clock, log, batches, ticks[..n], i, p);
      StepServes(Schedule(Start(rows, nextId, clock, log, batches), ticks[..n]), ticks[n], i, p);
    }
  }

  // ── Two deliveries of one employee: the one-PIN condition is exact ──

  /** Both look up before either inserts. */
  const LOOKUPS_FIRST := [Tick(0, false), Tick(1, false), Tick(0, false), Tick(1, false)]

  lemma {:induction false} LookupsFirst(rows: seq<Employee>, nextId: nat, clock: int, p: Payload, q: Payload)
    requires p.odooId == q.odooId && p.pin != "" && q.pin != "" && p.pin != q.pin
    requires FindExternal(rows, ExternalId(p)) == |rows| && !PinTaken(rows, p.pin) && !PinTaken(rows, q.pin)
    ensures var s := Schedule(Start(rows, nextId, clock, [], [[p], [q]]), LOOKUPS_FIRST);
            |s.rows| == |rows| + 2 && s.rows[|rows|].externalId == s.rows[|rows| + 1].externalId == Some(ExternalId(p))
  {
    var s0 := Start(rows, nextId, clock, [], [[p], [q]]);
    assert s0.tasks == [Task([p], Ready), Task([q], Ready)];
    assert [p][1..] == [] && [q][1..] == [];
    var s1 := Step(s0, Tick(0, false));
    assert s1.tasks == [Task([], Missed(p)), Task([q], Ready)];
    var s2 := Step(s1, Tick(1, false));
    assert s2.tasks == [Task([], Missed(p)), Task([], Missed(q))];
    var s3 := Step(s2, Tick(0, false));
    assert s3.rows == rows + [Inserting(s2, p)];
    assert !PinTaken(s3.rows, q.pin);
    var s4 := Step(s3, Tick(1, false));
    FourTicks(s0, Tick(0, false), Tick(1, false), Tick(0, false), Tick(1, false));
  }

  lemma {:induction false} FourTicks(s: System, a: Tick, b: Tick, c: Tick, d: Tick)
    ensures Schedule(s, [a, b, c, d]) == Step(Step(Step(Step(s, a), b), c), d)
  {
    assert [a][..0] == [];
    assert [a, b][..1] == [a];
    assert [a, b, c][..2] == [a, b];
    assert [a, b, c, d][..3] == [a, b, c];
    assert Schedule(s, [a]) == Step(s, a);
    assert Schedule(s, [a, b]) == Step(Step(s, a), b);
    assert Schedule(s, [a, b, c]) == Step(Step(Step(s, a), b), c);
  }

  /** Two deliveries of one new employee are safe under every schedule exactly when they carry the same PIN. */
  lemma {:induction false} TwoDeliveriesAreSafeIff(rows: seq<Employee>, nextId: nat, clock: int, p: Payload, q: Payload)
    requires UniqueExternal(rows) && p.odooId == q.odooId && p.pin != "" && q.pin != ""
    requires FindExternal(rows, ExternalId(p)) == |rows| && !PinTaken(rows, p.pin) && !PinTaken(rows, q.pin)
    ensures (forall ticks :: UniqueExternal(Schedule(Start(rows, nextId, clock, [], [[p], [q]]), ticks).rows))
            <==> p.pin == q.pin
  {
    var batches := [[p], [q]];
    if p.pin == q.pin {
      assert forall x :: InSome(batches, x) ==> x == p || x == q;
      forall ticks
        ensures UniqueExternal(Schedule(Start(rows, nextId, clock, [], batches), ticks).rows)
      {
        RacesAreSafe(rows, nextId, clock, [], batches, ticks);
      }
    } else {
      LookupsFirst(rows, nextId, clock, p, q);
      assert !UniqueExternal(Schedule(Start(rows, nextId, clock, [], batches), LOOKUPS_FIRST).rows);
    }
  }
}
