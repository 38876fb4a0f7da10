/**
 Runs of deliveries as runs of single jobs, and what one job can do to the table.
 Every property of whole runs is proved once, over jobs.
 */
module WebhookRuns {
  import opened Wrappers
  import opened Employees

  datatype Job = CreateJob(p: Payload) | WriteJob(p: Payload) | UnlinkJob(odooId: int)

  function Do(b: Backend, w: World, j: Job): World {
    match j
    case CreateJob(p) => CreateStep(b, w, p)
    case WriteJob(p) => WriteStep(b, w, p)
    case UnlinkJob(id) => UnlinkStep(w, id)
  }

  function DoAll(b: Backend, w: World, js: seq<Job>): World {
    if js == [] then w else Do(b, DoAll(b, w, js[..|js| - 1]), js[|js| - 1])
  }

  function Jobs(d: Delivery): seq<Job> {
    match d
    case Create(ps) => seq(|ps|, i requires 0 <= i < |ps| => CreateJob(ps[i]))
    case Write(ps) => seq(|ps|, i requires 0 <= i < |ps| => WriteJob(ps[i]))
    case Unlink(ids) => seq(|ids|, i requires 0 <= i < |ids| => UnlinkJob(ids[i]))
    case Unknown(_) => []
  }

  function AllJobs(ds: seq<Delivery>): seq<Job> {
    if ds == [] then [] else AllJobs(ds[..|ds| - 1]) + Jobs(ds[|ds| - 1])
  }

  /** The external id a job is about. */
  function Named(j: Job): string {
    match j
    case CreateJob(p) => ExternalId(p)
    case WriteJob(p) => ExternalId(p)
    case UnlinkJob(id) => Decimal(id)
  }

  lemma {:induction false} DoAllConcat(b: Backend, w: World, js: seq<Job>, ks: seq<Job>)
    ensures DoAll(b, w, js + ks) == DoAll(b, DoAll(b, w, js), ks)
  {
    if ks == [] {
      assert js + ks == js;
    } else {
      DoAllConcat(b, w, js, ks[..|ks| - 1]);
      assert (js + ks)[..|js + ks| - 1] == js + ks[..|ks| - 1];
    }
  }

  lemma {:induction false} CreateBatchIsJobs(b: Backend, w: World, ps: seq<Payload>)
    ensures CreateBatch(b, w, ps) == DoAll(b, w, Jobs(Create(ps)))
  {
    if ps != [] {
      CreateBatchIsJobs(b, w, ps[..|ps| - 1]);
      assert Jobs(Create(ps))[..|ps| - 1] == Jobs(Create(ps[..|ps| - 1]));
    }
  }

  lemma {:induction false} WriteBatchIsJobs(b: Backend, w: World, ps: seq<Payload>)
    ensures WriteBatch(b, w, ps) == DoAll(b, w, Jobs(Write(ps)))
  {
    if ps != [] {
      WriteBatchIsJobs(b, w, ps[..|ps| - 1]);
      assert Jobs(Write(ps))[..|ps| - 1] == Jobs(Write(ps[..|ps| - 1]));
    }
  }

  lemma {:induction false} UnlinkBatchIsJobs(b: Backend, w: World, ids: seq<int>)
    ensures UnlinkBatch(w, ids) == DoAll(b, w, Jobs(Unlink(ids)))
  {
    if ids != [] {
      UnlinkBatchIsJobs(b, w, ids[..|ids| - 1]);
      assert Jobs(Unlink(ids))[..|ids| - 1] == Jobs(Unlink(ids[..|ids| - 1]));
    }
  }

  lemma {:induction false} DeliveryIsJobs(b: Backend, w: World, d: Delivery)
    ensures Deliver(b, w, d) == DoAll(b, w, Jobs(d))
  {
    match d
    case Create(ps) => CreateBatchIsJobs(b, w, ps);
    case Write(ps) => WriteBatchIsJobs(b, w, ps);
    case Unlink(ids) => UnlinkBatchIsJobs(b, w, ids);
    case Unknown(_) =>
  }

  /** A run of deliveries is the run of its jobs. */
  lemma {:induction false} RunIsJobs(b: Backend, w: World, ds: seq<Delivery>)
    ensures Run(b, w, ds) == DoAll(b, w, AllJobs(ds))
  {
    if ds != [] {
      var n := |ds| - 1;
      RunIsJobs(b, w, ds[..n]);
      DeliveryIsJobs(b, Run(b, w, ds[..n]), ds[n]);
      DoAllConcat(b, w, AllJobs(ds[..n]), Jobs(ds[n]));
    }
  }

  // ── What one job can do ──

  /** A job leaves the table alone, adds a row, retires a row or edits one; or, unlinking, only announces. */
  datatype Move =
    | Stay
    | Add(row: Employee)
    | Retire(i: nat, row: Employee)
    | Edit(i: nat, row: Employee)
    | Drop(i: nat)

  function RowsAfter(b: Backend, rows: seq<Employee>, m: Move): seq<Employee>
    requires m.Retire? || m.Edit? ==> m.i < |rows|
  {
    match m
    case Stay => rows
    case Add(e) => rows + [e]
    case Retire(i, e) => rows[i := Stored(b, rows[i], e)]
    case Edit(i, e) => rows[i := Stored(b, rows[i], e)]
    case Drop(_) => rows
  }

  function News(b: Backend, rows: seq<Employee>, m: Move): seq<Publication>
    requires m.Retire? || m.Edit? || m.Drop? ==> m.i < |rows|
  {
    var table := RowsAfter(b, rows, m);
    match m
    case Stay => []
    case Add(e) => [Publication(EmployeeCreated(e.pin, e.name), table)]
    case Retire(i, _) => [Publication(EmployeeDeactivated(rows[i].pin), table),
                          Publication(EmployeeRemoveRequested(rows[i].pin), table)]
    case Edit(_, e) => [Publication(EmployeeUpdated(e.id, e.pin, e.name), table)]
    case Drop(i) => [Publication(EmployeeRemoveRequested(rows[i].pin), table),
                     Publication(EmployeeDeactivated(rows[i].pin), table)]
  }

  /** The moves open to a job about the external id `ext`. */
  ghost predicate Allowed(b: Backend, w: World, ext: string, m: Move) {
    match m
    case Stay => true
    case Add(e) =>
      && e.externalId == Some(ext) && e.active && e.id == w.nextId && e.pin != ""
      && (b.uniquePins ==> !PinTaken(w.rows, e.pin))
      && (!Fails(w.lookupFaults) ==> forall r :: r in w.rows ==> r.externalId != Some(ext))
    case Retire(i, e) =>
      && i < |w.rows| && w.rows[i].externalId == Some(ext) && w.rows[i].active
      && e == w.rows[i].(active := false, updatedAt := e.updatedAt)
    case Edit(i, e) =>
      && i < |w.rows| && w.rows[i].externalId == Some(ext)
      && e == w.rows[i].(pin := e.pin, name := e.name, department := e.department, updatedAt := e.updatedAt)
      && (b.uniquePins && b.wholeRow ==> !PinTakenByOther(w.rows, e.pin, e.id))
    case Drop(i) => i < |w.rows| && w.rows[i].externalId == Some(ext)
  }

  /** Every row has its own id, and no coming id is in use. */
  ghost predicate WellFormed(w: World) {
    && (forall i, j :: 0 <= i < j < |w.rows| ==> w.rows[i].id != w.rows[j].id)
    && (forall i :: 0 <= i < |w.rows| ==> w.rows[i].id < w.nextId)
  }

  lemma {:induction false} FindOwnId(w: World, i: nat)
    requires WellFormed(w) && i < |w.rows|
    ensures FindId(w.rows, w.rows[i].id) == i
  {
    var k := FindId(w.rows, w.rows[i].id);
    assert k <= i;
  }

  ghost predicate MovesBy(b: Backend, w: World, w': World, ext: string, m: Move) {
    && Allowed(b, w, ext, m)
    && w'.rows == RowsAfter(b, w.rows, m)
    && w'.log == w.log + News(b, w.rows, m)
    && w'.nextId >= w.nextId + (if m.Add? then 1 else 0)
    && (w'.lookupFaults == w.lookupFaults || w'.lookupFaults == Tail(w.lookupFaults))
  }

  lemma {:induction false} CreateMoves(b: Backend, w: World, p: Payload) returns (m: Move)
    requires p.pin != ""
    requires !Fails(w.lookupFaults) ==> forall r :: r in w.rows ==> r.externalId != Some(ExternalId(p))
    ensures m.Stay? || m.Add?
    ensures MovesBy(b, w, CreateAndAnnounce(b, AfterLookUp(w), p), ExternalId(p), m)
  {
    var e := NewEmployee(AfterLookUp(w), p);
    var w' := CreateAndAnnounce(b, AfterLookUp(w), p);
    if w'.rows == w.rows {
      m := Stay;
      assert w'.log == w.log;
    } else {
      m := Add(e);
    }
  }

  /** What a job does is one of the allowed moves. */
  lemma {:induction false} JobMoves(b: Backend, w: World, j: Job) returns (m: Move)
    requires WellFormed(w)
    ensures MovesBy(b, w, Do(b, w, j), Named(j), m)
    ensures m.Drop? ==> j.UnlinkJob?
    ensures j.UnlinkJob? ==> m.Drop? || m.Stay?
    ensures j.CreateJob? ==> m.Add? || m.Stay?
  {
    m := Stay;
    var ext := Named(j);
    var i := FindExternal(w.rows, ext);
    match j
    case CreateJob(p) =>
      if p.pin != "" && !LookUp(w, ext).Found? {
        m := CreateMoves(b, w, p);
      }
    case WriteJob(p) =>
      match LookUp(w, ext) {
        case Failed =>
        case Missing =>
          if p.pin != "" { m := CreateMoves(b, w, p); }
        case Found(x) =>
          FindOwnId(w, i);
          m := FoundMoves(b, w, p, i);
      }
    case UnlinkJob(id) =>
      if LookUp(w, ext).Found? { m := Drop(i); }
  }

  lemma {:induction false} FoundMoves(b: Backend, w: World, p: Payload, i: nat) returns (m: Move)
    requires i < |w.rows| && LookUp(w, ExternalId(p)) == Found(w.rows[i]) && FindId(w.rows, w.rows[i].id) == i
    requires w.rows[i].externalId == Some(ExternalId(p))
    ensures MovesBy(b, w, WriteStep(b, w, p), ExternalId(p), m) && (m.Stay? || m.Retire? || m.Edit?)
    ensures m.Retire? ==> m.i == i && !p.active && w.rows[i].active
    ensures m.Edit? ==> m.i == i && (p.active || !w.rows[i].active)
    ensures m.Edit? ==> m.row == Merged(w.rows[i], p).(updatedAt := m.row.updatedAt)
  {
    m := Stay;
    var x := w.rows[i];
    var w1 := Ticked(AfterLookUp(w));
    if !p.active && x.active {
      var e := x.(active := false, updatedAt := w.clock);
      if UpdateAccepted(b, w1, e) { m := Retire(i, e); }
    } else if Merged(x, p) != x {
      var e := Merged(x, p).(updatedAt := w.clock);
      if UpdateAccepted(b, w1, e) { m := Edit(i, e); }
    }
  }
}
