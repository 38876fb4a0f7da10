/**
 The employee table, its storage calls and the webhook's steps over them,
 as functions from one state of the world to the next.

 The table is the sequence of its rows in insertion order; a lookup answers
 with the first match. Storage calls may fail: the environment scripts the
 outcomes of the coming calls, and calls beyond the script succeed. A failed
 call changes no row.
 */
module Employees {
  import opened Wrappers

  /** One row. `id` stands for the generated identifier, `updatedAt` for the time stamp. */
  datatype Employee = Employee(
    id: nat,
    pin: string,
    name: string,
    department: Option<string>,
    externalId: Option<string>,
    active: bool,
    updatedAt: int)

  /** One employee as the Odoo webhook reports it. */
  datatype Payload = Payload(odooId: int, name: string, pin: string, department: string, active: bool)

  datatype Event =
    | EmployeeCreated(pin: string, name: string)
    | EmployeeUpdated(id: nat, pin: string, name: string)
    | EmployeeDeactivated(pin: string)
    | EmployeeRemoveRequested(pin: string)

  /** A published event, with the table as it stood at that moment. */
  datatype Publication = Publication(event: Event, table: seq<Employee>)

  /**
   What a store does beyond the interface.

   `uniquePins`: a write that would give a PIN to two rows is refused.
   `wholeRow`: an update stores every field. The handlers count on this; the
   two shipped stores write the name, department and external id columns only,
   so for them it is false.
   */
  datatype Backend = Backend(uniquePins: bool, wholeRow: bool)

  const SHIPPED := Backend(true, false)

  datatype World = World(
    rows: seq<Employee>,
    nextId: nat,
    clock: int,
    lookupFaults: seq<bool>,
    writeFaults: seq<bool>,
    log: seq<Publication>)

  // ── Decimal printing of Odoo ids ──

  function Digit(d: nat): char
    requires d < 10
  {
    ['0', '1', '2', '3', '4', '5', '6', '7', '8', '9'][d]
  }

  function DecimalNat(n: nat): (s: string)
    ensures |s| > 0 && s[0] != '-'
  {
    if n < 10 then [Digit(n)] else DecimalNat(n / 10) + [Digit(n % 10)]
  }

  function Decimal(n: int): string {
    if n < 0 then "-" + DecimalNat(-n) else DecimalNat(n)
  }

  function ExternalId(p: Payload): string {
    Decimal(p.odooId)
  }

  // ── The table ──

  function OptionalString(s: string): Option<string> {
    if s == "" then None else Some(s)
  }

  /** The position of the first row with this external id, or the table's length. */
  function FindExternal(rows: seq<Employee>, ext: string): (i: nat)
    ensures i <= |rows|
    ensures i < |rows| ==> rows[i].externalId == Some(ext)
    ensures forall k :: 0 <= k < i ==> rows[k].externalId != Some(ext)
  {
    if rows == [] then 0
    else if rows[0].externalId == Some(ext) then 0
    else 1 + FindExternal(rows[1..], ext)
  }

  /** The position of the first row with this id, or the table's length. */
  function FindId(rows: seq<Employee>, id: nat): (i: nat)
    ensures i <= |rows|
    ensures i < |rows| ==> rows[i].id == id
    ensures forall k :: 0 <= k < i ==> rows[k].id != id
  {
    if rows == [] then 0
    else if rows[0].id == id then 0
    else 1 + FindId(rows[1..], id)
  }

  predicate PinTaken(rows: seq<Employee>, pin: string) {
    exists r :: r in rows && r.pin == pin
  }

  predicate PinTakenByOther(rows: seq<Employee>, pin: string, id: nat) {
    exists r :: r in rows && r.pin == pin && r.id != id
  }

  /** The row an accepted update leaves behind. */
  function Stored(b: Backend, row: Employee, e: Employee): Employee {
    if b.wholeRow then e
    else row.(name := e.name, department := e.department, externalId := e.externalId, updatedAt := e.updatedAt)
  }

  // ── Storage calls ──

  function Tail<T>(s: seq<T>): seq<T> {
    if s == [] then [] else s[1..]
  }

  predicate Fails(script: seq<bool>) {
    script != [] && script[0]
  }

  datatype Lookup = Failed | Missing | Found(employee: Employee)

  function LookUp(w: World, ext: string): Lookup {
    if Fails(w.lookupFaults) then Failed
    else
      var i := FindExternal(w.rows, ext);
      if i < |w.rows| then Found(w.rows[i]) else Missing
  }

  function AfterLookUp(w: World): World {
    w.(lookupFaults := Tail(w.lookupFaults))
  }

  predicate CreateAccepted(b: Backend, w: World, e: Employee) {
    !Fails(w.writeFaults) && !(b.uniquePins && PinTaken(w.rows, e.pin))
  }

  function AfterCreate(b: Backend, w: World, e: Employee): World {
    w.(rows := if CreateAccepted(b, w, e) then w.rows + [e] else w.rows,
       writeFaults := Tail(w.writeFaults))
  }

  predicate UpdateAccepted(b: Backend, w: World, e: Employee) {
    && !Fails(w.writeFaults)
    && FindId(w.rows, e.id) < |w.rows|
    && !(b.uniquePins && b.wholeRow && PinTakenByOther(w.rows, e.pin, e.id))
  }

  function AfterUpdate(b: Backend, w: World, e: Employee): World {
    var i := FindId(w.rows, e.id);
    w.(rows := if UpdateAccepted(b, w, e) then w.rows[i := Stored(b, w.rows[i], e)] else w.rows,
       writeFaults := Tail(w.writeFaults))
  }

  function Published(w: World, e: Event): World {
    w.(log := w.log + [Publication(e, w.rows)])
  }

  function Ticked(w: World): World {
    w.(clock := w.clock + 1)
  }

  // ── Steps: one payload of one delivery ──

  function NewEmployee(w: World, p: Payload): Employee {
    Employee(w.nextId, p.pin, p.name, OptionalString(p.department), Some(ExternalId(p)), true, w.clock)
  }

  /** Builds a row from the payload, stores it and announces it. */
  function CreateAndAnnounce(b: Backend, w: World, p: Payload): World {
    var e := NewEmployee(w, p);
    var w1 := w.(nextId := w.nextId + 1, clock := w.clock + 1);
    var w2 := AfterCreate(b, w1, e);
    if CreateAccepted(b, w1, e) then Published(w2, EmployeeCreated(p.pin, p.name)) else w2
  }

  function CreateStep(b: Backend, w: World, p: Payload): World {
    if p.pin == "" then w
    else if LookUp(w, ExternalId(p)).Found? then AfterLookUp(w)
    else CreateAndAnnounce(b, AfterLookUp(w), p)
  }

  /** The row with the payload's values; an empty name or PIN means "not given". */
  function Merged(x: Employee, p: Payload): Employee {
    x.(name := if p.name == "" then x.name else p.name,
       pin := if p.pin == "" then x.pin else p.pin,
       department := OptionalString(p.department))
  }

  function Deactivated(b: Backend, w: World, x: Employee): World {
    var e := x.(active := false, updatedAt := w.clock);
    var w1 := Ticked(w);
    var w2 := AfterUpdate(b, w1, e);
    if UpdateAccepted(b, w1, e)
    then Published(Published(w2, EmployeeDeactivated(x.pin)), EmployeeRemoveRequested(x.pin))
    else w2
  }

  function Rewritten(b: Backend, w: World, x: Employee, p: Payload): World {
    if Merged(x, p) == x then w
    else
      var e := Merged(x, p).(updatedAt := w.clock);
      var w1 := Ticked(w);
      var w2 := AfterUpdate(b, w1, e);
      if UpdateAccepted(b, w1, e) then Published(w2, EmployeeUpdated(x.id, e.pin, e.name)) else w2
  }

  function WriteStep(b: Backend, w: World, p: Payload): World {
    var w1 := AfterLookUp(w);
    match LookUp(w, ExternalId(p))
    case Failed => w1
    case Missing => if p.pin == "" then w1 else CreateAndAnnounce(b, w1, p)
    case Found(x) => if !p.active && x.active then Deactivated(b, w1, x) else Rewritten(b, w1, x, p)
  }

  function UnlinkStep(w: World, odooId: int): World {
    var w1 := AfterLookUp(w);
    match LookUp(w, Decimal(odooId))
    case Found(x) => Published(Published(w1, EmployeeRemoveRequested(x.pin)), EmployeeDeactivated(x.pin))
    case _ => w1
  }

  // ── Deliveries ──

  function CreateBatch(b: Backend, w: World, ps: seq<Payload>): World {
    if ps == [] then w else CreateStep(b, CreateBatch(b, w, ps[..|ps| - 1]), ps[|ps| - 1])
  }

  function WriteBatch(b: Backend, w: World, ps: seq<Payload>): World {
    if ps == [] then w else WriteStep(b, WriteBatch(b, w, ps[..|ps| - 1]), ps[|ps| - 1])
  }

  function UnlinkBatch(w: World, ids: seq<int>): World {
    if ids == [] then w else UnlinkStep(UnlinkBatch(w, ids[..|ids| - 1]), ids[|ids| - 1])
  }

  /** One webhook call. An unknown event type is acknowledged and ignored. */
  datatype Delivery =
    | Create(employees: seq<Payload>)
    | Write(employees: seq<Payload>)
    | Unlink(ids: seq<int>)
    | Unknown(event: string)

  /** The call as its event type has it read: the other list is not looked at. */
  function DeliveryOf(event: string, employees: seq<Payload>, ids: seq<int>): Delivery {
    if event == "create" then Create(employees)
    else if event == "write" then Write(employees)
    else if event == "unlink" then Unlink(ids)
    else Unknown(event)
  }

  function Deliver(b: Backend, w: World, d: Delivery): World {
    match d
    case Create(ps) => CreateBatch(b, w, ps)
    case Write(ps) => WriteBatch(b, w, ps)
    case Unlink(ids) => UnlinkBatch(w, ids)
    case Unknown(_) => w
  }

  function Run(b: Backend, w: World, ds: seq<Delivery>): World {
    if ds == [] then w else Deliver(b, Run(b, w, ds[..|ds| - 1]), ds[|ds| - 1])
  }

  // ── Counting events ──

  datatype Tally = Tally(created: int, updated: int, deactivated: int, removed: int)

  function Tallied(t: Tally, e: Event): Tally {
    match e
    case EmployeeCreated(_, _) => t.(created := t.created + 1)
    case EmployeeUpdated(_, _, _) => t.(updated := t.updated + 1)
    case EmployeeDeactivated(_) => t.(deactivated := t.deactivated + 1)
    case EmployeeRemoveRequested(_) => t.(removed := t.removed + 1)
  }

  function TallyOf(log: seq<Publication>): Tally {
    if log == [] then Tally(0, 0, 0, 0) else Tallied(TallyOf(log[..|log| - 1]), log[|log| - 1].event)
  }

  lemma {:induction false} TallyPublished(log: seq<Publication>, p: Publication)
    ensures TallyOf(log + [p]) == Tallied(TallyOf(log), p.event)
  {
    assert (log + [p])[..|log|] == log;
  }

  // ── Decimal printing is injective ──

  lemma {:induction false} DecimalNatInjective(m: nat, n: nat)
    requires DecimalNat(m) == DecimalNat(n)
    ensures m == n
  {
    var s, t := DecimalNat(m), DecimalNat(n);
    assert s[|s| - 1] == Digit(m % 10) && t[|t| - 1] == Digit(n % 10);
    if m >= 10 && n >= 10 {
      assert s[..|s| - 1] == DecimalNat(m / 10);
      assert t[..|t| - 1] == DecimalNat(n / 10);
      DecimalNatInjective(m / 10, n / 10);
    }
  }

  lemma {:induction false} DecimalSign(n: int)
    ensures |Decimal(n)| > 0 && (Decimal(n)[0] == '-' <==> n < 0)
    ensures n < 0 ==> Decimal(n)[1..] == DecimalNat(-n)
  {
  }

  /** Two Odoo ids never share an external id. */
  lemma {:induction false} DecimalInjective(m: int, n: int)
    ensures Decimal(m) == Decimal(n) <==> m == n
  {
    if Decimal(m) == Decimal(n) {
      DecimalSign(m);
      DecimalSign(n);
      if m < 0 {
        DecimalNatInjective(-m, -n);
      } else {
        DecimalNatInjective(m, n);
      }
    }
  }
}
