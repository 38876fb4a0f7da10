/**
 The webhook receiver: the employee store and the event bus as objects, and the
 handlers that loop over a delivery, storing rows and publishing as they go.
 Each handler is proved to move the world as the step functions say.
 */
module Webhook {
  import opened Wrappers
  import opened Employees

  class EmployeeStore {
    const backend: Backend
    var rows: seq<Employee>
    var nextId: nat
    var clock: int
    var lookupFaults: seq<bool>
    var writeFaults: seq<bool>

    constructor (backend: Backend, rows: seq<Employee>, nextId: nat, clock: int,
                 lookupFaults: seq<bool>, writeFaults: seq<bool>)
      ensures this.backend == backend && this.rows == rows && this.nextId == nextId && this.clock == clock
      ensures this.lookupFaults == lookupFaults && this.writeFaults == writeFaults
    {
      this.backend, this.rows, this.nextId, this.clock := backend, rows, nextId, clock;
      this.lookupFaults, this.writeFaults := lookupFaults, writeFaults;
    }

    /** A new active employee with a fresh id, stamped with the current time. */
    method NewEmployee(pin: string, name: string, department: Option<string>, externalId: Option<string>)
      returns (e: Employee)
      modifies this`nextId, this`clock
      ensures e == Employee(old(nextId), pin, name, department, externalId, true, old(clock))
      ensures nextId == old(nextId) + 1 && clock == old(clock) + 1
    {
      e := Employee(nextId, pin, name, department, externalId, true, clock);
      nextId, clock := nextId + 1, clock + 1;
    }

    method Now() returns (t: int)
      modifies this`clock
      ensures t == old(clock) && clock == old(clock) + 1
    {
      t := clock;
      clock := clock + 1;
    }

    method FindEmployeeByExternalId(ext: string) returns (r: Result<Option<Employee>, ()>)
      modifies this`lookupFaults
      ensures lookupFaults == Tail(old(lookupFaults))
      ensures r.Err? <==> Fails(old(lookupFaults))
      ensures r == Ok(None) ==> forall e :: e in rows ==> e.externalId != Some(ext)
      ensures r.Ok? && r.value.Some? ==>
                && FindExternal(rows, ext) < |rows|
                && r.value.value == rows[FindExternal(rows, ext)]
      ensures r == Ok(None) ==> FindExternal(rows, ext) == |rows|
    {
      var failed := Fails(lookupFaults);
      lookupFaults := Tail(lookupFaults);
      if failed { return Err(()); }
      for i := 0 to |rows|
        invariant forall k :: 0 <= k < i ==> rows[k].externalId != Some(ext)
      {
        if rows[i].externalId == Some(ext) { return Ok(Some(rows[i])); }
      }
      return Ok(None);
    }

    method CreateEmployee(e: Employee) returns (ok: bool)
      modifies this`rows, this`writeFaults
      ensures ok == (!Fails(old(writeFaults)) && !(backend.uniquePins && PinTaken(old(rows), e.pin)))
      ensures rows == if ok then old(rows) + [e] else old(rows)
      ensures writeFaults == Tail(old(writeFaults))
    {
      ok := !Fails(writeFaults);
      writeFaults := Tail(writeFaults);
      if backend.uniquePins {
        for i := 0 to |rows|
          invariant forall k :: 0 <= k < i ==> rows[k].pin != e.pin
        {
          if rows[i].pin == e.pin { return false; }
        }
      }
      if ok { rows := rows + [e]; }
    }

    method UpdateEmployee(e: Employee) returns (ok: bool)
      modifies this`rows, this`writeFaults
      ensures ok == (&& !Fails(old(writeFaults))
                     && FindId(old(rows), e.id) < |old(rows)|
                     && !(backend.uniquePins && backend.wholeRow && PinTakenByOther(old(rows), e.pin, e.id)))
      ensures rows == (
          var i := FindId(old(rows), e.id);
          if ok then old(rows)[i := Stored(backend, old(rows)[i], e)] else old(rows))
      ensures writeFaults == Tail(old(writeFaults))
    {
      ok := !Fails(writeFaults);
      writeFaults := Tail(writeFaults);
      var i := FindId(rows, e.id);
      if i == |rows| || (backend.uniquePins && backend.wholeRow && PinTakenByOther(rows, e.pin, e.id)) {
        return false;
      }
      if ok { rows := rows[i := Stored(backend, rows[i], e)]; }
    }
  }

  class EventBus {
    var log: seq<Publication>

    constructor ()
      ensures log == []
    {
      log := [];
    }

    method Publish(e: Event, table: seq<Employee>)
      modifies this
      ensures log == old(log) + [Publication(e, table)]
      ensures TallyOf(log) == Tallied(TallyOf(old(log)), e)
    {
      TallyPublished(log, Publication(e, table));
      log := log + [Publication(e, table)];
    }
  }

  ghost function State(store: EmployeeStore, bus: EventBus): World
    reads store, bus
  {
    World(store.rows, store.nextId, store.clock, store.lookupFaults, store.writeFaults, bus.log)
  }

  ghost function Totals(bus: EventBus): Tally
    reads bus
  {
    TallyOf(bus.log)
  }

  /** The row with the payload's differing fields taken over, or None when nothing differs. */
  method DetectChanges(existing: Employee, incoming: Payload) returns (changes: Option<Employee>)
    ensures changes == if Merged(existing, incoming) == existing then None else Some(Merged(existing, incoming))
    ensures changes.None? <==>
            && incoming.name in {"", existing.name} && incoming.pin in {"", existing.pin}
            && if incoming.department == "" then existing.department.None?
               else existing.department == Some(incoming.department)
    ensures changes.Some? ==>
            var changed := changes.value;
            && (if incoming.name == "" then changed.name == existing.name else changed.name == incoming.name)
            && (if incoming.pin == "" then changed.pin == existing.pin else changed.pin == incoming.pin)
            && (if incoming.department == "" then changed.department.None?
                else changed.department == Some(incoming.department))
            && changed == existing.(name := changed.name, pin := changed.pin, department := changed.department)
  {
    var changed := existing;
    var hasChanges := false;
    if incoming.name != "" && changed.name != incoming.name {
      changed := changed.(name := incoming.name);
      hasChanges := true;
    }
    if incoming.pin != "" && changed.pin != incoming.pin {
      changed := changed.(pin := incoming.pin);
      hasChanges := true;
    }
    var newDept := OptionalString(incoming.department);
    if changed.department != newDept {
      changed := changed.(department := newDept);
      hasChanges := true;
    }
    changes := if hasChanges then Some(changed) else None;
  }

  /** Stores a new row for the payload and announces it, counting it when the store accepts it. */
  method StoreAndAnnounce(store: EmployeeStore, bus: EventBus, emp: Payload, count: nat) returns (count': nat)
    modifies store, bus
    ensures State(store, bus) == CreateAndAnnounce(store.backend, old(State(store, bus)), emp)
    ensures count <= count' <= count + 1
    ensures Totals(bus) == old(Totals(bus)).(created := old(Totals(bus)).created + count' - count)
  {
    count' := count;
    var dept := OptionalString(emp.department);
    var employee := store.NewEmployee(emp.pin, emp.name, dept, Some(Decimal(emp.odooId)));
    var ok := store.CreateEmployee(employee);
    if !ok { return; }

    count' := count' + 1;
    bus.Publish(EmployeeCreated(emp.pin, emp.name), store.rows);
  }

  /** The body of the loop over a create delivery. */
  method CreateOne(store: EmployeeStore, bus: EventBus, emp: Payload, created: nat) returns (created': nat)
    modifies store, bus
    ensures State(store, bus) == CreateStep(store.backend, old(State(store, bus)), emp)
    ensures created <= created' <= created + 1
    ensures Totals(bus) == old(Totals(bus)).(created := old(Totals(bus)).created + created' - created)
  {
    created' := created;
    if emp.pin == "" { return; }
    var lookup := store.FindEmployeeByExternalId(Decimal(emp.odooId));
    if lookup.Ok? && lookup.value.Some? { return; }
    created' := StoreAndAnnounce(store, bus, emp, created);
  }

  /** Counts exactly the announced creations, and announces nothing else. */
  method HandleCreate(store: EmployeeStore, bus: EventBus, employees: seq<Payload>) returns (created: nat)
    modifies store, bus
    ensures State(store, bus) == CreateBatch(store.backend, old(State(store, bus)), employees)
    ensures Totals(bus) == old(Totals(bus)).(created := old(Totals(bus)).created + created)
    ensures created <= |employees|
  {
    created := 0;
    ghost var before, totals := State(store, bus), Totals(bus);
    for i := 0 to |employees|
      invariant State(store, bus) == CreateBatch(store.backend, before, employees[..i])
      invariant Totals(bus) == totals.(created := totals.created + created)
      invariant created <= i
    {
      assert employees[..i + 1][..i] == employees[..i];
      created := CreateOne(store, bus, employees[i], created);
    }
    assert employees[..|employees|] == employees;
  }

  /** A write for an unknown employee creates it, and counts as an update. */
  method SyncCreateFromWrite(store: EmployeeStore, bus: EventBus, emp: Payload, updated: nat)
    returns (updated': nat)
    modifies store, bus
    ensures State(store, bus) ==
            if emp.pin == "" then old(State(store, bus))
            else CreateAndAnnounce(store.backend, old(State(store, bus)), emp)
    ensures updated <= updated' <= updated + 1
    ensures Totals(bus) == old(Totals(bus)).(created := old(Totals(bus)).created + updated' - updated)
  {
    updated' := updated;
    if emp.pin == "" { return; }
    updated' := StoreAndAnnounce(store, bus, emp, updated);
  }

  /** Clears the flag and asks the devices to drop the employee. */
  method SyncDeactivate(store: EmployeeStore, bus: EventBus, existing: Employee, deactivated: nat)
    returns (deactivated': nat)
    modifies store, bus
    ensures State(store, bus) == Deactivated(store.backend, old(State(store, bus)), existing)
    ensures deactivated <= deactivated' <= deactivated + 1
    ensures var t, n := old(Totals(bus)), deactivated' - deactivated;
            Totals(bus) == t.(deactivated := t.deactivated + n, removed := t.removed + n)
  {
    deactivated' := deactivated;
    ghost var before := State(store, bus);
    var now := store.Now();
    var emp := existing.(active := false, updatedAt := now);
    var ok := store.UpdateEmployee(emp);
    assert ok == UpdateAccepted(store.backend, Ticked(before), emp);
    ghost var after := State(store, bus);
    assert after == AfterUpdate(store.backend, Ticked(before), emp);
    if !ok { return; }

    deactivated' := deactivated' + 1;
    bus.Publish(EmployeeDeactivated(existing.pin), store.rows);
    assert State(store, bus) == Published(after, EmployeeDeactivated(existing.pin));
    bus.Publish(EmployeeRemoveRequested(existing.pin), store.rows);
    assert State(store, bus)
        == Published(Published(after, EmployeeDeactivated(existing.pin)), EmployeeRemoveRequested(existing.pin));
  }

  /** Stores the changed fields, if any, and announces them. */
  method SyncChanges(store: EmployeeStore, bus: EventBus, existing: Employee, emp: Payload, updated: nat)
    returns (updated': nat)
    modifies store, bus
    ensures State(store, bus) == Rewritten(store.backend, old(State(store, bus)), existing, emp)
    ensures updated <= updated' <= updated + 1
    ensures Totals(bus) == old(Totals(bus)).(updated := old(Totals(bus)).updated + updated' - updated)
  {
    updated' := updated;
    var changes := DetectChanges(existing, emp);
    if changes == None { return; }
    var now := store.Now();
    var changed := changes.value.(updatedAt := now);
    var ok := store.UpdateEmployee(changed);
    if !ok { return; }

    updated' := updated' + 1;
    bus.Publish(EmployeeUpdated(existing.id, changed.pin, changed.name), store.rows);
  }

  /** How a write delivery's two counters relate to what it announced. */
  ghost predicate WriteTotals(before: Tally, after: Tally, updated: int, deactivated: int) {
    && after.created - before.created + after.updated - before.updated == updated
    && after.deactivated - before.deactivated == deactivated
    && after.removed - before.removed == deactivated
  }

  /** The body of the loop over a write delivery. */
  method WriteOne(store: EmployeeStore, bus: EventBus, emp: Payload, updated: nat, deactivated: nat)
    returns (updated': nat, deactivated': nat)
    modifies store, bus
    ensures State(store, bus) == WriteStep(store.backend, old(State(store, bus)), emp)
    ensures WriteTotals(old(Totals(bus)), Totals(bus), updated' - updated, deactivated' - deactivated)
    ensures updated' + deactivated' <= updated + deactivated + 1
  {
    updated', deactivated' := updated, deactivated;
    var lookup := store.FindEmployeeByExternalId(Decimal(emp.odooId));
    if lookup.Err? { return; }
    if lookup.value == None {
      updated' := SyncCreateFromWrite(store, bus, emp, updated);
      return;
    }
    var existing := lookup.value.value;

    if !emp.active && existing.active {
      deactivated' := SyncDeactivate(store, bus, existing, deactivated);
      return;
    }
    updated' := SyncChanges(store, bus, existing, emp, updated);
  }

  /** Counts created and changed employees as updated, and announces each deactivation as a pair. */
  method HandleWrite(store: EmployeeStore, bus: EventBus, employees: seq<Payload>)
    returns (updated: nat, deactivated: nat)
    modifies store, bus
    ensures State(store, bus) == WriteBatch(store.backend, old(State(store, bus)), employees)
    ensures WriteTotals(old(Totals(bus)), Totals(bus), updated, deactivated)
    ensures updated + deactivated <= |employees|
  {
    updated, deactivated := 0, 0;
    ghost var before, totals := State(store, bus), Totals(bus);
    for i := 0 to |employees|
      invariant State(store, bus) == WriteBatch(store.backend, before, employees[..i])
      invariant WriteTotals(totals, Totals(bus), updated, deactivated)
      invariant updated + deactivated <= i
    {
      assert employees[..i + 1][..i] == employees[..i];
      updated, deactivated := WriteOne(store, bus, employees[i], updated, deactivated);
    }
    assert employees[..|employees|] == employees;
  }

  /** The body of the loop over an unlink delivery: no row is written. */
  method UnlinkOne(store: EmployeeStore, bus: EventBus, odooId: int, removed: nat) returns (removed': nat)
    modifies store`lookupFaults, bus
    ensures State(store, bus) == UnlinkStep(old(State(store, bus)), odooId)
    ensures removed <= removed' <= removed + 1
    ensures var t, n := old(Totals(bus)), removed' - removed;
            Totals(bus) == t.(deactivated := t.deactivated + n, removed := t.removed + n)
  {
    removed' := removed;
    var lookup := store.FindEmployeeByExternalId(Decimal(odooId));
    if lookup.Err? || lookup.value == None { return; }
    var employee := lookup.value.value;

    bus.Publish(EmployeeRemoveRequested(employee.pin), store.rows);
    bus.Publish(EmployeeDeactivated(employee.pin), store.rows);
    removed' := removed + 1;
  }

  method HandleUnlink(store: EmployeeStore, bus: EventBus, employeeIds: seq<int>) returns (removed: nat)
    modifies store`lookupFaults, bus
    ensures State(store, bus) == UnlinkBatch(old(State(store, bus)), employeeIds)
    ensures var t := old(Totals(bus));
            Totals(bus) == t.(deactivated := t.deactivated + removed, removed := t.removed + removed)
    ensures removed <= |employeeIds|
  {
    removed := 0;
    ghost var before, totals := State(store, bus), Totals(bus);
    for i := 0 to |employeeIds|
      invariant State(store, bus) == UnlinkBatch(before, employeeIds[..i])
      invariant Totals(bus) == totals.(deactivated := totals.deactivated + removed, removed := totals.removed + removed)
      invariant removed <= i
    {
      assert employeeIds[..i + 1][..i] == employeeIds[..i];
      removed := UnlinkOne(store, bus, employeeIds[i], removed);
    }
    assert employeeIds[..|employeeIds|] == employeeIds;
  }

  /** The receiver: dispatches on the event type. An unknown type changes nothing. */
  method OdooEmployeeEvent(
    store: EmployeeStore, bus: EventBus, event: string, employees: seq<Payload>, employeeIds: seq<int>)
    modifies store, bus
    ensures State(store, bus)
         == Deliver(store.backend, old(State(store, bus)), DeliveryOf(event, employees, employeeIds))
    ensures event == "create" ==> State(store, bus) == CreateBatch(store.backend, old(State(store, bus)), employees)
    ensures event == "write" ==> State(store, bus) == WriteBatch(store.backend, old(State(store, bus)), employees)
    ensures event == "unlink" ==> State(store, bus) == UnlinkBatch(old(State(store, bus)), employeeIds)
    ensures event !in ["create", "write", "unlink"] ==> State(store, bus) == old(State(store, bus))
  {
    assert "create"[0] == 'c' && "write"[0] == 'w' && "unlink"[0] == 'u';
    if event == "create" {
      var _ := HandleCreate(store, bus, employees);
    } else if event == "write" {
      var _, _ := HandleWrite(store, bus, employees);
    } else if event == "unlink" {
      var _ := HandleUnlink(store, bus, employeeIds);
    }
  }
}
