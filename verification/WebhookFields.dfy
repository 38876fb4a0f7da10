/**
 What a payload does to the fields of a row, one by one: how a write takes them over, what
 a retirement leaves of them, and what a new row holds.
 */
module WebhookFields {
  import opened Wrappers
  import opened Employees
  import opened WebhookRuns
  import Clock

  // ── External ids ──

  lemma {:induction false} DigitIsDigit(d: nat)
    requires d < 10
    ensures Digit(d) == Clock.DigitOf(d)
  {
  }

  lemma {:induction false} DecimalNatReads(n: nat)
    ensures Clock.AllDigits(DecimalNat(n)) && Clock.Value(DecimalNat(n)) == n
  {
    var s := DecimalNat(n);
    DigitIsDigit(n % 10);
    if n < 10 {
      assert s[..0] == "";
    } else {
      DecimalNatReads(n / 10);
      assert s[..|s| - 1] == DecimalNat(n / 10);
    }
  }

  lemma {:induction false} NumeralOfDigits(digits: string, n: nat)
    requires digits != "" && Clock.AllDigits(digits) && Clock.Value(digits) == n
    ensures Clock.Numeral(digits) == Some(n) && Clock.Numeral("-" + digits) == Some(0 - n)
  {
    assert Clock.IsDigit(digits[0]) by { assert digits[0] in digits; }
    assert ("-" + digits)[1..] == digits;
  }

  /** An external id reads back as the Odoo id it was printed from, and has no leading zero or plus. */
  lemma {:induction false} ExternalIdReadsBack(n: int)
    ensures Clock.Numeral(Decimal(n)) == Some(n)
    ensures Decimal(n)[0] != '+' && (Decimal(n)[0] == '0' ==> n == 0)
  {
    var m := if n < 0 then -n else n;
    DecimalNatReads(m);
    LeadingDigit(m);
    NumeralOfDigits(DecimalNat(m), m);
  }

  lemma {:induction false} LeadingDigit(n: nat)
    ensures var c := DecimalNat(n)[0];
            Clock.IsDigit(c) && (c == '0' ==> n == 0)
  {
    DigitIsDigit(n % 10);
    if n >= 10 {
      LeadingDigit(n / 10);
    }
  }

  // ── A write for a known employee ──

  /** The row holds the department the payload gives, where an empty one means none. */
  predicate HasDepartment(row: Employee, department: string) {
    if department == "" then row.department.None? else row.department == Some(department)
  }

  /** Row `i` is the first with the payload's external id, and no call fails. */
  ghost predicate FindsRow(w: World, p: Payload, i: nat) {
    && WellFormed(w) && !Fails(w.lookupFaults) && !Fails(w.writeFaults)
    && i < |w.rows| && w.rows[i].externalId == Some(Decimal(p.odooId))
    && forall k :: 0 <= k < i ==> w.rows[k].externalId != Some(Decimal(p.odooId))
  }

  lemma {:induction false} RowIsFound(w: World, p: Payload, i: nat)
    requires FindsRow(w, p, i)
    ensures FindExternal(w.rows, ExternalId(p)) == i && FindId(w.rows, w.rows[i].id) == i
  {
    FindOwnId(w, i);
  }

  /** The row `x` becomes `y`, and all other rows stay. */
  predicate OnlyRow(before: seq<Employee>, after: seq<Employee>, i: nat) {
    |after| == |before| && i < |before| && forall k :: 0 <= k < |before| && k != i ==> after[k] == before[k]
  }

  predicate SameFields(x: Employee, y: Employee) {
    y.name == x.name && y.pin == x.pin && y.department == x.department
  }

  /**
   A write that does not retire the row, in a store of whole rows that has no reason to
   refuse it: name and PIN are the payload's, or as they were where it gives none; the
   department is the payload's, and none where it gives none; nothing else changes but the
   time stamp. One EmployeeUpdated tells of the row if and only if a field differs.
   */
  lemma {:induction false} WriteTakesFieldsOver(b: Backend, w: World, p: Payload, i: nat)
    requires FindsRow(w, p, i) && b.wholeRow && (p.active || !w.rows[i].active)
    requires b.uniquePins ==>
               forall r :: r in w.rows && r.pin == (if p.pin == "" then w.rows[i].pin else p.pin) ==>
                 r.id == w.rows[i].id
    ensures var (x, w') := (w.rows[i], WriteStep(b, w, p));
            && OnlyRow(w.rows, w'.rows, i)
            && var y := w'.rows[i];
            && y.name == (if p.name == "" then x.name else p.name)
            && y.pin == (if p.pin == "" then x.pin else p.pin)
            && HasDepartment(y, p.department)
            && y.id == x.id && y.externalId == x.externalId && y.active == x.active
            && (if SameFields(x, y) then y == x && w'.log == w.log
                else && y.updatedAt == w.clock
                     && w'.log == w.log + [Publication(EmployeeUpdated(x.id, y.pin, y.name), w'.rows)])
  {
    RowIsFound(w, p, i);
    var e := Merged(w.rows[i], p).(updatedAt := w.clock);
    assert UpdateAccepted(b, Ticked(AfterLookUp(w)), e);
  }

  /** Where another row holds the PIN the row would have, nothing is stored or announced. */
  lemma {:induction false} TakenPinIsRefused(b: Backend, w: World, p: Payload, i: nat)
    requires FindsRow(w, p, i) && b.wholeRow && b.uniquePins && (p.active || !w.rows[i].active)
    requires exists r :: r in w.rows && r.pin == (if p.pin == "" then w.rows[i].pin else p.pin) && r.id != w.rows[i].id
    ensures WriteStep(b, w, p).rows == w.rows && WriteStep(b, w, p).log == w.log
  {
    RowIsFound(w, p, i);
    assert PinTakenByOther(w.rows, Merged(w.rows[i], p).pin, w.rows[i].id);
  }

  /**
   The same in the shipped stores: name and department are taken over and the PIN stays,
   but the event names the PIN that was asked for, and there is one even if only that differs.
   */
  lemma {:induction false} ShippedWriteTakesFieldsOver(w: World, p: Payload, i: nat)
    requires FindsRow(w, p, i) && (p.active || !w.rows[i].active)
    ensures var (x, w') := (w.rows[i], WriteStep(SHIPPED, w, p));
            && OnlyRow(w.rows, w'.rows, i)
            && var (y, asked) := (w'.rows[i], if p.pin == "" then x.pin else p.pin);
            && y.name == (if p.name == "" then x.name else p.name)
            && y.pin == x.pin
            && HasDepartment(y, p.department)
            && y.id == x.id && y.externalId == x.externalId && y.active == x.active
            && (if SameFields(x, y) && asked == x.pin then y == x && w'.log == w.log
                else && y.updatedAt == w.clock
                     && w'.log == w.log + [Publication(EmployeeUpdated(x.id, asked, y.name), w'.rows)])
  {
    RowIsFound(w, p, i);
    var e := Merged(w.rows[i], p).(updatedAt := w.clock);
    assert UpdateAccepted(SHIPPED, Ticked(AfterLookUp(w)), e);
  }

  /** A retirement takes nothing over but the flag, and announces the row's own PIN, whatever the payload's. */
  lemma {:induction false} RetirementTakesNothingOver(b: Backend, w: World, p: Payload, i: nat)
    requires FindsRow(w, p, i) && !p.active && w.rows[i].active
    requires b.uniquePins && b.wholeRow ==>
               forall r :: r in w.rows && r.pin == w.rows[i].pin ==> r.id == w.rows[i].id
    ensures var (x, w') := (w.rows[i], WriteStep(b, w, p));
            && OnlyRow(w.rows, w'.rows, i)
            && w'.rows[i] == x.(active := !b.wholeRow, updatedAt := w.clock)
            && w'.log == w.log + [Publication(EmployeeDeactivated(x.pin), w'.rows),
                                  Publication(EmployeeRemoveRequested(x.pin), w'.rows)]
  {
    RowIsFound(w, p, i);
    var e := w.rows[i].(active := false, updatedAt := w.clock);
    assert UpdateAccepted(b, Ticked(AfterLookUp(w)), e);
  }

  // ── A new row ──

  /** A row in its first state: active whatever the payload says. */
  predicate IsNewRow(row: Employee, w: World, p: Payload) {
    && row.name == p.name && row.pin == p.pin && HasDepartment(row, p.department)
    && row.externalId == Some(Decimal(p.odooId)) && row.active
    && row.id == w.nextId && row.updatedAt == w.clock
  }

  ghost predicate IsUnknown(w: World, p: Payload) {
    forall r :: r in w.rows ==> r.externalId != Some(Decimal(p.odooId))
  }

  /**
   A create or write for an unknown employee adds the payload's row at the end and announces
   it, unless it has no PIN or an enforced PIN is taken; then nothing is stored or announced.
   */
  lemma {:induction false} UnknownIsAdded(b: Backend, w: World, p: Payload)
    requires !Fails(w.lookupFaults) && !Fails(w.writeFaults) && IsUnknown(w, p)
    ensures var w' := WriteStep(b, w, p);
            && CreateStep(b, w, p).rows == w'.rows && CreateStep(b, w, p).log == w'.log
            && if p.pin == "" || (b.uniquePins && exists r :: r in w.rows && r.pin == p.pin)
               then w'.rows == w.rows && w'.log == w.log
               else && |w'.rows| == |w.rows| + 1 && w'.rows[..|w.rows|] == w.rows
                    && IsNewRow(w'.rows[|w.rows|], w, p)
                    && w'.log == w.log + [Publication(EmployeeCreated(p.pin, p.name), w'.rows)]
  {
    assert FindExternal(w.rows, ExternalId(p)) == |w.rows|;
  }

  /** A create for a known employee changes and announces nothing. */
  lemma {:induction false} KnownIsSkipped(b: Backend, w: World, p: Payload, r: Employee)
    requires !Fails(w.lookupFaults) && r in w.rows && r.externalId == Some(Decimal(p.odooId))
    ensures CreateStep(b, w, p).rows == w.rows && CreateStep(b, w, p).log == w.log
  {
    assert FindExternal(w.rows, ExternalId(p)) < |w.rows|;
  }
}
