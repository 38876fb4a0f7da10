/** When a whole write delivery to a shipped store announces only what the table shows. */
module WebhookCommits {
  import opened Wrappers
  import opened Employees
  import opened WebhookRuns
  import opened WebhookInvariants
  import opened WebhookConvergence

  /** Whatever fails, other payloads do not change what a payload asks of its row. */
  lemma {:induction false} StillKeeps(w: World, v: World, p: Payload, names: set<string>)
    requires Evolves(SHIPPED, w.rows, v.rows) && OnlyNamed(w.rows, v.rows, names) && ExternalId(p) !in names
    ensures KeepsFlagAndPin(v.rows, p) <==> KeepsFlagAndPin(w.rows, p)
    ensures FindExternal(w.rows, ExternalId(p)) < |w.rows| ==>
              FindExternal(v.rows, ExternalId(p)) == FindExternal(w.rows, ExternalId(p))
  {
    var ext := ExternalId(p);
    var i, j := FindExternal(w.rows, ext), FindExternal(v.rows, ext);
    assert forall k :: 0 <= k < |w.rows| ==> RowEvolves(SHIPPED, w.rows[k], v.rows[k]);
    if i < |w.rows| {
      assert v.rows[i].externalId == Some(ext);
      assert j <= i;
      assert w.rows[j].externalId == v.rows[j].externalId;
    } else {
      assert j >= |w.rows|;
    }
  }

  lemma {:induction false} OtherNames(ps: seq<Payload>, n: nat)
    requires DistinctIds(ps) && n < |ps|
    ensures ExternalId(ps[n]) !in NamesOf(Jobs(Write(ps[..n])))
  {
    forall j | j in Jobs(Write(ps[..n]))
      ensures Named(j) != ExternalId(ps[n])
    {
      var i :| 0 <= i < n && j == WriteJob(ps[i]);
      DecimalInjective(ps[i].odooId, ps[n].odooId);
    }
  }

  /** What a part of the batch leaves behind. */
  lemma {:induction false} AfterPart(w: World, ps: seq<Payload>, n: nat)
    requires WellFormed(w) && UniquePins(w.rows) && DistinctIds(ps) && n < |ps|
    ensures var v := WriteBatch(SHIPPED, w, ps[..n]);
            && WellFormed(v) && UniquePins(v.rows)
            && (KeepsFlagAndPin(v.rows, ps[n]) <==> KeepsFlagAndPin(w.rows, ps[n]))
  {
    var js := Jobs(Write(ps[..n]));
    WriteBatchIsJobs(SHIPPED, w, ps[..n]);
    DoAllEvolves(SHIPPED, w, js);
    DoAllKeepsUnique(SHIPPED, w, js);
    OtherNames(ps, n);
    StillKeeps(w, DoAll(SHIPPED, w, js), ps[n], NamesOf(js));
  }

  /**
   A write delivery to a shipped store whose payloads retire no known employee and change
   no PIN announces only what the table shows, whatever calls fail.
   */
  lemma {:induction false} ShippedWritesAreBacked(w: World, ps: seq<Payload>, k: nat)
    requires WellFormed(w) && UniquePins(w.rows) && DistinctIds(ps)
    requires forall p :: p in ps ==> KeepsFlagAndPin(w.rows, p)
    requires |w.log| <= k < |WriteBatch(SHIPPED, w, ps).log|
    ensures Backed(WriteBatch(SHIPPED, w, ps).log[k])
  {
    if ps != [] {
      var n := |ps| - 1;
      var v := WriteBatch(SHIPPED, w, ps[..n]);
      AfterPart(w, ps, n);
      StepLogGrows(v, ps[n]);
      if k < |v.log| {
        ShippedWritesAreBacked(w, ps[..n], k);
      } else {
        ShippedEventsFollowCommitsIff(v, ps[n], k);
      }
    }
  }

  lemma {:induction false} StepLogGrows(w: World, p: Payload)
    requires WellFormed(w)
    ensures w.log <= WriteStep(SHIPPED, w, p).log
  {
    var m := JobMoves(SHIPPED, w, WriteJob(p));
  }

  lemma {:induction false} LastLogGrows(w: World, ps: seq<Payload>)
    requires WellFormed(w) && UniquePins(w.rows) && DistinctIds(ps) && ps != []
    ensures WriteBatch(SHIPPED, w, ps[..|ps| - 1]).log <= WriteBatch(SHIPPED, w, ps).log
  {
    AfterPart(w, ps, |ps| - 1);
    StepLogGrows(WriteBatch(SHIPPED, w, ps[..|ps| - 1]), ps[|ps| - 1]);
  }

  lemma {:induction false} BatchLogGrows(w: World, ps: seq<Payload>, n: nat)
    requires WellFormed(w) && UniquePins(w.rows) && DistinctIds(ps) && n <= |ps|
    ensures WriteBatch(SHIPPED, w, ps[..n]).log <= WriteBatch(SHIPPED, w, ps).log
    decreases |ps|
  {
    if n == |ps| {
      assert ps[..n] == ps;
    } else {
      var front := ps[..|ps| - 1];
      assert front[..n] == ps[..n];
      BatchLogGrows(w, front, n);
      LastLogGrows(w, ps);
    }
  }

  /** A shipped store accepts the retirement or the new PIN, and publishes it without storing it. */
  lemma {:induction false} UnkeptIsUnbacked(w: World, p: Payload)
    requires WellFormed(w) && UniquePins(w.rows) && NoFaults(w) && !KeepsFlagAndPin(w.rows, p)
    ensures var w' := WriteStep(SHIPPED, w, p);
            |w'.log| > |w.log| && !Backed(w'.log[|w.log|])
  {
    var i := FindExternal(w.rows, ExternalId(p));
    var x, w1 := w.rows[i], Ticked(AfterLookUp(w));
    assert !Fails(w.lookupFaults) && !Fails(w.writeFaults);
    FindOwnId(w, i);
    if !p.active && x.active {
      assert UpdateAccepted(SHIPPED, w1, x.(active := false, updatedAt := w.clock));
    } else {
      assert UpdateAccepted(SHIPPED, w1, Merged(x, p).(updatedAt := w.clock));
    }
    ShippedEventsFollowCommitsIff(w, p, |w.log|);
  }

  lemma {:induction false} StepKeepsNoFaults(b: Backend, w: World, p: Payload)
    requires NoFaults(w)
    ensures NoFaults(WriteStep(b, w, p))
  {
    TailHasNoFault(w.lookupFaults);
    TailHasNoFault(w.writeFaults);
    var w' := WriteStep(b, w, p);
    assert w'.lookupFaults == Tail(w.lookupFaults);
    assert w'.writeFaults == w.writeFaults || w'.writeFaults == Tail(w.writeFaults);
  }

  lemma {:induction false} TailHasNoFault(script: seq<bool>)
    requires true !in script
    ensures true !in Tail(script)
  {
  }

  lemma {:induction false} BatchKeepsNoFaults(b: Backend, w: World, ps: seq<Payload>)
    requires NoFaults(w)
    ensures NoFaults(WriteBatch(b, w, ps))
  {
    if ps != [] {
      BatchKeepsNoFaults(b, w, ps[..|ps| - 1]);
      StepKeepsNoFaults(b, WriteBatch(b, w, ps[..|ps| - 1]), ps[|ps| - 1]);
    }
  }

  /**
   When no call fails, a write delivery to a shipped store announces only what the table
   shows if and only if no payload retires a known employee or changes a PIN, whether the
   PINs it asks for are free or not.
   */
  lemma {:induction false} ShippedWritesAreBackedIff(w: World, ps: seq<Payload>)
    requires WellFormed(w) && UniquePins(w.rows) && NoFaults(w) && DistinctIds(ps)
    ensures var log := WriteBatch(SHIPPED, w, ps).log;
            (forall k :: |w.log| <= k < |log| ==> Backed(log[k])) <==>
            (forall p :: p in ps ==> KeepsFlagAndPin(w.rows, p))
  {
    var log := WriteBatch(SHIPPED, w, ps).log;
    if forall p :: p in ps ==> KeepsFlagAndPin(w.rows, p) {
      forall k | |w.log| <= k < |log|
        ensures Backed(log[k])
      {
        ShippedWritesAreBacked(w, ps, k);
      }
    } else {
      var p :| p in ps && !KeepsFlagAndPin(w.rows, p);
      var n :| 0 <= n < |ps| && ps[n] == p;
      var k := UnbackedEvent(w, ps, n);
    }
  }

  lemma {:induction false} UnbackedNext(w: World, ps: seq<Payload>, n: nat)
    requires WellFormed(w) && UniquePins(w.rows) && NoFaults(w) && DistinctIds(ps)
    requires n < |ps| && !KeepsFlagAndPin(w.rows, ps[n])
    ensures var v, u := WriteBatch(SHIPPED, w, ps[..n]), WriteBatch(SHIPPED, w, ps[..n + 1]);
            |v.log| < |u.log| && !Backed(u.log[|v.log|])
  {
    AfterPart(w, ps, n);
    BatchKeepsNoFaults(SHIPPED, w, ps[..n]);
    UnkeptIsUnbacked(WriteBatch(SHIPPED, w, ps[..n]), ps[n]);
    assert ps[..n + 1][..n] == ps[..n];
  }

  lemma {:induction false} StaysUnbacked(before: seq<Publication>, part: seq<Publication>, log: seq<Publication>)
    requires before <= part <= log && |before| < |part| && !Backed(part[|before|])
    ensures |before| < |log| && !Backed(log[|before|])
  {
  }

  lemma {:induction false} UnbackedEvent(w: World, ps: seq<Payload>, n: nat) returns (k: nat)
    requires WellFormed(w) && UniquePins(w.rows) && NoFaults(w) && DistinctIds(ps)
    requires n < |ps| && !KeepsFlagAndPin(w.rows, ps[n])
    ensures var log := WriteBatch(SHIPPED, w, ps).log;
            |w.log| <= k < |log| && !Backed(log[k])
  {
    var log := WriteBatch(SHIPPED, w, ps).log;
    var before, part := WriteBatch(SHIPPED, w, ps[..n]).log, WriteBatch(SHIPPED, w, ps[..n + 1]).log;
    PartsGrow(w, ps, n);
    UnbackedNext(w, ps, n);
    StaysUnbacked(before, part, log);
    k := |before|;
  }

  lemma {:induction false} PartsGrow(w: World, ps: seq<Payload>, n: nat)
    requires WellFormed(w) && UniquePins(w.rows) && DistinctIds(ps) && n < |ps|
    ensures w.log <= WriteBatch(SHIPPED, w, ps[..n]).log <= WriteBatch(SHIPPED, w, ps[..n + 1]).log
    ensures WriteBatch(SHIPPED, w, ps[..n + 1]).log <= WriteBatch(SHIPPED, w, ps).log
  {
    var part := ps[..n + 1];
    assert part[..n] == ps[..n] && ps[..n][..0] == [];
    BatchLogGrows(w, ps[..n], 0);
    BatchLogGrows(w, part, n);
    BatchLogGrows(w, ps, n + 1);
  }
}
