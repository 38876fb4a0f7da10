/** The table of device connections, against the history of each device. */
module DeviceState {
  import opened Wrappers

  datatype DeviceConnInfo = DeviceConnInfo(admsActive: bool, sdkActive: bool, lastSeen: int, lastPoll: Option<int>)

  datatype Update = AdmsConnected(ts: int) | Disconnected(ts: int) | SdkPolled(ts: int)

  datatype Event = Event(sn: string, update: Update)

  type Table = map<string, DeviceConnInfo>

  function Lookup(table: Table, sn: string): Option<DeviceConnInfo> {
    if sn in table then Some(table[sn]) else None
  }

  /** The entry of a device after one more update; a disconnect never makes one. */
  function Touched(entry: Option<DeviceConnInfo>, update: Update): Option<DeviceConnInfo> {
    var info := if entry.Some? then entry.value else DeviceConnInfo(false, false, update.ts, None);
    match update
    case AdmsConnected(ts) => Some(info.(admsActive := true, lastSeen := ts))
    case Disconnected(ts) =>
      if entry.None? then None else Some(info.(admsActive := false, sdkActive := false, lastSeen := ts))
    case SdkPolled(ts) => Some(info.(sdkActive := true, lastSeen := ts, lastPoll := Some(ts)))
  }

  function Apply(table: Table, event: Event): Table {
    match Touched(Lookup(table, event.sn), event.update)
    case None => table
    case Some(info) => table[event.sn := info]
  }

  class DeviceConnectionState {
    var inner: Table

    constructor ()
      ensures inner == map[]
    {
      inner := map[];
    }

    method GetAll() returns (all: Table)
      ensures all == inner
    {
      all := inner;
    }

    method Get(sn: string) returns (info: Option<DeviceConnInfo>)
      ensures info == Lookup(inner, sn)
    {
      if sn in inner {
        info := Some(inner[sn]);
      } else {
        info := None;
      }
    }

    method SetAdmsConnected(sn: string, ts: int)
      modifies this
      ensures inner == Apply(old(inner), Event(sn, AdmsConnected(ts)))
    {
      if sn !in inner {
        inner := inner[sn := DeviceConnInfo(false, false, ts, None)];
      }
      inner := inner[sn := inner[sn].(admsActive := true)];
      inner := inner[sn := inner[sn].(lastSeen := ts)];
    }

    method SetDisconnected(sn: string, ts: int)
      modifies this
      ensures inner == Apply(old(inner), Event(sn, Disconnected(ts)))
    {
      if sn in inner {
        inner := inner[sn := inner[sn].(admsActive := false)];
        inner := inner[sn := inner[sn].(sdkActive := false)];
        inner := inner[sn := inner[sn].(lastSeen := ts)];
      }
    }

    method SetSdkPolled(sn: string, ts: int)
      modifies this
      ensures inner == Apply(old(inner), Event(sn, SdkPolled(ts)))
    {
      if sn !in inner {
        inner := inner[sn := DeviceConnInfo(false, false, ts, None)];
      }
      inner := inner[sn := inner[sn].(sdkActive := true)];
      inner := inner[sn := inner[sn].(lastSeen := ts)];
      inner := inner[sn := inner[sn].(lastPoll := Some(ts))];
    }
  }

  // ── Runs and histories ──

  /** The table after a run from an empty one. */
  function Run(events: seq<Event>): Table {
    if events == [] then map[] else Apply(Run(events[..|events| - 1]), events[|events| - 1])
  }

  /** The updates of one device, in order. */
  function HistoryOf(events: seq<Event>, sn: string): seq<Update> {
    if events == [] then []
    else
      var last := events[|events| - 1];
      HistoryOf(events[..|events| - 1], sn) + if last.sn == sn then [last.update] else []
  }

  predicate EndsAt(h: seq<Update>, i: nat) {
    forall j :: i < j < |h| ==> !h[j].Disconnected?
  }

  predicate InContact(h: seq<Update>) {
    exists i :: 0 <= i < |h| && !h[i].Disconnected?
  }

  /** A push connection came after the last disconnect. */
  predicate AdmsUp(h: seq<Update>) {
    exists i :: 0 <= i < |h| && h[i].AdmsConnected? && EndsAt(h, i)
  }

  /** A poll came after the last disconnect. */
  predicate SdkUp(h: seq<Update>) {
    exists i :: 0 <= i < |h| && h[i].SdkPolled? && EndsAt(h, i)
  }

  predicate IsLastPoll(h: seq<Update>, i: nat) {
    i < |h| && h[i].SdkPolled? && forall j :: i < j < |h| ==> !h[j].SdkPolled?
  }

  /** What the entry of a device with history `h` must be. */
  ghost predicate Mirrors(entry: Option<DeviceConnInfo>, h: seq<Update>) {
    && (entry.Some? <==> InContact(h))
    && (entry.Some? ==>
      && (entry.value.admsActive <==> AdmsUp(h))
      && (entry.value.sdkActive <==> SdkUp(h))
      && entry.value.lastSeen == h[|h| - 1].ts
      && (entry.value.lastPoll.Some? <==> exists i: nat :: IsLastPoll(h, i))
      && (forall i: nat :: IsLastPoll(h, i) ==> entry.value.lastPoll == Some(h[i].ts)))
  }

  lemma {:induction false} SnocHistory(h: seq<Update>, u: Update)
    ensures InContact(h + [u]) <==> InContact(h) || !u.Disconnected?
    ensures AdmsUp(h + [u]) <==> u.AdmsConnected? || (AdmsUp(h) && !u.Disconnected?)
    ensures SdkUp(h + [u]) <==> u.SdkPolled? || (SdkUp(h) && !u.Disconnected?)
    ensures forall i: nat :: IsLastPoll(h + [u], i) <==> if u.SdkPolled? then i == |h| else IsLastPoll(h, i)
  {
    var k := h + [u];
    assert k[|h|] == u;
    assert forall i :: 0 <= i < |h| ==> k[i] == h[i];
    if u.Disconnected? {
      assert forall i :: 0 <= i < |h| ==> !EndsAt(k, i);
    } else {
      assert forall i :: 0 <= i < |h| ==> (EndsAt(k, i) <==> EndsAt(h, i));
      assert EndsAt(k, |h|);
    }
    forall i: nat | IsLastPoll(k, i)
      ensures if u.SdkPolled? then i == |h| else IsLastPoll(h, i)
    {
      assert i < |h| ==> !k[|h|].SdkPolled?;
    }
  }

  lemma {:induction false} TouchedMirrors(entry: Option<DeviceConnInfo>, h: seq<Update>, u: Update)
    requires Mirrors(entry, h)
    ensures Mirrors(Touched(entry, u), h + [u])
  {
    SnocHistory(h, u);
    assert (h + [u])[|h|] == u;
    if entry.None? && u.AdmsConnected? {
      NoPollBeforeContact(h);
    }
    if u.SdkPolled? {
      assert IsLastPoll(h + [u], |h|);
    }
  }

  lemma {:induction false} NoPollBeforeContact(h: seq<Update>)
    requires !InContact(h)
    ensures forall i: nat :: !IsLastPoll(h, i)
  {
  }

  /**
   After any run, each device's entry is determined by that device's own history: it
   exists once the device was in contact, a flag is up when its connection came after the
   last disconnect, and `last_poll` is the last poll.
   */
  lemma {:induction false} TableMirrorsHistories(events: seq<Event>, sn: string)
    ensures Mirrors(Lookup(Run(events), sn), HistoryOf(events, sn))
  {
    if events != [] {
      var before, last := events[..|events| - 1], events[|events| - 1];
      TableMirrorsHistories(before, sn);
      if last.sn == sn {
        TouchedMirrors(Lookup(Run(before), sn), HistoryOf(before, sn), last.update);
      } else {
        assert HistoryOf(events, sn) == HistoryOf(before, sn);
      }
    }
  }

  lemma {:induction false} MirrorsAgree(a: Option<DeviceConnInfo>, b: Option<DeviceConnInfo>, h: seq<Update>)
    requires Mirrors(a, h) && Mirrors(b, h)
    ensures a == b
  {
    if a.Some? && a.value.lastPoll.Some? {
      var i: nat :| IsLastPoll(h, i);
    }
  }

  /** How the devices' updates interleave does not matter. */
  lemma {:induction false} InterleavingIsIrrelevant(xs: seq<Event>, ys: seq<Event>)
    requires forall sn :: HistoryOf(xs, sn) == HistoryOf(ys, sn)
    ensures Run(xs) == Run(ys)
  {
    forall sn
      ensures Lookup(Run(xs), sn) == Lookup(Run(ys), sn)
    {
      TableMirrorsHistories(xs, sn);
      TableMirrorsHistories(ys, sn);
      assert HistoryOf(xs, sn) == HistoryOf(ys, sn);
      MirrorsAgree(Lookup(Run(xs), sn), Lookup(Run(ys), sn), HistoryOf(xs, sn));
    }
    assert forall sn :: sn in Run(xs) <==> Lookup(Run(xs), sn).Some?;
    assert forall sn :: sn in Run(ys) <==> Lookup(Run(ys), sn).Some?;
    assert Run(xs).Keys == Run(ys).Keys;
    forall sn | sn in Run(xs)
      ensures Run(xs)[sn] == Run(ys)[sn]
    {
      assert Lookup(Run(xs), sn) == Lookup(Run(ys), sn);
    }
  }

  // ── What the two device views report ──

  /** Status and mode in the detail view, from the parts its caller passes. */
  function FromParts(admsActive: bool, sdkActive: bool, lastSeen: Option<int>): (string, string) {
    (if admsActive || sdkActive then "connected" else if lastSeen.Some? then "disconnected" else "offline",
     match (admsActive, sdkActive)
     case (true, true) => "both"
     case (false, true) => "sdk"
     case (true, false) => "adms"
     case (false, false) => "offline")
  }

  function DetailView(entry: Option<DeviceConnInfo>): (string, string) {
    match entry
    case Some(info) => FromParts(info.admsActive, info.sdkActive, Some(info.lastSeen))
    case None => FromParts(false, false, None)
  }

  /** The status in the list view. */
  function ListView(entry: Option<DeviceConnInfo>): string {
    match entry
    case Some(info) => if info.admsActive || info.sdkActive then "connected" else "disconnected"
    case None => "disconnected"
  }

  lemma {:induction false} StatusNames()
    ensures "connected" != "disconnected" && "connected" != "offline" && "disconnected" != "offline"
    ensures "both" != "offline" && "sdk" != "offline" && "adms" != "offline"
  {
    assert "connected"[0] == 'c' && "disconnected"[0] == 'd' && "offline"[0] == 'o';
    assert "both"[0] == 'b' && "sdk"[0] == 's' && "adms"[0] == 'a';
  }

  /**
   Both views as told by a device's history: the status is "connected" while a connection
   is up, and the mode says which; a device that polls has a last poll.
   */
  lemma {:induction false} DetailTellsHistory(events: seq<Event>, sn: string)
    ensures var (entry, h) := (Lookup(Run(events), sn), HistoryOf(events, sn));
            && DetailView(entry).0 == (if AdmsUp(h) || SdkUp(h) then "connected"
                                       else if InContact(h) then "disconnected" else "offline")
            && DetailView(entry).1 == (if AdmsUp(h) && SdkUp(h) then "both"
                                       else if AdmsUp(h) then "adms" else if SdkUp(h) then "sdk" else "offline")
            && ListView(entry) == (if AdmsUp(h) || SdkUp(h) then "connected" else "disconnected")
            && (entry.Some? && entry.value.sdkActive ==> entry.value.lastPoll.Some?)
  {
    StatusNames();
    TableMirrorsHistories(events, sn);
    UpMeansContact(HistoryOf(events, sn));
  }

  lemma {:induction false} UpMeansContact(h: seq<Update>)
    ensures AdmsUp(h) || SdkUp(h) ==> InContact(h)
    ensures SdkUp(h) ==> exists i: nat :: IsLastPoll(h, i)
  {
    if h != [] {
      var n := |h| - 1;
      UpMeansContact(h[..n]);
      SnocHistory(h[..n], h[n]);
      assert h == h[..n] + [h[n]];
      if h[n].SdkPolled? {
        assert IsLastPoll(h, n);
      } else if SdkUp(h) {
        var i: nat :| IsLastPoll(h[..n], i);
        assert IsLastPoll(h, i);
      }
    }
  }

  /** The two views agree on a device's status exactly when it was ever in contact. */
  lemma {:induction false} ViewsAgreeIff(events: seq<Event>, sn: string)
    ensures var (entry, h) := (Lookup(Run(events), sn), HistoryOf(events, sn));
            ListView(entry) == DetailView(entry).0 <==> InContact(h)
  {
    StatusNames();
    TableMirrorsHistories(events, sn);
  }
}
