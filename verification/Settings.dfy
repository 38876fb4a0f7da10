/** Partial updates of the system settings, and the events that announce them. */
module Settings {
  import opened Wrappers
  import opened Clock

  /** `lateThresholdSecs` is a 64-bit integer, as are the minutes that requests give for it. */
  datatype WorkPolicy = WorkPolicy(workStart: Time, workEnd: Time, lateThresholdSecs: int, workingDays: seq<bool>)

  datatype SystemSettings = SystemSettings(
    pollIntervalSecs: nat, autoDiscover: bool, workPolicy: WorkPolicy, supportEmail: string, workspaceName: string)

  datatype UpdateWorkPolicy = UpdateWorkPolicy(
    workStart: Option<string>, workEnd: Option<string>, lateThresholdMinutes: Option<int>,
    workingDays: Option<seq<bool>>)

  datatype UpdateRequest = UpdateRequest(
    pollIntervalSecs: Option<nat>, autoDiscover: Option<bool>, workPolicy: Option<UpdateWorkPolicy>,
    supportEmail: Option<string>, workspaceName: Option<string>)

  datatype SettingsError = StorageFailed | PollTooShort | BadTime(error: TimeError)

  const MIN_POLL := 5

  const TWO_TO_THE_63 := 0x8000_0000_0000_0000
  const TWO_TO_THE_64 := 0x1_0000_0000_0000_0000

  predicate IsI64(n: int) {
    -TWO_TO_THE_63 <= n < TWO_TO_THE_63
  }

  /** The product in 64-bit arithmetic that wraps around, as the release build has it. */
  function MinutesToSecs(minutes: int): (secs: int)
    ensures IsI64(secs)
    ensures secs == minutes * 60 <==> IsI64(minutes * 60)
  {
    (minutes * 60 + TWO_TO_THE_63) % TWO_TO_THE_64 - TWO_TO_THE_63
  }

  /** The quotient truncated towards zero. */
  function SecsToMinutes(secs: int): int {
    if secs >= 0 then secs / 60 else -(-secs / 60)
  }

  function Or<T>(supplied: Option<T>, current: T): T {
    if supplied.Some? then supplied.value else current
  }

  function TimeRefusal(text: Option<string>): Option<SettingsError> {
    if text.Some? && ParseTime(text.value).Err? then Some(BadTime(ParseTime(text.value).error)) else None
  }

  /** The first check an update fails. */
  function Refusal(body: UpdateRequest): Option<SettingsError> {
    if body.pollIntervalSecs.Some? && body.pollIntervalSecs.value < MIN_POLL then Some(PollTooShort)
    else if body.workPolicy.None? then None
    else PolicyRefusal(body.workPolicy.value)
  }

  function TimeOr(text: Option<string>, current: Time): Time {
    if text.Some? && ParseTime(text.value).Ok? then ParseTime(text.value).value else current
  }

  function UpdatedPolicy(p: WorkPolicy, wp: UpdateWorkPolicy): WorkPolicy {
    WorkPolicy(
      TimeOr(wp.workStart, p.workStart),
      TimeOr(wp.workEnd, p.workEnd),
      if wp.lateThresholdMinutes.Some? then MinutesToSecs(wp.lateThresholdMinutes.value) else p.lateThresholdSecs,
      Or(wp.workingDays, p.workingDays))
  }

  function Updated(s: SystemSettings, body: UpdateRequest): SystemSettings {
    SystemSettings(
      Or(body.pollIntervalSecs, s.pollIntervalSecs),
      Or(body.autoDiscover, s.autoDiscover),
      if body.workPolicy.Some? then UpdatedPolicy(s.workPolicy, body.workPolicy.value) else s.workPolicy,
      Or(body.supportEmail, s.supportEmail),
      Or(body.workspaceName, s.workspaceName))
  }

  datatype Field = SupportEmail | WorkspaceName | PollIntervalSecs | AutoDiscover | WorkPolicyField

  predicate Supplies(body: UpdateRequest, field: Field) {
    match field
    case SupportEmail => body.supportEmail.Some?
    case WorkspaceName => body.workspaceName.Some?
    case PollIntervalSecs => body.pollIntervalSecs.Some?
    case AutoDiscover => body.autoDiscover.Some?
    case WorkPolicyField => body.workPolicy.Some?
  }

  const FIELDS := [SupportEmail, WorkspaceName, PollIntervalSecs, AutoDiscover, WorkPolicyField]

  function IfSupplied(body: UpdateRequest, field: Field): seq<Field> {
    if Supplies(body, field) then [field] else []
  }

  /** The fields an event names: those supplied, in the order of `FIELDS`. */
  function ChangedFields(body: UpdateRequest): seq<Field> {
    IfSupplied(body, SupportEmail) + IfSupplied(body, WorkspaceName) + IfSupplied(body, PollIntervalSecs)
    + IfSupplied(body, AutoDiscover) + IfSupplied(body, WorkPolicyField)
  }

  /** The settings row and the events published. */
  datatype State = State(settings: SystemSettings, published: seq<seq<Field>>)

  /** An update as it happens, with the outcome of its storage calls. */
  datatype Attempt = Attempt(body: UpdateRequest, readOk: bool, writeOk: bool)

  predicate Accepted(a: Attempt) {
    a.readOk && Refusal(a.body).None? && a.writeOk
  }

  function Step(s: State, a: Attempt): State {
    if !Accepted(a) then s
    else
      State(Updated(s.settings, a.body),
            if ChangedFields(a.body) == [] then s.published else s.published + [ChangedFields(a.body)])
  }

  /** The first work time that cannot be read. */
  function PolicyRefusal(wp: UpdateWorkPolicy): Option<SettingsError> {
    if TimeRefusal(wp.workStart).Some? then TimeRefusal(wp.workStart) else TimeRefusal(wp.workEnd)
  }

  /** The work policy part of an update. */
  method ApplyPolicy(current: WorkPolicy, wp: UpdateWorkPolicy) returns (r: Result<WorkPolicy, SettingsError>)
    ensures r == if PolicyRefusal(wp).Some? then Err(PolicyRefusal(wp).value) else Ok(UpdatedPolicy(current, wp))
  {
    var policy := current;
    if wp.workStart.Some? {
      var t := ParseTime(wp.workStart.value);
      if t.Err? { return Err(BadTime(t.error)); }
      policy := policy.(workStart := t.value);
    }
    if wp.workEnd.Some? {
      var t := ParseTime(wp.workEnd.value);
      if t.Err? { return Err(BadTime(t.error)); }
      policy := policy.(workEnd := t.value);
    }
    if wp.lateThresholdMinutes.Some? {
      policy := policy.(lateThresholdSecs := MinutesToSecs(wp.lateThresholdMinutes.value));
    }
    if wp.workingDays.Some? {
      policy := policy.(workingDays := wp.workingDays.value);
    }
    r := Ok(policy);
  }

  class SettingsService {
    var settings: SystemSettings
    var published: seq<seq<Field>>

    constructor (settings: SystemSettings)
      ensures Now() == State(settings, [])
    {
      this.settings, published := settings, [];
    }

    function Now(): State
      reads this
    {
      State(settings, published)
    }

    /** A refused or failing update stores nothing and publishes nothing. */
    method UpdateSettings(body: UpdateRequest, readOk: bool, writeOk: bool)
      returns (r: Result<SystemSettings, SettingsError>)
      modifies this
      ensures Now() == Step(old(Now()), Attempt(body, readOk, writeOk))
      ensures r.Ok? <==> Accepted(Attempt(body, readOk, writeOk))
      ensures r.Ok? ==> r.value == settings
      ensures r.Err? ==> r.error == if !readOk || Refusal(body).None? then StorageFailed else Refusal(body).value
    {
      if !readOk { return Err(StorageFailed); }
      var current := settings;
      var changed: seq<Field> := [];
      var wpChanged := body.workPolicy.Some?;
      if body.pollIntervalSecs.Some? {
        if body.pollIntervalSecs.value < MIN_POLL { return Err(PollTooShort); }
        current := current.(pollIntervalSecs := body.pollIntervalSecs.value);
      }
      if body.autoDiscover.Some? {
        current := current.(autoDiscover := body.autoDiscover.value);
      }
      if body.workPolicy.Some? {
        var policy := ApplyPolicy(current.workPolicy, body.workPolicy.value);
        if policy.Err? { return Err(policy.error); }
        current := current.(workPolicy := policy.value);
      }
      if body.supportEmail.Some? {
        current := current.(supportEmail := body.supportEmail.value);
        changed := changed + [SupportEmail];
      }
      if body.workspaceName.Some? {
        current := current.(workspaceName := body.workspaceName.value);
        changed := changed + [WorkspaceName];
      }
      assert Refusal(body).None? && current == Updated(old(settings), body);
      assert changed == IfSupplied(body, SupportEmail) + IfSupplied(body, WorkspaceName);
      if !writeOk { return Err(StorageFailed); }
      settings := current;
      if body.pollIntervalSecs.Some? { changed := changed + [PollIntervalSecs]; }
      if body.autoDiscover.Some? { changed := changed + [AutoDiscover]; }
      assert changed == IfSupplied(body, SupportEmail) + IfSupplied(body, WorkspaceName)
                        + IfSupplied(body, PollIntervalSecs) + IfSupplied(body, AutoDiscover);
      if wpChanged { changed := changed + [WorkPolicyField]; }
      assert changed == ChangedFields(body);
      if changed != [] {
        published := published + [changed];
      }
      r := Ok(current);
    }
  }

  // ── Whole runs ──

  function Run(s: State, attempts: seq<Attempt>): State {
    if attempts == [] then s else Step(Run(s, attempts[..|attempts| - 1]), attempts[|attempts| - 1])
  }

  /** The smallest parts a request can change. */
  datatype Part = Email | Workspace | Poll | Discover | Start | End | Late | Days

  datatype Value =
    | Text(text: string) | Seconds(seconds: int) | Flag(flag: bool) | At(time: Time) | Week(days: seq<bool>)

  function FieldOf(part: Part): Field {
    match part
    case Email => SupportEmail
    case Workspace => WorkspaceName
    case Poll => PollIntervalSecs
    case Discover => AutoDiscover
    case _ => WorkPolicyField
  }

  function Held(s: SystemSettings, part: Part): Value {
    match part
    case Email => Text(s.supportEmail)
    case Workspace => Text(s.workspaceName)
    case Poll => Seconds(s.pollIntervalSecs)
    case Discover => Flag(s.autoDiscover)
    case Start => At(s.workPolicy.workStart)
    case End => At(s.workPolicy.workEnd)
    case Late => Seconds(s.workPolicy.lateThresholdSecs)
    case Days => Week(s.workPolicy.workingDays)
  }

  function TimeGiven(text: Option<string>): Option<Value> {
    if text.Some? && ParseTime(text.value).Ok? then Some(At(ParseTime(text.value).value)) else None
  }

  /** The value a request gives a part, if it does. */
  function Given(body: UpdateRequest, part: Part): Option<Value> {
    match part
    case Email => if body.supportEmail.Some? then Some(Text(body.supportEmail.value)) else None
    case Workspace => if body.workspaceName.Some? then Some(Text(body.workspaceName.value)) else None
    case Poll => if body.pollIntervalSecs.Some? then Some(Seconds(body.pollIntervalSecs.value)) else None
    case Discover => if body.autoDiscover.Some? then Some(Flag(body.autoDiscover.value)) else None
    case Start => if body.workPolicy.None? then None else TimeGiven(body.workPolicy.value.workStart)
    case End => if body.workPolicy.None? then None else TimeGiven(body.workPolicy.value.workEnd)
    case Late =>
      if body.workPolicy.None? || body.workPolicy.value.lateThresholdMinutes.None? then None
      else Some(Seconds(MinutesToSecs(body.workPolicy.value.lateThresholdMinutes.value)))
    case Days =>
      if body.workPolicy.None? || body.workPolicy.value.workingDays.None? then None
      else Some(Week(body.workPolicy.value.workingDays.value))
  }

  /** What the last accepted request that gave the part gave it. */
  function LastGiven(attempts: seq<Attempt>, part: Part): Option<Value> {
    if attempts == [] then None
    else
      var last := attempts[|attempts| - 1];
      if Accepted(last) && Given(last.body, part).Some? then Given(last.body, part)
      else LastGiven(attempts[..|attempts| - 1], part)
  }

  /** After any run every part holds what the last accepted request gave it, and else what it held before. */
  lemma {:induction false} LastAcceptedWins(s: State, attempts: seq<Attempt>, part: Part)
    ensures Held(Run(s, attempts).settings, part) == Or(LastGiven(attempts, part), Held(s.settings, part))
  {
    if attempts != [] {
      LastAcceptedWins(s, attempts[..|attempts| - 1], part);
    }
  }

  /** An event names exactly the fields its request supplied. */
  lemma {:induction false} EventNamesExactlySupplied(body: UpdateRequest, field: Field)
    ensures field in ChangedFields(body) <==> Supplies(body, field)
  {
  }

  function Place(field: Field): nat {
    match field
    case SupportEmail => 0
    case WorkspaceName => 1
    case PollIntervalSecs => 2
    case AutoDiscover => 3
    case WorkPolicyField => 4
  }

  lemma {:induction false} EventsAreInOrder(body: UpdateRequest)
    ensures var fields := ChangedFields(body);
            forall i, j :: 0 <= i < j < |fields| ==> Place(fields[i]) < Place(fields[j])
  {
  }

  /** One event for an accepted request that supplies something, naming what it supplies in order; else none. */
  lemma {:induction false} AnnouncedOnce(s: State, a: Attempt)
    ensures if Accepted(a) && (exists field :: Supplies(a.body, field))
            then exists fields ::
                   && Step(s, a).published == s.published + [fields]
                   && (forall field :: field in fields <==> Supplies(a.body, field))
                   && (forall i, j :: 0 <= i < j < |fields| ==> Place(fields[i]) < Place(fields[j]))
            else Step(s, a).published == s.published
  {
    var fields := ChangedFields(a.body);
    EventsAreInOrder(a.body);
    forall field
      ensures field in fields <==> Supplies(a.body, field)
    {
      EventNamesExactlySupplied(a.body, field);
    }
    if field :| Supplies(a.body, field) {
      assert field in fields;
    }
    if fields != [] {
      assert fields[0] in fields;
    }
  }

  /** Whether a given work time cannot be read, and why. */
  predicate FailsWith(text: Option<string>, e: TimeError) {
    text.Some? && ParseTime(text.value) == Err(e)
  }

  predicate Reads(text: Option<string>) {
    text.None? || ParseTime(text.value).Ok?
  }

  /** The refusal is about the poll interval first, then about the start of work, then about its end. */
  lemma {:induction false} FirstFailureIsReported(body: UpdateRequest, e: TimeError)
    ensures var pollOk := body.pollIntervalSecs.None? || body.pollIntervalSecs.value >= 5;
            && (Refusal(body) == Some(PollTooShort) <==> !pollOk)
            && (Refusal(body) == Some(BadTime(e)) <==>
                  pollOk && body.workPolicy.Some?
                  && var wp := body.workPolicy.value;
                  FailsWith(wp.workStart, e) || (Reads(wp.workStart) && FailsWith(wp.workEnd, e)))
            && (Refusal(body) == None <==>
                  pollOk && (body.workPolicy.None?
                             || (Reads(body.workPolicy.value.workStart) && Reads(body.workPolicy.value.workEnd))))
  {
  }

  /** Over any run, a part that ends with another value was announced by one of the run's events. */
  lemma {:induction false} ChangesAreAnnounced(s: State, attempts: seq<Attempt>, part: Part)
    requires Held(Run(s, attempts).settings, part) != Held(s.settings, part)
    ensures s.published <= Run(s, attempts).published
    ensures exists e :: e in Run(s, attempts).published[|s.published|..] && FieldOf(part) in e
  {
    var field := FieldOf(part);
    var before, last := Run(s, attempts[..|attempts| - 1]), attempts[|attempts| - 1];
    EventsOnlyGrow(s, attempts[..|attempts| - 1]);
    var added := if Accepted(last) && ChangedFields(last.body) != [] then [ChangedFields(last.body)] else [];
    assert Run(s, attempts).published == before.published + added;
    assert Run(s, attempts).published[|s.published|..] == before.published[|s.published|..] + added;
    if Held(before.settings, part) != Held(s.settings, part) {
      ChangesAreAnnounced(s, attempts[..|attempts| - 1], part);
      var e :| e in before.published[|s.published|..] && field in e;
      assert e in Run(s, attempts).published[|s.published|..];
    } else {
      EventNamesExactlySupplied(last.body, field);
      assert added == [ChangedFields(last.body)];
      assert ChangedFields(last.body) in added;
    }
  }

  lemma {:induction false} EventsOnlyGrow(s: State, attempts: seq<Attempt>)
    ensures s.published <= Run(s, attempts).published
  {
    if attempts != [] {
      EventsOnlyGrow(s, attempts[..|attempts| - 1]);
    }
  }

  /** No run brings the poll interval under its minimum. */
  lemma {:induction false} PollIntervalKeepsItsFloor(s: State, attempts: seq<Attempt>)
    requires s.settings.pollIntervalSecs >= MIN_POLL
    ensures Run(s, attempts).settings.pollIntervalSecs >= MIN_POLL
  {
    if attempts != [] {
      PollIntervalKeepsItsFloor(s, attempts[..|attempts| - 1]);
    }
  }

  // ── Reading the settings and sending them back ──

  predicate HasTimes(s: SystemSettings) {
    && IsTime(s.workPolicy.workStart) && IsTime(s.workPolicy.workEnd)
    && IsI64(s.workPolicy.lateThresholdSecs)
  }

  /** A request that supplies every field as the settings response shows it. */
  function SentBack(s: SystemSettings): UpdateRequest
    requires HasTimes(s)
  {
    var p := s.workPolicy;
    UpdateRequest(
      Some(s.pollIntervalSecs), Some(s.autoDiscover),
      Some(UpdateWorkPolicy(
        Some(PrintTime(p.workStart)), Some(PrintTime(p.workEnd)),
        Some(SecsToMinutes(p.lateThresholdSecs)), Some(p.workingDays))),
      Some(s.supportEmail), Some(s.workspaceName))
  }

  lemma {:induction false} UpdatesKeepTimes(s: State, attempts: seq<Attempt>)
    requires HasTimes(s.settings)
    ensures HasTimes(Run(s, attempts).settings)
  {
    if attempts != [] {
      UpdatesKeepTimes(s, attempts[..|attempts| - 1]);
    }
  }

  predicate IsWholeMinutes(s: SystemSettings) {
    s.workPolicy.lateThresholdSecs % 60 == 0
  }

  function MinutesGiven(body: UpdateRequest): Option<int> {
    if body.workPolicy.None? then None else body.workPolicy.value.lateThresholdMinutes
  }

  /** The late threshold in minutes that the last accepted request with one gave. */
  function LastMinutes(attempts: seq<Attempt>): Option<int> {
    if attempts == [] then None
    else
      var last := attempts[|attempts| - 1];
      if Accepted(last) && MinutesGiven(last.body).Some? then MinutesGiven(last.body)
      else LastMinutes(attempts[..|attempts| - 1])
  }

  lemma {:induction false} ThresholdIsLastMinutes(s: State, attempts: seq<Attempt>)
    ensures Run(s, attempts).settings.workPolicy.lateThresholdSecs ==
              match LastMinutes(attempts)
              case None => s.settings.workPolicy.lateThresholdSecs
              case Some(minutes) => MinutesToSecs(minutes)
  {
    if attempts != [] {
      ThresholdIsLastMinutes(s, attempts[..|attempts| - 1]);
    }
  }

  /** How often the seconds wrap around. */
  function Wraps(minutes: int): int {
    (minutes * 60 + TWO_TO_THE_63) / TWO_TO_THE_64
  }

  lemma {:induction false} WrappedSecs(minutes: int)
    ensures MinutesToSecs(minutes) == minutes * 60 - TWO_TO_THE_64 * Wraps(minutes)
    ensures Wraps(minutes) == 0 <==> IsI64(minutes * 60)
  {
  }

  /** 2^64 is 16 more than a multiple of 60, so only every fifteenth wrap leaves whole minutes. */
  lemma {:induction false} WrapsLeaveWholeMinutesIff(minutes: int)
    ensures MinutesToSecs(minutes) % 60 == 0 <==> Wraps(minutes) % 15 == 0
  {
    var k := Wraps(minutes);
    WrappedSecs(minutes);
    assert TWO_TO_THE_64 == 60 * 307_445_734_561_825_860 + 16;
    var whole := minutes - 307_445_734_561_825_860 * k;
    assert MinutesToSecs(minutes) == 60 * whole - 16 * k;
    RemainderOf(whole, k);
  }

  lemma {:induction false} RemainderOf(whole: int, k: int)
    ensures (60 * whole - 16 * k) % 60 == 0 <==> k % 15 == 0
  {
    var q, r := k / 15, k % 15;
    assert 60 * whole - 16 * k == 60 * (whole - 4 * q) - 16 * r;
    assert (60 * (whole - 4 * q) - 16 * r) % 60 == (-16 * r) % 60;
  }

  /**
   After any run the late threshold is a whole number of minutes if and only if the last
   minutes accepted wrap a multiple of fifteen times, or, when none were, it was one before.
   */
  lemma {:induction false} LateThresholdIsWholeIff(s: State, attempts: seq<Attempt>)
    ensures IsWholeMinutes(Run(s, attempts).settings) <==>
              match LastMinutes(attempts)
              case None => IsWholeMinutes(s.settings)
              case Some(minutes) => Wraps(minutes) % 15 == 0
  {
    ThresholdIsLastMinutes(s, attempts);
    if LastMinutes(attempts).Some? {
      WrapsLeaveWholeMinutesIff(LastMinutes(attempts).value);
    }
  }

  /** After any run the threshold is shown as it was last given if and only if its seconds fit 64 bits. */
  lemma {:induction false} LateThresholdIsShownIff(s: State, attempts: seq<Attempt>)
    requires LastMinutes(attempts).Some?
    ensures var minutes := LastMinutes(attempts).value;
            SecsToMinutes(Run(s, attempts).settings.workPolicy.lateThresholdSecs) == minutes <==> IsI64(minutes * 60)
  {
    var minutes := LastMinutes(attempts).value;
    ThresholdIsLastMinutes(s, attempts);
    WrappedSecs(minutes);
    TruncationIsClose(MinutesToSecs(minutes));
    if SecsToMinutes(MinutesToSecs(minutes)) == minutes {
      assert -60 < TWO_TO_THE_64 * Wraps(minutes) < 60;
    }
  }

  lemma {:induction false} TruncationIsClose(secs: int)
    ensures -60 < secs - 60 * SecsToMinutes(secs) < 60
    ensures secs % 60 == 0 ==> secs == 60 * SecsToMinutes(secs)
  {
    if secs < 0 {
      assert -secs == 60 * (-secs / 60) + -secs % 60;
    }
  }

  /** A request for another late threshold and nothing else. */
  function LateRequest(minutes: int): Attempt {
    Attempt(UpdateRequest(None, None, Some(UpdateWorkPolicy(None, None, Some(minutes), None)), None, None), true, true)
  }

  /**
   A 64-bit number of minutes that is accepted in any state and stored as no whole number of
   minutes, and one that is accepted and stored as no time at all.
   */
  lemma {:induction false} OverflowBreaksThreshold(s: State)
    ensures var a := LateRequest(153_722_867_280_912_931);
            && IsI64(153_722_867_280_912_931) && Accepted(a)
            && Step(s, a).settings.workPolicy.lateThresholdSecs == 52 - TWO_TO_THE_63
            && !IsWholeMinutes(Step(s, a).settings)
    ensures var a := LateRequest(0x4000_0000_0000_0000);
            && IsI64(0x4000_0000_0000_0000) && Accepted(a)
            && Step(s, a).settings.workPolicy.lateThresholdSecs == 0
  {
    assert Accepted(LateRequest(153_722_867_280_912_931));
    assert Accepted(LateRequest(0x4000_0000_0000_0000));
  }

  lemma {:induction false} ShownThreshold(secs: int)
    requires IsI64(secs)
    ensures MinutesToSecs(SecsToMinutes(secs)) == secs <==> secs % 60 == 0
  {
    if secs >= 0 {
      assert secs == 60 * (secs / 60) + secs % 60;
    } else {
      assert -secs == 60 * (-secs / 60) + -secs % 60;
    }
  }

  /**
   After any run, sending the settings back as shown is accepted and announces all five
   fields. It changes no setting if and only if the late threshold is a whole number of
   minutes, the unit it is shown in; otherwise that threshold alone is cut to one.
   */
  lemma {:induction false} SendingBackChangesNothingIff(s: State, attempts: seq<Attempt>)
    requires HasTimes(s.settings) && s.settings.pollIntervalSecs >= MIN_POLL
    ensures var now := Run(s, attempts);
            HasTimes(now.settings) &&
            var after := Step(now, Attempt(SentBack(now.settings), true, true));
            && after.published == now.published + [FIELDS]
            && (after.settings == now.settings <==> IsWholeMinutes(now.settings))
            && forall part :: part != Late ==> Held(after.settings, part) == Held(now.settings, part)
  {
    var now := Run(s, attempts);
    UpdatesKeepTimes(s, attempts);
    PollIntervalKeepsItsFloor(s, attempts);
    PrintedTimeReadsBack(now.settings.workPolicy.workStart);
    PrintedTimeReadsBack(now.settings.workPolicy.workEnd);
    ShownThreshold(now.settings.workPolicy.lateThresholdSecs);
    assert ChangedFields(SentBack(now.settings)) == FIELDS;
  }
}
