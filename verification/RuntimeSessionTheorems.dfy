/** What a runtime session keeps over any sequence of calls, and what its final report accounts for. */
module RuntimeSessionTheorems {
  import opened Wrappers
  import opened Text
  import opened Clocks
  import opened RuntimeSession

  // ---- Daily summaries that tile a span of time ----

  ghost predicate Tiles(days: seq<DailySummary>, from: int, to: int) {
    if days == [] then from == to
    else
      && days[|days| - 1].endedAt == to
      && Tiles(days[..|days| - 1], from, days[|days| - 1].startedAt)
  }

  function TotalDuration(days: seq<DailySummary>): int {
    if days == [] then 0 else TotalDuration(days[..|days| - 1]) + days[|days| - 1].Duration()
  }

  datatype Kind = Cycles | Successes | Failures | Heartbeats | Restarts | Errors

  function Amount(day: DailySummary, k: Kind): int {
    match k
    case Cycles => day.counters.cycles
    case Successes => day.counters.successes
    case Failures => day.counters.failures
    case Heartbeats => day.counters.heartbeats
    case Restarts => day.counters.restarts
    case Errors => day.counters.errors
  }

  function Total(days: seq<DailySummary>, k: Kind): int {
    if days == [] then 0 else Total(days[..|days| - 1], k) + Amount(days[|days| - 1], k)
  }

  ghost predicate DatesIncrease(days: seq<DailySummary>) {
    forall i, j :: 0 <= i < j < |days| ==> days[i].operatingDate < days[j].operatingDate
  }

  lemma {:induction false} TilesTelescope(days: seq<DailySummary>, from: int, to: int)
    requires Tiles(days, from, to)
    ensures TotalDuration(days) == to - from
  {
    if days == [] {
    } else {
      TilesTelescope(days[..|days| - 1], from, days[|days| - 1].startedAt);
    }
  }

  lemma {:induction false} TilesMeet(days: seq<DailySummary>, from: int, to: int, i: nat)
    requires Tiles(days, from, to) && i < |days|
    ensures days[i].startedAt == if i == 0 then from else days[i - 1].endedAt
  {
    var rest := days[..|days| - 1];
    if i < |rest| {
      TilesMeet(rest, from, days[|days| - 1].startedAt, i);
    } else if i > 0 {
      assert rest[i - 1] == days[i - 1];
    }
  }

  // ---- The invariant ----

  ghost predicate Between(from: int, t: Option<int>, to: int) {
    t.Some? ==> from <= t.value <= to
  }

  ghost predicate DaysKept(s: Session)
    requires s.startedAt.Some? && s.dayStartedAt.Some? && s.activeDate.Some? && s.sessionId.Some?
  {
    && DatesIncrease(s.summaries)
    && (forall d :: d in s.summaries ==> d.Accepted() && d.sessionId == s.sessionId.value)
    && (s.IsRunning() ==>
          && s.activeDate.value == DateOf(s.dayStartedAt.value)
          && Tiles(s.summaries, s.startedAt.value, s.dayStartedAt.value)
          && forall d :: d in s.summaries ==> d.operatingDate < s.activeDate.value)
    && (!s.IsRunning() && s.endedAt.Some? ==> Tiles(s.summaries, s.startedAt.value, s.endedAt.value))
  }

  ghost predicate CyclesSplit(s: Session) {
    s.counters.successes + s.counters.failures == s.counters.cycles
  }

  /** What holds of one open or ended session, leaving out its closed days. */
  ghost predicate OpenKept(s: Session, now: Clock) {
      && s.sessionId.Some? && !Blank(s.sessionId.value)
      && s.startedAt.Some? && s.activeDate.Some? && s.dayStartedAt.Some?
      && s.startedAt.value <= s.dayStartedAt.value <= now(s.ticks)
      && Between(s.startedAt.value, s.lastHeartbeatAt, now(s.ticks))
      && Between(s.startedAt.value, s.lastCycleAt, now(s.ticks))
      && (s.counters.heartbeats == 0 ==> s.lastHeartbeatAt.None?)
      && (s.counters.cycles == 0 ==> s.lastCycleAt.None?)
      && CyclesSplit(s)
      && (if s.IsRunning() then s.endedAt.None? && s.stopReason.None?
          else s.endedAt.Some? && s.stopReason.Some?)
  }

  ghost predicate Inv(s: Session, now: Clock) {
    s.status.Some? ==> OpenKept(s, now) && DaysKept(s)
  }

  lemma SnapshotAccepted(s: Session, now: Clock)
    requires Monotone(now) && Inv(s, now)
    ensures TakeSnapshot(s, now).outcome.Raised? <==> s.status.None?
    ensures s.status.None? ==> TakeSnapshot(s, now) == Effect(s, Raised(NotStarted))
    ensures s.status.Some? ==> TakeSnapshot(s, now).session == s.Read()
    ensures Inv(TakeSnapshot(s, now).session, now)
  {
    assert now(s.ticks) <= now(s.ticks + 1);
  }

  lemma DayCloses(s: Session, t: int, now: Clock)
    requires Inv(s, now) && s.IsRunning() && s.dayStartedAt.value <= t
    ensures CloseDay(s, t).Returned?
    ensures DatesIncrease(s.Append(CloseDay(s, t).value).summaries)
    ensures Tiles(s.Append(CloseDay(s, t).value).summaries, s.startedAt.value, t)
  {
    var days := s.Append(CloseDay(s, t).value).summaries;
    assert days[..|days| - 1] == s.summaries;
  }

  lemma DatesFollowTime(t: int, u: int)
    requires t <= u
    ensures DateOf(t) <= DateOf(u)
  {
  }

  lemma NextDayKeeps(s: Session, t: int, now: Clock)
    requires Inv(s, now) && s.IsRunning() && s.dayStartedAt.value <= t <= now(s.ticks)
    requires DateOf(t) != s.activeDate.value && CloseDay(s, t).Returned?
    ensures Inv(NextDay(s, CloseDay(s, t).value, t), now)
  {
    DayCloses(s, t, now);
    DatesFollowTime(s.dayStartedAt.value, t);
  }

  lemma RotateKeeps(s: Session, now: Clock)
    requires Monotone(now) && Inv(s, now)
    ensures Rotate(s, now).outcome.Raised? <==> !s.IsRunning()
    ensures !s.IsRunning() ==> Rotate(s, now) == Effect(s, Raised(NotRunning))
    ensures Inv(Rotate(s, now).session, now)
    ensures s.IsRunning() ==>
              && Rotate(s, now).session.IsRunning()
              && Rotate(s, now).outcome.value.Accepted()
              && Rotate(s, now).outcome.value.snapshot.Accepted()
              && (Rotate(s, now).outcome.value.rotated ==> Rotate(s, now).session.summaries != [])
  {
    if s.IsRunning() {
      var t := now(s.ticks);
      var s1 := s.Read();
      assert t <= now(s1.ticks);
      assert Inv(s1, now);
      if DateOf(t) == s.activeDate.value {
        SnapshotAccepted(s1, now);
      } else {
        DayCloses(s1, t, now);
        NextDayKeeps(s1, t, now);
        SnapshotAccepted(NextDay(s1, CloseDay(s1, t).value, t), now);
      }
    }
  }

  lemma CountKeeps(s: Session, e: Event, now: Clock)
    requires Monotone(now) && Inv(s, now) && s.IsRunning()
    ensures Inv(Count(s, e, now), now) && Count(s, e, now).IsRunning()
  {
    CountKeepsOpen(s, e, now);
    CountKeepsDays(s, e, now);
    hide Count, DaysKept, OpenKept;
  }

  lemma CountKeepsOpen(s: Session, e: Event, now: Clock)
    requires Monotone(now) && OpenKept(s, now) && s.IsRunning()
    ensures OpenKept(Count(s, e, now), now) && Count(s, e, now).IsRunning()
  {
    hide Blank;
    assert now(s.ticks) <= now(s.ticks + 1);
  }

  lemma CountKeepsDays(s: Session, e: Event, now: Clock)
    requires Inv(s, now) && s.IsRunning()
    ensures
      var c := Count(s, e, now);
      && c.startedAt.Some? && c.dayStartedAt.Some? && c.activeDate.Some? && c.sessionId.Some?
      && DaysKept(c)
  {
    hide Tiles, DatesIncrease;
  }

  lemma RecordKeeps(s: Session, e: Event, now: Clock)
    requires Monotone(now) && Inv(s, now)
    ensures Record(s, e, now).outcome.Raised? <==> !s.IsRunning()
    ensures !s.IsRunning() ==> Record(s, e, now) == Effect(s, Raised(NotRunning))
    ensures Inv(Record(s, e, now).session, now)
    ensures s.IsRunning() ==> Record(s, e, now).session.IsRunning()
  {
    RotateKeeps(s, now);
    if s.IsRunning() {
      CountKeeps(Rotate(s, now).session, e, now);
      SnapshotAccepted(Count(Rotate(s, now).session, e, now), now);
    }
  }

  lemma StartKeeps(s: Session, id: string, now: Clock)
    requires Monotone(now) && Inv(s, now)
    ensures Inv(Start(s, id, now).session, now)
    ensures Start(s, id, now).outcome.Raised? <==> s.IsRunning() || Blank(id)
    ensures Start(s, id, now).outcome.Raised? ==> Start(s, id, now).outcome.fault != CheckFailed
    ensures Start(s, id, now).outcome.Returned? ==> Start(s, id, now).session.IsRunning()
  {
    assert now(s.ticks) <= now(s.ticks + 1);
    if !s.IsRunning() && !Blank(id) {
      StripIsIdempotent(id);
      hide Strip;
      SnapshotAccepted(Opened(s.ticks + 1, Strip(id), now(s.ticks)), now);
    }
  }

  /** The report's days are non-empty, increase in date and tile the time from start to end. */
  ghost predicate ReportTiles(report: Report, startedAt: Option<int>) {
    && report.snapshot.endedAt.Some?
    && Some(report.snapshot.startedAt) == startedAt
    && report.summaries != []
    && DatesIncrease(report.summaries)
    && Tiles(report.summaries, report.snapshot.startedAt, report.snapshot.endedAt.value)
  }

  lemma FinishKeeps(s: Session, t: int, reason: StopReason, message: Option<string>, now: Clock)
    requires Monotone(now) && OpenKept(s, now) && s.IsRunning()
    requires DatesIncrease(s.summaries) && Tiles(s.summaries, s.startedAt.value, t)
    requires forall d :: d in s.summaries ==> d.Accepted() && d.sessionId == s.sessionId.value
    ensures Finish(s, t, reason, message, now).outcome.Returned?
    ensures Finish(s, t, reason, message, now).outcome.value.Accepted()
    ensures s.summaries != [] ==> ReportTiles(Finish(s, t, reason, message, now).outcome.value, s.startedAt)
    ensures Inv(Finish(s, t, reason, message, now).session, now)
  {
    SnapshotAccepted(Ended(s, t, reason, message), now);
  }

  lemma CloseLastDayKeeps(s: Session, rotated: bool, t: int, now: Clock)
    requires Inv(s, now) && s.IsRunning() && s.dayStartedAt.value <= t
    requires rotated ==> s.summaries != []
    ensures CloseLastDay(s, rotated, t).Returned?
    ensures
      var last := CloseLastDay(s, rotated, t).value;
      && last == s.(summaries := last.summaries)
      && last.summaries != []
      && DatesIncrease(last.summaries)
      && Tiles(last.summaries, s.startedAt.value, t)
      && (forall d :: d in last.summaries ==> d.Accepted() && d.sessionId == s.sessionId.value)
      && OpenKept(last, now) && last.IsRunning() && last.sessionId == s.sessionId && last.startedAt == s.startedAt
  {
    DayCloses(s, t, now);
  }

  lemma StopUnfolds(s: Session, reason: StopReason, message: Option<string>, now: Clock)
    requires s.IsRunning() && Rotate(s.Read(), now).outcome.Returned?
    ensures
      var rotation := Rotate(s.Read(), now);
      var s1, t := rotation.session.Read(), now(rotation.session.ticks);
      var last := CloseLastDay(s1, rotation.outcome.value.rotated, t);
      last.Returned? ==> Stop(s, reason, message, now) == Finish(last.value, t, reason, message, now)
  {
  }

  /** A reading of the clock keeps the invariant, and is no earlier than the start of the open day. */
  lemma ReadKeeps(s: Session, now: Clock)
    requires Monotone(now) && Inv(s, now) && s.IsRunning()
    ensures Inv(s.Read(), now) && s.Read().IsRunning() && s.Read().startedAt == s.startedAt
    ensures s.dayStartedAt.Some? && s.dayStartedAt.value <= now(s.ticks)
    ensures s.Read().dayStartedAt == s.dayStartedAt && s.Read().summaries == s.summaries
  {
    assert now(s.ticks) <= now(s.ticks + 1);
  }

  lemma StopKeeps(s: Session, reason: StopReason, message: Option<string>, now: Clock)
    requires Monotone(now) && Inv(s, now) && s.IsRunning()
    ensures Inv(Stop(s, reason, message, now).session, now)
    ensures Stop(s, reason, message, now).outcome.Returned?
    ensures Stop(s, reason, message, now).outcome.value.Accepted()
    ensures ReportTiles(Stop(s, reason, message, now).outcome.value, s.startedAt)
  {
    hide Stop, Rotate, Finish, CloseLastDay, Tiles, Inv, OpenKept, DatesIncrease, Monotone, ReportTiles;
    ReadKeeps(s, now);
    RotateKeeps(s.Read(), now);
    StopUnfolds(s, reason, message, now);
    var rotation := Rotate(s.Read(), now);
    var s1, t := rotation.session.Read(), now(rotation.session.ticks);
    ReadKeeps(rotation.session, now);
    CloseLastDayKeeps(s1, rotation.outcome.value.rotated, t, now);
    FinishKeeps(CloseLastDay(s1, rotation.outcome.value.rotated, t).value, t, reason, message, now);
  }

  // ---- Any sequence of calls, whatever each one raises ----

  /** What may be called between start and stop. */
  datatype Activity = Log(event: Event) | Turn | Look

  datatype Call =
    | StartCall(id: string)
    | Active(activity: Activity)
    | StopCall(reason: StopReason, message: Option<string>)

  datatype Answer =
    | Shot(snapshot: Snapshot)
    | Turned(rotation: Rotation)
    | Final(report: Report)
    | Refused(fault: Fault)

  datatype Step = Step(session: Session, answer: Answer)

  function ShotStep(e: Effect<Snapshot>): Step {
    Step(e.session, if e.outcome.Raised? then Refused(e.outcome.fault) else Shot(e.outcome.value))
  }

  function Act(s: Session, a: Activity, now: Clock): Step {
    match a
    case Log(e) => ShotStep(Record(s, e, now))
    case Look => ShotStep(TakeSnapshot(s, now))
    case Turn =>
      var e := Rotate(s, now);
      Step(e.session, if e.outcome.Raised? then Refused(e.outcome.fault) else Turned(e.outcome.value))
  }

  function Do(s: Session, call: Call, now: Clock): Step {
    match call
    case StartCall(id) => ShotStep(Start(s, id, now))
    case Active(a) => Act(s, a, now)
    case StopCall(reason, message) =>
      var e := Stop(s, reason, message, now);
      Step(e.session, if e.outcome.Raised? then Refused(e.outcome.fault) else Final(e.outcome.value))
  }

  /**
   The session before and after each of the calls; a call that raises keeps what
   it had already changed.
   */
  ghost predicate Trace(states: seq<Session>, calls: seq<Call>, now: Clock) {
    && |states| == |calls| + 1
    && forall i {:trigger calls[i]} :: 0 <= i < |calls| ==> states[i + 1] == Do(states[i], calls[i], now).session
  }

  /** The one fault that means the caller misused the lifecycle. */
  function Misuse(s: Session, call: Call): Option<Fault> {
    match call
    case StartCall(id) =>
      if s.IsRunning() then Some(AlreadyRunning) else if Blank(id) then Some(BlankSessionId) else None
    case Active(Look) => if s.status.None? then Some(NotStarted) else None
    case Active(_) => if s.IsRunning() then None else Some(NotRunning)
    case StopCall(_, _) => if s.IsRunning() then None else Some(NotRunning)
  }

  lemma ActKeeps(s: Session, a: Activity, now: Clock)
    requires Monotone(now) && Inv(s, now)
    ensures Inv(Act(s, a, now).session, now)
    ensures Act(s, a, now).session.startedAt == s.startedAt
    ensures s.IsRunning() ==> Act(s, a, now).session.IsRunning()
    ensures
      match Misuse(s, Active(a))
      case Some(fault) => Act(s, a, now).answer == Refused(fault)
      case None => !Act(s, a, now).answer.Refused?
  {
    match a
    case Log(e) => RecordKeeps(s, e, now);
    case Turn => RotateKeeps(s, now);
    case Look => SnapshotAccepted(s, now);
  }

  lemma DoKeeps(s: Session, call: Call, now: Clock)
    requires Monotone(now) && Inv(s, now)
    ensures Inv(Do(s, call, now).session, now)
    ensures
      match Misuse(s, call)
      case Some(fault) => Do(s, call, now).answer == Refused(fault)
      case None => !Do(s, call, now).answer.Refused?
  {
    match call
    case StartCall(id) => StartKeeps(s, id, now);
    case Active(a) => ActKeeps(s, a, now);
    case StopCall(reason, message) => if s.IsRunning() { StopKeeps(s, reason, message, now); }
  }

  lemma {:induction false} InvAlways(states: seq<Session>, calls: seq<Call>, i: nat, now: Clock)
    requires Monotone(now) && Trace(states, calls, now) && states[0] == Unstarted() && i <= |calls|
    ensures Inv(states[i], now)
  {
    if i == 0 {
    } else {
      InvAlways(states, calls, i - 1, now);
      DoKeeps(states[i - 1], calls[i - 1], now);
    }
  }

  /**
   With a clock that never runs backwards, whatever is called in whatever order,
   no model constructor rejects what the service builds: a call raises exactly
   when the lifecycle forbids it.
   */
  lemma NeverRejected(states: seq<Session>, calls: seq<Call>, i: nat, now: Clock)
    requires Monotone(now) && Trace(states, calls, now) && states[0] == Unstarted() && i < |calls|
    ensures
      match Misuse(states[i], calls[i])
      case Some(fault) => Do(states[i], calls[i], now).answer == Refused(fault)
      case None => !Do(states[i], calls[i], now).answer.Refused?
  {
    InvAlways(states, calls, i, now);
    DoKeeps(states[i], calls[i], now);
  }

  // ---- Conservation: the report accounts for every recorded event ----

  /** What one event adds to the count of each kind. */
  function Weight(e: Event, k: Kind): int {
    match k
    case Cycles => if e.Cycle? then 1 else 0
    case Successes => if e == Cycle(true) then 1 else 0
    case Failures => if e == Cycle(false) then 1 else 0
    case Heartbeats => if e == Heartbeat then 1 else 0
    case Restarts => if e == Restart then 1 else 0
    case Errors => if e == Cycle(false) || e == ErrorSeen then 1 else 0
  }

  function ActivityWeight(a: Activity, k: Kind): int {
    if a.Log? then Weight(a.event, k) else 0
  }

  /** What the events among the activities add up to. */
  function Tally(acts: seq<Activity>, k: Kind): int {
    if acts == [] then 0 else ActivityWeight(acts[0], k) + Tally(acts[1..], k)
  }

  /** What the snapshot taken by a rotation has checked. */
  lemma RotationChecked(s: Session, now: Clock)
    requires Rotate(s, now).outcome.Returned?
    ensures
      var r := Rotate(s, now).session;
      && r.IsStarted() && r.IsRunning() && !Blank(r.sessionId.value) && CyclesSplit(r)
      && (r.counters.heartbeats == 0 ==> r.lastHeartbeatAt.None?)
      && (r.counters.cycles == 0 ==> r.lastCycleAt.None?)
      && r.endedAt.None? && r.stopReason.None?
  {
  }

  /** The session after the activities, if each of them returns. */
  function Through(s: Session, acts: seq<Activity>, now: Clock): Option<Session>
    decreases |acts|
  {
    if acts == [] then Some(s)
    else
      var step := Act(s, acts[0], now);
      if step.answer.Refused? then None else Through(step.session, acts[1..], now)
  }

  /** The open day's count. */
  function Held(s: Session, k: Kind): int {
    match k
    case Cycles => s.counters.cycles
    case Successes => s.counters.successes
    case Failures => s.counters.failures
    case Heartbeats => s.counters.heartbeats
    case Restarts => s.counters.restarts
    case Errors => s.counters.errors
  }

  function Accounted(s: Session, k: Kind): int {
    Total(s.summaries, k) + Held(s, k)
  }

  lemma TotalAppend(s: Session, day: DailySummary, k: Kind)
    ensures Total(s.Append(day).summaries, k) == Total(s.summaries, k) + Amount(day, k)
  {
    assert s.Append(day).summaries[..|s.summaries|] == s.summaries;
  }

  lemma RotateAccounts(s: Session, k: Kind, now: Clock)
    ensures Accounted(Rotate(s, now).session, k) == Accounted(s, k)
    ensures CyclesSplit(s) ==> CyclesSplit(Rotate(s, now).session)
  {
    hide Accounted, TakeSnapshot, NextDay, CloseDay, CyclesSplit;
    var t := now(s.ticks);
    var closed := CloseDay(s.Read(), t);
    ReadAccounts(s, k);
    SnapshotAccounts(s.Read(), k, now);
    if closed.Returned? {
      NextDayAccounts(s.Read(), t, k);
      SnapshotAccounts(NextDay(s.Read(), closed.value, t), k, now);
    }
  }

  lemma ReadAccounts(s: Session, k: Kind)
    ensures Accounted(s.Read(), k) == Accounted(s, k) && (CyclesSplit(s.Read()) <==> CyclesSplit(s))
  {
  }

  /** The counts of the closed day move into its summary. */
  lemma NextDayAccounts(s: Session, t: int, k: Kind)
    requires CloseDay(s, t).Returned?
    ensures Accounted(NextDay(s, CloseDay(s, t).value, t), k) == Accounted(s, k)
    ensures CyclesSplit(NextDay(s, CloseDay(s, t).value, t))
  {
    hide Held, Amount, Total;
    var day := CloseDay(s, t).value;
    TotalAppend(s, day, k);
    HeldIsAmount(s, day, k);
    NothingHeld(NextDay(s, day, t), k);
    assert NextDay(s, day, t).summaries == s.Append(day).summaries;
  }

  lemma HeldIsAmount(s: Session, day: DailySummary, k: Kind)
    requires day.counters == s.counters
    ensures Amount(day, k) == Held(s, k)
  {
  }

  lemma NothingHeld(s: Session, k: Kind)
    requires s.counters == ZERO
    ensures Held(s, k) == 0
  {
  }

  lemma CountAccounts(s: Session, e: Event, k: Kind, now: Clock)
    ensures Accounted(Count(s, e, now), k) == Accounted(s, k) + Weight(e, k)
    ensures CyclesSplit(s) ==> CyclesSplit(Count(s, e, now))
  {
  }

  lemma SnapshotAccounts(s: Session, k: Kind, now: Clock)
    ensures Accounted(TakeSnapshot(s, now).session, k) == Accounted(s, k)
    ensures CyclesSplit(s) ==> CyclesSplit(TakeSnapshot(s, now).session)
  {
  }

  lemma ActAccounts(s: Session, a: Activity, k: Kind, now: Clock)
    requires !Act(s, a, now).answer.Refused?
    ensures Accounted(Act(s, a, now).session, k) == Accounted(s, k) + ActivityWeight(a, k)
    ensures CyclesSplit(s) ==> CyclesSplit(Act(s, a, now).session)
  {
    hide Rotate, TakeSnapshot, Count;
    RotateAccounts(s, k, now);
    match a
    case Turn =>
    case Look => SnapshotAccounts(s, k, now);
    case Log(e) =>
      CountAccounts(Rotate(s, now).session, e, k, now);
      SnapshotAccounts(Count(Rotate(s, now).session, e, now), k, now);
  }

  lemma {:induction false} RunAccounts(s: Session, acts: seq<Activity>, k: Kind, now: Clock)
    requires Through(s, acts, now).Some?
    ensures Accounted(Through(s, acts, now).value, k) == Accounted(s, k) + Tally(acts, k)
    ensures CyclesSplit(s) ==> CyclesSplit(Through(s, acts, now).value)
    decreases |acts|
  {
    if acts == [] {
    } else {
      ActAccounts(s, acts[0], k, now);
      RunAccounts(Act(s, acts[0], now).session, acts[1..], k, now);
    }
  }

  lemma CloseLastDayAccounts(s: Session, rotated: bool, t: int, k: Kind)
    requires CloseLastDay(s, rotated, t).Returned? && CyclesSplit(s)
    ensures Total(CloseLastDay(s, rotated, t).value.summaries, k) == Accounted(s, k)
  {
    if !(rotated && s.EmptyDayAt(t)) {
      TotalAppend(s, CloseDay(s, t).value, k);
      HeldIsAmount(s, CloseDay(s, t).value, k);
      hide Held, Amount, Total;
    }
  }

  lemma StopAccounts(s: Session, reason: StopReason, message: Option<string>, k: Kind, now: Clock)
    requires CyclesSplit(s)
    requires Stop(s, reason, message, now).outcome.Returned?
    ensures Total(Stop(s, reason, message, now).outcome.value.summaries, k) == Accounted(s, k)
  {
    hide Rotate, Accounted, Total, CyclesSplit, CloseLastDay;
    var rotation := Rotate(s.Read(), now);
    ReadAccounts(s, k);
    RotateAccounts(s.Read(), k, now);
    ReadAccounts(rotation.session, k);
    StopUnfolds(s, reason, message, now);
    CloseLastDayAccounts(
      rotation.session.Read(), rotation.outcome.value.rotated, now(rotation.session.ticks), k);
  }

  lemma StartsAtZero(s: Session, id: string, now: Clock)
    requires Start(s, id, now).outcome.Returned?
    ensures Start(s, id, now).session.summaries == [] && Start(s, id, now).session.counters == ZERO
    ensures Start(s, id, now).session.startedAt == Some(now(s.ticks))
  {
  }

  /**
   Whatever the clock does: if start, the activities and stop all return, the
   daily summaries of the final report add up to exactly the events recorded,
   also when the empty day at the end is left out.
   */
  lemma Conservation(
    s: Session, id: string, acts: seq<Activity>, last: Session, reason: StopReason,
    message: Option<string>, k: Kind, now: Clock)
    requires Start(s, id, now).outcome.Returned?
    requires Through(Start(s, id, now).session, acts, now) == Some(last)
    requires Stop(last, reason, message, now).outcome.Returned?
    ensures Total(Stop(last, reason, message, now).outcome.value.summaries, k) == Tally(acts, k)
  {
    hide Start, Through, Stop, Tally;
    StartsAtZero(s, id, now);
    RunAccounts(Start(s, id, now).session, acts, k, now);
    StopAccounts(last, reason, message, k, now);
  }

  // ---- The report of a whole session ----

  lemma {:induction false} RunsThrough(s: Session, acts: seq<Activity>, now: Clock)
    requires Monotone(now) && Inv(s, now) && s.IsRunning()
    ensures Through(s, acts, now).Some?
    ensures
      var last := Through(s, acts, now).value;
      Inv(last, now) && last.IsRunning() && last.startedAt == s.startedAt
    decreases |acts|
  {
    if acts == [] {
    } else {
      ActKeeps(s, acts[0], now);
      RunsThrough(Act(s, acts[0], now).session, acts[1..], now);
    }
  }

  /**
   A session started under a non-blank id and stopped after any mix of events,
   rotations and snapshots, on a clock that never runs backwards: the report
   exists; its days are non-empty, strictly increasing in date, each starts
   where the one before ended, they cover exactly the time from start to stop,
   and their counts add up to the events.
   */
  lemma FinalReport(
    s: Session, id: string, acts: seq<Activity>, reason: StopReason, message: Option<string>, now: Clock)
    returns (last: Session, report: Report)
    requires Monotone(now) && Inv(s, now) && !s.IsRunning() && !Blank(id)
    ensures Through(Start(s, id, now).session, acts, now) == Some(last)
    ensures Stop(last, reason, message, now).outcome == Returned(report)
    ensures report.snapshot.startedAt == now(s.ticks) && report.snapshot.endedAt.Some?
    ensures
      var days := report.summaries;
      && days != []
      && days[0].startedAt == report.snapshot.startedAt
      && days[|days| - 1].endedAt == report.snapshot.endedAt.value
      && (forall i :: 0 < i < |days| ==> days[i].startedAt == days[i - 1].endedAt)
      && DatesIncrease(days)
      && TotalDuration(days) == report.snapshot.endedAt.value - report.snapshot.startedAt
      && forall k :: Total(days, k) == Tally(acts, k)
  {
    StartKeeps(s, id, now);
    StartsAtZero(s, id, now);
    RunsThrough(Start(s, id, now).session, acts, now);
    last := Through(Start(s, id, now).session, acts, now).value;
    StopKeeps(last, reason, message, now);
    report := Stop(last, reason, message, now).outcome.value;
    forall k {
      Conservation(s, id, acts, last, reason, message, k, now);
    }
    DaysMeet(report, last.startedAt);
  }

  lemma DaysMeet(report: Report, startedAt: Option<int>)
    requires ReportTiles(report, startedAt)
    ensures report.summaries[0].startedAt == report.snapshot.startedAt
    ensures forall i :: 0 < i < |report.summaries| ==>
                          report.summaries[i].startedAt == report.summaries[i - 1].endedAt
    ensures TotalDuration(report.summaries) == report.snapshot.endedAt.value - report.snapshot.startedAt
  {
    var days, from, to := report.summaries, report.snapshot.startedAt, report.snapshot.endedAt.value;
    TilesTelescope(days, from, to);
    TilesMeet(days, from, to, 0);
    forall i | 0 <= i < |days|
      ensures days[i].startedAt == if i == 0 then from else days[i - 1].endedAt
    {
      TilesMeet(days, from, to, i);
    }
  }
}
