/**
 A long-running session: lifecycle, per-day counters, rotation when the UTC
 date changes, and the final report of daily summaries.
 */
module RuntimeSession {
  import opened Wrappers
  import opened Text
  import opened Clocks

  // Instants are microseconds; a UTC date is the number of its day.
  const DAY: int := 86_400_000_000

  function DateOf(t: int): int {
    t / DAY
  }

  datatype Status = Running | Stopped | Failed

  datatype StopReason = Normal | Manual | Error

  datatype Fault = AlreadyRunning | BlankSessionId | NotRunning | NotStarted | CheckFailed

  datatype Counters = Counters(
    cycles: nat, successes: nat, failures: nat, heartbeats: nat, restarts: nat, errors: nat)

  const ZERO := Counters(0, 0, 0, 0, 0, 0)

  datatype DailySummary = DailySummary(
    sessionId: string, operatingDate: int, startedAt: int, endedAt: int, counters: Counters)
  {
    /** The checks the summary's constructor makes. */
    predicate Accepted() {
      && !Blank(sessionId)
      && startedAt <= endedAt
      && counters.successes + counters.failures == counters.cycles
    }

    function Duration(): int {
      endedAt - startedAt
    }
  }

  datatype Snapshot = Snapshot(
    sessionId: string, status: Status, startedAt: int, checkedAt: int, activeDate: int,
    counters: Counters, completedDays: nat,
    lastHeartbeatAt: Option<int>, lastCycleAt: Option<int>,
    endedAt: Option<int>, stopReason: Option<StopReason>, message: Option<string>)
  {
    predicate Within(t: Option<int>) {
      t.Some? ==> startedAt <= t.value <= checkedAt
    }

    /** The checks the snapshot's constructor makes. */
    predicate Accepted() {
      && !Blank(sessionId)
      && startedAt <= checkedAt
      && Within(lastHeartbeatAt)
      && Within(lastCycleAt)
      && (counters.heartbeats == 0 ==> lastHeartbeatAt.None?)
      && (counters.cycles == 0 ==> lastCycleAt.None?)
      && (if status.Running? then endedAt.None? && stopReason.None?
          else endedAt.Some? && stopReason.Some?)
      && counters.successes + counters.failures == counters.cycles
    }
  }

  datatype Rotation = Rotation(rotated: bool, previous: Option<DailySummary>, snapshot: Snapshot) {
    predicate Accepted() {
      rotated == previous.Some?
    }
  }

  datatype Report = Report(snapshot: Snapshot, summaries: seq<DailySummary>) {
    predicate Accepted() {
      !snapshot.status.Running?
    }
  }

  /** The service's fields, with the number of clock readings made so far. */
  datatype Session = Session(
    ticks: nat, sessionId: Option<string>, startedAt: Option<int>, activeDate: Option<int>,
    dayStartedAt: Option<int>, status: Option<Status>, endedAt: Option<int>,
    stopReason: Option<StopReason>, message: Option<string>,
    lastHeartbeatAt: Option<int>, lastCycleAt: Option<int>,
    summaries: seq<DailySummary>, counters: Counters)
  {
    predicate IsRunning() {
      status == Some(Running)
    }

    predicate IsStarted() {
      sessionId.Some? && startedAt.Some? && activeDate.Some? && status.Some?
    }

    function Read(): Session {
      this.(ticks := ticks + 1)
    }

    function ResetDay(): Session {
      this.(counters := ZERO, lastHeartbeatAt := None, lastCycleAt := None)
    }

    function Append(closed: DailySummary): Session {
      this.(summaries := summaries + [closed])
    }

    predicate EmptyDayAt(t: int) {
      && dayStartedAt == Some(t)
      && counters.cycles == counters.heartbeats == counters.restarts == counters.errors == 0
    }
  }

  datatype Effect<T> = Effect(session: Session, outcome: Outcome<T, Fault>)

  function Unstarted(): Session {
    Session(0, None, None, None, None, None, None, None, None, None, None, [], ZERO)
  }

  // ---- What each call does to the session ----

  function ShotAt(s: Session, t: int): Snapshot
    requires s.IsStarted()
  {
    Snapshot(s.sessionId.value, s.status.value, s.startedAt.value, t, s.activeDate.value,
             s.counters, |s.summaries|, s.lastHeartbeatAt, s.lastCycleAt, s.endedAt, s.stopReason,
             StripOrNone(s.message))
  }

  function TakeSnapshot(s: Session, now: Clock): (e: Effect<Snapshot>)
    ensures e.session.startedAt == s.startedAt
  {
    if !s.IsStarted() then Effect(s, Raised(NotStarted))
    else
      var shot := ShotAt(s, now(s.ticks));
      Effect(s.Read(), if shot.Accepted() then Returned(shot) else Raised(CheckFailed))
  }

  function CloseDay(s: Session, endedAt: int): Outcome<DailySummary, Fault> {
    if s.sessionId.None? || s.activeDate.None? || s.dayStartedAt.None? then Raised(NotStarted)
    else
      var day := DailySummary(
        s.sessionId.value, s.activeDate.value, s.dayStartedAt.value, endedAt, s.counters);
      if day.Accepted() then Returned(day) else Raised(CheckFailed)
  }

  function Start(s: Session, id: string, now: Clock): Effect<Snapshot> {
    if s.IsRunning() then Effect(s, Raised(AlreadyRunning))
    else
      var t := now(s.ticks);
      if Blank(id) then Effect(s.Read(), Raised(BlankSessionId))
      else TakeSnapshot(Opened(s.ticks + 1, Strip(id), t), now)
  }

  function Opened(ticks: nat, id: string, t: int): Session {
    Session(ticks, Some(id), Some(t), Some(DateOf(t)), Some(t), Some(Running),
            None, None, None, None, None, [], ZERO)
  }

  function Rotate(s: Session, now: Clock): (e: Effect<Rotation>)
    ensures e.session.startedAt == s.startedAt
  {
    if !s.IsRunning() then Effect(s, Raised(NotRunning))
    else
      var t := now(s.ticks);
      if Some(DateOf(t)) == s.activeDate then Rotated(None, TakeSnapshot(s.Read(), now))
      else
        var closed := CloseDay(s.Read(), t);
        if closed.Raised? then Effect(s.Read(), Raised(closed.fault))
        else
          Rotated(Some(closed.value), TakeSnapshot(NextDay(s.Read(), closed.value, t), now))
  }

  function NextDay(s: Session, closed: DailySummary, t: int): Session {
    s.Append(closed).(activeDate := Some(DateOf(t)), dayStartedAt := Some(t)).ResetDay()
  }

  function Rotated(previous: Option<DailySummary>, shot: Effect<Snapshot>): Effect<Rotation> {
    Effect(shot.session,
           if shot.outcome.Raised? then Raised(shot.outcome.fault)
           else Returned(Rotation(previous.Some?, previous, shot.outcome.value)))
  }

  datatype Event = Cycle(successful: bool) | Heartbeat | Restart | ErrorSeen

  /** The effect of one recorded event on the open day's counters and times. */
  function Count(s: Session, e: Event, now: Clock): Session {
    var c := s.counters;
    match e
    case Cycle(true) =>
      s.Read().(lastCycleAt := Some(now(s.ticks)),
                counters := c.(cycles := c.cycles + 1, successes := c.successes + 1))
    case Cycle(false) =>
      s.Read().(lastCycleAt := Some(now(s.ticks)),
                counters := c.(cycles := c.cycles + 1, failures := c.failures + 1, errors := c.errors + 1))
    case Heartbeat =>
      s.Read().(lastHeartbeatAt := Some(now(s.ticks)), counters := c.(heartbeats := c.heartbeats + 1))
    case Restart => s.(counters := c.(restarts := c.restarts + 1))
    case ErrorSeen => s.(counters := c.(errors := c.errors + 1))
  }

  function Record(s: Session, e: Event, now: Clock): (r: Effect<Snapshot>)
    ensures r.session.startedAt == s.startedAt
  {
    var rotation := Rotate(s, now);
    if rotation.outcome.Raised? then Effect(rotation.session, Raised(rotation.outcome.fault))
    else TakeSnapshot(Count(rotation.session, e, now), now)
  }

  function Stop(s: Session, reason: StopReason, message: Option<string>, now: Clock): Effect<Report> {
    if !s.IsRunning() then Effect(s, Raised(NotRunning))
    else
      var rotation := Rotate(s.Read(), now);
      if rotation.outcome.Raised? then Effect(rotation.session, Raised(rotation.outcome.fault))
      else
        var s1 := rotation.session.Read();
        var t := now(rotation.session.ticks);
        var closed := CloseLastDay(s1, rotation.outcome.value.rotated, t);
        if closed.Raised? then Effect(s1, Raised(closed.fault))
        else Finish(closed.value, t, reason, message, now)
  }

  /** Closes the open day, unless a rotation has opened it at this very instant and it is empty. */
  function CloseLastDay(s: Session, rotated: bool, t: int): Outcome<Session, Fault> {
    if rotated && s.EmptyDayAt(t) then Returned(s)
    else
      var closed := CloseDay(s, t);
      if closed.Raised? then Raised(closed.fault) else Returned(s.Append(closed.value))
  }

  function Finish(s: Session, t: int, reason: StopReason, message: Option<string>, now: Clock): Effect<Report> {
    var shot := TakeSnapshot(Ended(s, t, reason, message), now);
    Effect(shot.session,
           if shot.outcome.Raised? then Raised(shot.outcome.fault)
           else
             var report := Report(shot.outcome.value, s.summaries);
             if report.Accepted() then Returned(report) else Raised(CheckFailed))
  }

  function Ended(s: Session, t: int, reason: StopReason, message: Option<string>): Session {
    s.(endedAt := Some(t), stopReason := Some(reason),
       status := Some(if reason.Error? then Failed else Stopped), message := StripOrNone(message))
  }

  // ---- The service object ----

  class RuntimeSessionService {
    const now: Clock
    var ticks: nat
    var sessionId: Option<string>
    var startedAt: Option<int>
    var activeDate: Option<int>
    var dayStartedAt: Option<int>
    var status: Option<Status>
    var endedAt: Option<int>
    var stopReason: Option<StopReason>
    var message: Option<string>
    var lastHeartbeatAt: Option<int>
    var lastCycleAt: Option<int>
    var summaries: seq<DailySummary>
    var counters: Counters

    function State(): Session
      reads this
    {
      Session(ticks, sessionId, startedAt, activeDate, dayStartedAt, status, endedAt, stopReason,
              message, lastHeartbeatAt, lastCycleAt, summaries, counters)
    }

    constructor (now: Clock)
      ensures State() == Unstarted() && this.now == now
    {
      this.now := now;
      ticks, summaries := 0, [];
      sessionId, startedAt, activeDate, dayStartedAt, status := None, None, None, None, None;
      endedAt, stopReason, message := None, None, None;
      lastHeartbeatAt, lastCycleAt, counters := None, None, ZERO;
    }

    method CurrentTime() returns (t: int)
      modifies this`ticks
      ensures State() == old(State()).Read() && t == now(old(ticks))
    {
      t := now(ticks);
      ticks := ticks + 1;
    }

    method ResetActiveCounters()
      modifies this`counters, this`lastHeartbeatAt, this`lastCycleAt
      ensures State() == old(State()).ResetDay()
    {
      counters, lastHeartbeatAt, lastCycleAt := ZERO, None, None;
    }

    method Open(id: string, current: int)
      modifies this
      ensures State() == Opened(old(ticks), id, current)
    {
      sessionId, startedAt := Some(id), Some(current);
      activeDate, dayStartedAt := Some(DateOf(current)), Some(current);
      status, endedAt, stopReason, message := Some(Running), None, None, None;
      summaries := [];
      ResetActiveCounters();
    }

    method StartSession(id: string) returns (r: Outcome<Snapshot, Fault>)
      modifies this
      ensures Effect(State(), r) == Start(old(State()), id, now)
    {
      if status == Some(Running) {
        return Raised(AlreadyRunning);
      }
      var current := CurrentTime();
      if Blank(id) {
        return Raised(BlankSessionId);
      }
      Open(Strip(id), current);
      r := CurrentSnapshot();
    }

    method RecordCycle(successful: bool) returns (r: Outcome<Snapshot, Fault>)
      modifies this
      ensures Effect(State(), r) == Record(old(State()), Cycle(successful), now)
    {
      var rotation := RotateIfNeeded();
      if rotation.Raised? {
        return Raised(rotation.fault);
      }
      ghost var rotated := State();
      counters := counters.(cycles := counters.cycles + 1);
      var current := CurrentTime();
      lastCycleAt := Some(current);
      if successful {
        counters := counters.(successes := counters.successes + 1);
      } else {
        counters := counters.(failures := counters.failures + 1);
        counters := counters.(errors := counters.errors + 1);
      }
      assert State() == Count(rotated, Cycle(successful), now);
      r := CurrentSnapshot();
    }

    method RecordHeartbeat() returns (r: Outcome<Snapshot, Fault>)
      modifies this
      ensures Effect(State(), r) == Record(old(State()), Heartbeat, now)
    {
      var rotation := RotateIfNeeded();
      if rotation.Raised? {
        return Raised(rotation.fault);
      }
      ghost var rotated := State();
      hide Rotate, TakeSnapshot;
      counters := counters.(heartbeats := counters.heartbeats + 1);
      var current := CurrentTime();
      lastHeartbeatAt := Some(current);
      assert State() == Count(rotated, Heartbeat, now);
      r := CurrentSnapshot();
    }

    method RecordRestart() returns (r: Outcome<Snapshot, Fault>)
      modifies this
      ensures Effect(State(), r) == Record(old(State()), Restart, now)
    {
      var rotation := RotateIfNeeded();
      if rotation.Raised? {
        return Raised(rotation.fault);
      }
      ghost var rotated := State();
      counters := counters.(restarts := counters.restarts + 1);
      assert State() == Count(rotated, Restart, now);
      r := CurrentSnapshot();
    }

    method RecordError() returns (r: Outcome<Snapshot, Fault>)
      modifies this
      ensures Effect(State(), r) == Record(old(State()), ErrorSeen, now)
    {
      var rotation := RotateIfNeeded();
      if rotation.Raised? {
        return Raised(rotation.fault);
      }
      ghost var rotated := State();
      counters := counters.(errors := counters.errors + 1);
      assert State() == Count(rotated, ErrorSeen, now);
      r := CurrentSnapshot();
    }

    method OpenNextDay(closed: DailySummary, current: int)
      modifies this
      ensures State() == NextDay(old(State()), closed, current)
    {
      summaries := summaries + [closed];
      activeDate, dayStartedAt := Some(DateOf(current)), Some(current);
      ResetActiveCounters();
    }

    method RotateIfNeeded() returns (r: Outcome<Rotation, Fault>)
      modifies this
      ensures Effect(State(), r) == Rotate(old(State()), now)
    {
      if status != Some(Running) {
        return Raised(NotRunning);
      }
      var current := CurrentTime();
      var previous: Option<DailySummary> := None;
      if Some(DateOf(current)) != activeDate {
        var closed := CloseDay(State(), current);
        if closed.Raised? {
          return Raised(closed.fault);
        }
        previous := Some(closed.value);
        OpenNextDay(closed.value, current);
      }
      var shot := CurrentSnapshot();
      r := if shot.Raised? then Raised(shot.fault)
           else Returned(Rotation(previous.Some?, previous, shot.value));
    }

    method StopSession(reason: StopReason, text: Option<string>) returns (r: Outcome<Report, Fault>)
      modifies this
      ensures Effect(State(), r) == Stop(old(State()), reason, text, now)
    {
      if status != Some(Running) {
        return Raised(NotRunning);
      }
      var current := CurrentTime();
      var rotation := RotateIfNeeded();
      if rotation.Raised? {
        return Raised(rotation.fault);
      }
      current := CurrentTime();
      if !(rotation.value.rotated && State().EmptyDayAt(current)) {
        var closed := CloseDay(State(), current);
        if closed.Raised? {
          return Raised(closed.fault);
        }
        AppendSummary(closed.value);
      }
      r := End(current, reason, text);
    }

    method AppendSummary(closed: DailySummary)
      modifies this`summaries
      ensures State() == old(State()).Append(closed)
    {
      summaries := summaries + [closed];
    }

    method End(current: int, reason: StopReason, text: Option<string>) returns (r: Outcome<Report, Fault>)
      modifies this
      ensures Effect(State(), r) == Finish(old(State()), current, reason, text, now)
    {
      endedAt, stopReason := Some(current), Some(reason);
      status := Some(if reason.Error? then Failed else Stopped);
      message := StripOrNone(text);
      assert State() == Ended(old(State()), current, reason, text);
      var shot := CurrentSnapshot();
      if shot.Raised? {
        return Raised(shot.fault);
      }
      var report := Report(shot.value, summaries);
      r := if report.Accepted() then Returned(report) else Raised(CheckFailed);
    }

    method CurrentSnapshot() returns (r: Outcome<Snapshot, Fault>)
      modifies this`ticks
      ensures Effect(State(), r) == TakeSnapshot(old(State()), now)
    {
      if !State().IsStarted() {
        return Raised(NotStarted);
      }
      var checkedAt := CurrentTime();
      var shot := ShotAt(State(), checkedAt);
      r := if shot.Accepted() then Returned(shot) else Raised(CheckFailed);
    }
  }
}
