/**
 Sessions on an arbitrary clock: what every call keeps, when a recorded event is
 refused, and when it has been counted nevertheless.
 */
module RuntimeSessionRefusals {
  import opened Wrappers
  import opened Text
  import opened Clocks
  import opened RuntimeSession
  import opened RuntimeSessionTheorems

  /** What holds of a service whatever its clock does. */
  ghost predicate Sound(s: Session) {
    s.status.Some? ==>
      && s.sessionId.Some? && !Blank(s.sessionId.value)
      && s.startedAt.Some? && s.activeDate.Some? && s.dayStartedAt.Some?
      && (s.counters.heartbeats == 0 ==> s.lastHeartbeatAt.None?)
      && (s.counters.cycles == 0 ==> s.lastCycleAt.None?)
      && CyclesSplit(s)
      && (if s.IsRunning() then s.endedAt.None? && s.stopReason.None?
          else s.endedAt.Some? && s.stopReason.Some?)
  }

  lemma RotateKeepsSound(s: Session, now: Clock)
    requires Sound(s)
    ensures Sound(Rotate(s, now).session)
    ensures s.IsRunning() ==> Rotate(s, now).session.IsRunning()
  {
    hide Blank, CloseDay;
  }

  lemma StartKeepsSound(s: Session, id: string, now: Clock)
    requires Sound(s)
    ensures Sound(Start(s, id, now).session)
  {
    StripIsIdempotent(id);
  }

  lemma RecordKeepsSound(s: Session, e: Event, now: Clock)
    requires Sound(s)
    ensures Sound(Record(s, e, now).session)
  {
    RotateKeepsSound(s, now);
    if Rotate(s, now).outcome.Returned? {
      RotationChecked(s, now);
    }
    hide Rotate;
  }

  lemma FinishKeepsSound(s: Session, t: int, reason: StopReason, message: Option<string>, now: Clock)
    requires Sound(s) && s.IsRunning()
    ensures Sound(Finish(s, t, reason, message, now).session)
  {
  }

  lemma StopKeepsSound(s: Session, reason: StopReason, message: Option<string>, now: Clock)
    requires Sound(s)
    ensures Sound(Stop(s, reason, message, now).session)
  {
    hide Rotate, Finish, StripOrNone;
    RotateKeepsSound(s.Read(), now);
    var rotation := Rotate(s.Read(), now);
    if s.IsRunning() && rotation.outcome.Returned? {
      var s1, t := rotation.session.Read(), now(rotation.session.ticks);
      var last := CloseLastDay(s1, rotation.outcome.value.rotated, t);
      if last.Returned? {
        FinishKeepsSound(last.value, t, reason, message, now);
      }
    }
  }

  lemma DoKeepsSound(s: Session, call: Call, now: Clock)
    requires Sound(s)
    ensures Sound(Do(s, call, now).session)
  {
    hide Rotate, Stop, Start, Record;
    match call
    case StartCall(id) => StartKeepsSound(s, id, now);
    case Active(Log(e)) => RecordKeepsSound(s, e, now);
    case Active(_) => RotateKeepsSound(s, now);
    case StopCall(reason, message) => StopKeepsSound(s, reason, message, now);
  }

  /** Every session a service can reach is sound, on any clock. */
  lemma {:induction false} SoundAlways(states: seq<Session>, calls: seq<Call>, i: nat, now: Clock)
    requires Trace(states, calls, now) && states[0] == Unstarted() && i <= |calls|
    ensures Sound(states[i])
  {
    if i == 0 {
    } else {
      SoundAlways(states, calls, i - 1, now);
      DoKeepsSound(states[i - 1], calls[i - 1], now);
    }
  }

  // ---- When a recorded event is refused ----

  /** A snapshot read at `at` lies after the start, the last heartbeat and the last cycle. */
  ghost predicate Consistent(s: Session, heartbeat: Option<int>, cycle: Option<int>, at: int) {
    s.startedAt.Some?
    && s.startedAt.value <= at
    && Between(s.startedAt.value, heartbeat, at)
    && Between(s.startedAt.value, cycle, at)
  }

  /** The date has changed by the next reading. */
  predicate Turns(s: Session, now: Clock) {
    Some(DateOf(now(s.ticks))) != s.activeDate
  }

  /**
   The rotation before the event goes through: the day, if it ends, ends after it began,
   and the snapshot is in range.
   */
  ghost predicate RotationPasses(s: Session, now: Clock) {
    && (Turns(s, now) ==> s.dayStartedAt.Some? && s.dayStartedAt.value <= now(s.ticks))
    && (if Turns(s, now) then Consistent(s, None, None, now(s.ticks + 1))
        else Consistent(s, s.lastHeartbeatAt, s.lastCycleAt, now(s.ticks + 1)))
  }

  /** The snapshot that closes the call is in range; heartbeats and cycles are stamped by one reading before it. */
  ghost predicate ClosingPasses(s: Session, e: Event, now: Clock) {
    var heartbeat, cycle := if Turns(s, now) then None else s.lastHeartbeatAt,
                            if Turns(s, now) then None else s.lastCycleAt;
    var stamp := Some(now(s.ticks + 2));
    match e
    case Heartbeat => Consistent(s, stamp, cycle, now(s.ticks + 3))
    case Cycle(_) => Consistent(s, heartbeat, stamp, now(s.ticks + 3))
    case _ => Consistent(s, heartbeat, cycle, now(s.ticks + 2))
  }

  lemma RotationReads(s: Session, now: Clock)
    requires Sound(s) && s.IsRunning()
    ensures
      var r := Rotate(s, now);
      && (r.outcome.Returned? <==> RotationPasses(s, now))
      && (r.outcome.Raised? ==> r.outcome.fault == CheckFailed)
      && (r.outcome.Returned? ==>
            && r.session.ticks == s.ticks + 2
            && r.session.startedAt == s.startedAt
            && r.session.lastHeartbeatAt == (if Turns(s, now) then None else s.lastHeartbeatAt)
            && r.session.lastCycleAt == (if Turns(s, now) then None else s.lastCycleAt))
  {
  }

  lemma ClosingReads(s: Session, e: Event, now: Clock)
    requires Sound(s) && s.IsRunning()
    ensures
      var counted := Count(s, e, now);
      var shot := TakeSnapshot(counted, now).outcome;
      && (shot.Returned? <==> Consistent(s, counted.lastHeartbeatAt, counted.lastCycleAt, now(counted.ticks)))
      && (shot.Raised? ==> shot.fault == CheckFailed)
  {
  }

  /**
   On any clock, a running session records an event without refusal exactly when
   its rotation and its closing snapshot pass, and the event has been counted
   exactly when the rotation passed, refused afterwards or not.
   */
  lemma RecordedExactly(s: Session, e: Event, k: Kind, now: Clock)
    requires Sound(s) && s.IsRunning()
    ensures
      var r := Record(s, e, now);
      && (r.outcome.Returned? <==> RotationPasses(s, now) && ClosingPasses(s, e, now))
      && (r.outcome.Raised? ==> r.outcome.fault == CheckFailed)
      && Accounted(r.session, k) == Accounted(s, k) + if RotationPasses(s, now) then Weight(e, k) else 0
  {
    hide Rotate, Count, TakeSnapshot, RotationPasses, ClosingPasses, Sound, Accounted;
    RotationReads(s, now);
    RotateAccounts(s, k, now);
    RotateKeepsSound(s, now);
    if RotationPasses(s, now) {
      var rotated := Rotate(s, now).session;
      ClosingReads(rotated, e, now);
      ClosingIsLater(s, rotated, e, now);
      CountAccounts(rotated, e, k, now);
      SnapshotAccounts(Count(rotated, e, now), k, now);
    }
  }

  /** The closing snapshot in readings from before the rotation. */
  lemma ClosingIsLater(s: Session, rotated: Session, e: Event, now: Clock)
    requires rotated.ticks == s.ticks + 2 && rotated.startedAt == s.startedAt
    requires rotated.lastHeartbeatAt == (if Turns(s, now) then None else s.lastHeartbeatAt)
    requires rotated.lastCycleAt == (if Turns(s, now) then None else s.lastCycleAt)
    ensures
      var counted := Count(rotated, e, now);
      Consistent(counted, counted.lastHeartbeatAt, counted.lastCycleAt, now(counted.ticks)) <==>
      ClosingPasses(s, e, now)
  {
    hide Turns;
  }

  // ---- When a stop is refused ----

  /** The day that is open after the rotation does not end before it began, by the fourth reading of the call. */
  ghost predicate LastDayCloses(s: Session, now: Clock) {
    s.dayStartedAt.Some? &&
    (if Turns(s.Read(), now) then now(s.ticks + 1) else s.dayStartedAt.value) <= now(s.ticks + 3)
  }

  /** The final snapshot, by the fifth reading, is in range. */
  ghost predicate FinalPasses(s: Session, now: Clock) {
    if Turns(s.Read(), now) then Consistent(s, None, None, now(s.ticks + 4))
    else Consistent(s, s.lastHeartbeatAt, s.lastCycleAt, now(s.ticks + 4))
  }

  lemma FinishReads(s: Session, t: int, reason: StopReason, message: Option<string>, now: Clock)
    requires Sound(s) && s.IsRunning()
    ensures
      var r := Finish(s, t, reason, message, now);
      && (r.outcome.Returned? <==> Consistent(s, s.lastHeartbeatAt, s.lastCycleAt, now(s.ticks)))
      && (r.outcome.Raised? ==> r.outcome.fault == CheckFailed)
      && !r.session.IsRunning() && r.session.summaries == s.summaries
  {
    hide StripOrNone, Strip;
  }

  lemma LastDayReads(s: Session, rotated: bool, t: int)
    requires Sound(s) && s.IsRunning()
    ensures
      var last := CloseLastDay(s, rotated, t);
      && (last.Returned? <==> s.dayStartedAt.value <= t)
      && (last.Raised? ==> last.fault == CheckFailed)
      && (last.Returned? ==> last.value == s.(summaries := last.value.summaries))
  {
  }

  lemma RotationOpens(s: Session, now: Clock)
    requires Sound(s) && s.IsRunning() && Rotate(s, now).outcome.Returned?
    ensures
      var r := Rotate(s, now).session;
      r.dayStartedAt == if Turns(s, now) then Some(now(s.ticks)) else s.dayStartedAt
  {
  }

  /**
   On any clock, stopping a running session is refused exactly when its rotation, the
   end of its last day or its final snapshot is out of range. Refused by one of the
   first two it is still running; refused by the last it has ended with all counts in
   its summaries, but no report can be had: any further stop is refused.
   */
  lemma StoppedExactly(s: Session, reason: StopReason, message: Option<string>, k: Kind, now: Clock)
    requires Sound(s) && s.IsRunning()
    ensures
      var r := Stop(s, reason, message, now);
      && (r.outcome.Returned? <==> RotationPasses(s.Read(), now) && LastDayCloses(s, now) && FinalPasses(s, now))
      && (r.outcome.Raised? ==> r.outcome.fault == CheckFailed)
      && (r.session.IsRunning() <==> !(RotationPasses(s.Read(), now) && LastDayCloses(s, now)))
      && (!r.session.IsRunning() ==>
            && Total(r.session.summaries, k) == Accounted(s, k)
            && forall why, text :: Stop(r.session, why, text, now) == Effect(r.session, Raised(NotRunning)))
  {
    hide RotationPasses, LastDayCloses, FinalPasses, Stop, Accounted, Total;
    StopRefused(s, reason, message, now);
    if RotationPasses(s.Read(), now) && LastDayCloses(s, now) {
      StopPasses(s, reason, message, k, now);
      forall why, text
        ensures Stop(Stop(s, reason, message, now).session, why, text, now) ==
                Effect(Stop(s, reason, message, now).session, Raised(NotRunning))
      {
        StopAgain(Stop(s, reason, message, now).session, why, text, now);
      }
    }
  }

  lemma StopAgain(s: Session, reason: StopReason, message: Option<string>, now: Clock)
    requires !s.IsRunning()
    ensures Stop(s, reason, message, now) == Effect(s, Raised(NotRunning))
  {
  }

  /** A stop refused before the session ends. */
  lemma StopRefused(s: Session, reason: StopReason, message: Option<string>, now: Clock)
    requires Sound(s) && s.IsRunning()
    ensures
      var r := Stop(s, reason, message, now);
      !(RotationPasses(s.Read(), now) && LastDayCloses(s, now)) ==>
        r.outcome == Raised(CheckFailed) && r.session.IsRunning()
  {
    hide Rotate, RotationPasses, Finish, CloseLastDay;
    RotationReads(s.Read(), now);
    RotateKeepsSound(s.Read(), now);
    var rotation := Rotate(s.Read(), now);
    if rotation.outcome.Returned? {
      RotationOpens(s.Read(), now);
      LastDayReads(rotation.session.Read(), rotation.outcome.value.rotated, now(rotation.session.ticks));
    }
  }

  /** A stop that ends the session, with or without a report. */
  lemma StopPasses(s: Session, reason: StopReason, message: Option<string>, k: Kind, now: Clock)
    requires Sound(s) && s.IsRunning() && RotationPasses(s.Read(), now) && LastDayCloses(s, now)
    ensures
      var r := Stop(s, reason, message, now);
      && (r.outcome.Returned? <==> FinalPasses(s, now))
      && (r.outcome.Raised? ==> r.outcome.fault == CheckFailed)
      && !r.session.IsRunning() && Total(r.session.summaries, k) == Accounted(s, k)
  {
    hide Rotate, RotationPasses, Consistent, Finish, CloseLastDay, Accounted, Total, Stop;
    RotationReads(s.Read(), now);
    RotateKeepsSound(s.Read(), now);
    RotationOpens(s.Read(), now);
    var rotation := Rotate(s.Read(), now);
    var s1, t := rotation.session.Read(), now(rotation.session.ticks);
    LastDayReads(s1, rotation.outcome.value.rotated, t);
    var last := CloseLastDay(s1, rotation.outcome.value.rotated, t).value;
    FinishReads(last, t, reason, message, now);
    StopUnfolds(s, reason, message, now);
    SameRange(s, last, now(s.ticks + 4));
    ReadAccounts(s, k);
    RotateAccounts(s.Read(), k, now);
    ReadAccounts(rotation.session, k);
    CloseLastDayAccounts(s1, rotation.outcome.value.rotated, t, k);
  }

  lemma SameRange(s: Session, s': Session, at: int)
    requires s'.startedAt == s.startedAt
    ensures forall heartbeat, cycle ::
              Consistent(s', heartbeat, cycle, at) <==> Consistent(s, heartbeat, cycle, at)
  {
  }

  /** Falling just before the final snapshot: the session has stopped, and its report is never seen. */
  lemma StoppedWithoutReport(id: string, message: Option<string>) returns (s: Session)
    requires !Blank(id)
    ensures Start(Unstarted(), id, FallsAfter(6)).outcome.Returned?
    ensures s == Start(Unstarted(), id, FallsAfter(6)).session && s.IsRunning()
    ensures
      var r := Stop(s, Normal, message, FallsAfter(6));
      && r.outcome.Raised? && r.session.status == Some(Stopped)
      && Stop(r.session, Normal, message, FallsAfter(6)).outcome == Raised(NotRunning)
  {
    StripIsIdempotent(id);
    hide Strip, StripOrNone;
    s := Start(Unstarted(), id, FallsAfter(6)).session;
    StartKeepsSound(Unstarted(), id, FallsAfter(6));
    StoppedExactly(s, Normal, message, Heartbeats, FallsAfter(6));
  }

  // ---- Both ways of being refused ----

  /** A clock that shows 10 for the first `n` readings and 5 afterwards. */
  function FallsAfter(n: nat): Clock {
    i => if i < n then 10 else 5
  }

  /** Falling right after the start: the rotation before the event is refused, and the event is not counted. */
  lemma RefusedUncounted(id: string) returns (s: Session)
    requires !Blank(id)
    ensures Start(Unstarted(), id, FallsAfter(2)).outcome.Returned?
    ensures s == Start(Unstarted(), id, FallsAfter(2)).session && s.IsRunning()
    ensures
      var r := Record(s, Heartbeat, FallsAfter(2));
      r.outcome == Raised(CheckFailed) && Accounted(r.session, Heartbeats) == Accounted(s, Heartbeats)
  {
    StripIsIdempotent(id);
    hide Strip;
    s := Start(Unstarted(), id, FallsAfter(2)).session;
    RotateAccounts(s, Heartbeats, FallsAfter(2));
  }

  /** Falling just before the closing snapshot: the event is refused after it has been counted. */
  lemma RefusedCounted(id: string) returns (s: Session)
    requires !Blank(id)
    ensures Start(Unstarted(), id, FallsAfter(5)).outcome.Returned?
    ensures s == Start(Unstarted(), id, FallsAfter(5)).session && s.IsRunning()
    ensures
      var r := Record(s, Heartbeat, FallsAfter(5));
      r.outcome == Raised(CheckFailed) && Accounted(r.session, Heartbeats) == Accounted(s, Heartbeats) + 1
  {
    StripIsIdempotent(id);
    hide Strip;
    s := Start(Unstarted(), id, FallsAfter(5)).session;
    StartKeepsSound(Unstarted(), id, FallsAfter(5));
    RecordedExactly(s, Heartbeat, Heartbeats, FallsAfter(5));
  }
}
