/**
 What snapshots show, against a plain reading of the calls: after a start and any
 activities every field is a function of the activities and the clock's readings.
 */
module RuntimeSessionSnapshots {
  import opened Wrappers
  import opened Text
  import opened Clocks
  import opened RuntimeSession
  import opened RuntimeSessionTheorems

  // ---- The activities, read off the clock ----

  /** Readings one activity makes when it returns: looking takes one, turning two, an event its own besides. */
  function Readings(a: Activity): nat {
    match a
    case Look => 1
    case Turn => 2
    case Log(e) => if e.Cycle? || e.Heartbeat? then 4 else 3
  }

  /** The number of the first reading after the activities, `first` being that of the start. */
  function NextReading(acts: seq<Activity>, first: nat): nat {
    if acts == [] then first + 2 else NextReading(acts[..|acts| - 1], first) + Readings(acts[|acts| - 1])
  }

  /** The date of the open day: that of the last reading an event or a turn began with. */
  function OpenDate(acts: seq<Activity>, first: nat, now: Clock): int {
    if acts == [] then DateOf(now(first))
    else if acts[|acts| - 1].Look? then OpenDate(acts[..|acts| - 1], first, now)
    else DateOf(now(NextReading(acts[..|acts| - 1], first)))
  }

  /** The last activity has found a new date. */
  predicate NewDate(acts: seq<Activity>, first: nat, now: Clock)
    requires acts != []
  {
    OpenDate(acts, first, now) != OpenDate(acts[..|acts| - 1], first, now)
  }

  /** What the activities since the last new date add up to. */
  function Today(acts: seq<Activity>, k: Kind, first: nat, now: Clock): int {
    if acts == [] then 0
    else
      ActivityWeight(acts[|acts| - 1], k) +
      if NewDate(acts, first, now) then 0 else Today(acts[..|acts| - 1], k, first, now)
  }

  /** The sums of the days before, one per new date. */
  function DaysBefore(acts: seq<Activity>, k: Kind, first: nat, now: Clock): seq<int> {
    if acts == [] then []
    else
      var init := acts[..|acts| - 1];
      DaysBefore(init, k, first, now) + if NewDate(acts, first, now) then [Today(init, k, first, now)] else []
  }

  /** The reading of the last event of the kind since the last new date. */
  function LastSince(acts: seq<Activity>, heartbeat: bool, first: nat, now: Clock): Option<int> {
    if acts == [] then None
    else
      var init, last := acts[..|acts| - 1], acts[|acts| - 1];
      if last.Log? && (if heartbeat then last.event.Heartbeat? else last.event.Cycle?)
      then Some(now(NextReading(init, first) + 2))
      else if NewDate(acts, first, now) then None
      else LastSince(init, heartbeat, first, now)
  }

  // ---- The session they leave ----

  function Shown(shot: Snapshot, k: Kind): int {
    match k
    case Cycles => shot.counters.cycles
    case Successes => shot.counters.successes
    case Failures => shot.counters.failures
    case Heartbeats => shot.counters.heartbeats
    case Restarts => shot.counters.restarts
    case Errors => shot.counters.errors
  }

  /** The closed days hold the sums of the days before, and carry the date they began on. */
  ghost predicate DaysAre(days: seq<DailySummary>, id: string, acts: seq<Activity>, first: nat, now: Clock) {
    && (forall k :: |DaysBefore(acts, k, first, now)| == |days|)
    && (forall i, k :: 0 <= i < |days| ==> Amount(days[i], k) == DaysBefore(acts, k, first, now)[i])
    && forall i :: 0 <= i < |days| ==> days[i].sessionId == id && days[i].operatingDate == DateOf(days[i].startedAt)
  }

  /** The running session that a start as `id` and the activities have led to. */
  ghost predicate IsAfter(s: Session, id: string, acts: seq<Activity>, first: nat, now: Clock) {
    && s.ticks == NextReading(acts, first)
    && s.sessionId == Some(Strip(id)) && s.IsRunning() && s.startedAt == Some(now(first))
    && s.activeDate == Some(OpenDate(acts, first, now))
    && s.dayStartedAt.Some? && OpenDate(acts, first, now) == DateOf(s.dayStartedAt.value)
    && s.lastHeartbeatAt == LastSince(acts, true, first, now) && s.lastCycleAt == LastSince(acts, false, first, now)
    && (forall k :: Held(s, k) == Today(acts, k, first, now))
    && DaysAre(s.summaries, Strip(id), acts, first, now)
    && s.endedAt.None? && s.stopReason.None? && s.message.None?
  }

  /** A snapshot of that session, taken by the last of the readings made. */
  ghost predicate ShowsRunning(shot: Snapshot, id: string, acts: seq<Activity>, first: nat, now: Clock) {
    && shot.sessionId == Strip(id) && shot.status.Running? && shot.startedAt == now(first)
    && shot.checkedAt == now(NextReading(acts, first) - 1)
    && shot.activeDate == OpenDate(acts, first, now)
    && shot.lastHeartbeatAt == LastSince(acts, true, first, now)
    && shot.lastCycleAt == LastSince(acts, false, first, now)
    && (forall k :: Shown(shot, k) == Today(acts, k, first, now))
    && (forall k :: shot.completedDays == |DaysBefore(acts, k, first, now)|)
    && shot.endedAt.None? && shot.stopReason.None? && shot.message.None?
  }

  /** A snapshot shows the session it is taken of, the reading for it included. */
  lemma SnapshotShows(s: Session, id: string, acts: seq<Activity>, first: nat, now: Clock)
    requires IsAfter(s.Read(), id, acts, first, now) && TakeSnapshot(s, now).outcome.Returned?
    ensures TakeSnapshot(s, now).session == s.Read()
    ensures ShowsRunning(TakeSnapshot(s, now).outcome.value, id, acts, first, now)
  {
    hide Today, DaysBefore, LastSince, OpenDate, NextReading, Strip;
    var shot := TakeSnapshot(s, now).outcome.value;
    assert forall k :: Shown(shot, k) == Held(s.Read(), k);
    assert forall k :: |DaysBefore(acts, k, first, now)| == |s.summaries|;
  }

  lemma StartIs(s: Session, id: string, now: Clock)
    requires Start(s, id, now).outcome.Returned?
    ensures IsAfter(Start(s, id, now).session, id, [], s.ticks, now)
    ensures ShowsRunning(Start(s, id, now).outcome.value, id, [], s.ticks, now)
  {
    hide Strip;
    SnapshotShows(Opened(s.ticks + 1, Strip(id), now(s.ticks)), id, [], s.ticks, now);
  }

  // ---- Rotation ----

  /** The session between the two readings of a rotation. */
  function Reopened(s: Session, now: Clock): Session
    requires CloseDay(s.Read(), now(s.ticks)).Returned? || Some(DateOf(now(s.ticks))) == s.activeDate
  {
    var t := now(s.ticks);
    if Some(DateOf(t)) == s.activeDate then s.Read() else NextDay(s.Read(), CloseDay(s.Read(), t).value, t)
  }

  lemma DayIsClosed(s: Session, id: string, acts: seq<Activity>, first: nat, now: Clock)
    requires IsAfter(s, id, acts, first, now)
    requires NewDate(acts + [Turn], first, now) && CloseDay(s.Read(), now(s.ticks)).Returned?
    ensures
      var closed := CloseDay(s.Read(), now(s.ticks)).value;
      && DaysAre(s.summaries + [closed], Strip(id), acts + [Turn], first, now)
      && forall k :: Amount(closed, k) == Today(acts, k, first, now)
  {
    var all, closed := acts + [Turn], CloseDay(s.Read(), now(s.ticks)).value;
    assert all[..|acts|] == acts;
    assert closed.counters == s.counters;
    forall k
      ensures Amount(closed, k) == Today(acts, k, first, now)
      ensures DaysBefore(all, k, first, now) == DaysBefore(acts, k, first, now) + [Today(acts, k, first, now)]
    {
      HeldIsAmount(s, closed, k);
      hide Amount, Held;
    }
    hide Amount, Held, Today, DaysBefore, OpenDate, LastSince, Strip;
  }

  lemma TurnedIs(s: Session, id: string, acts: seq<Activity>, first: nat, now: Clock)
    requires IsAfter(s, id, acts, first, now)
    requires CloseDay(s.Read(), now(s.ticks)).Returned? || Some(DateOf(now(s.ticks))) == s.activeDate
    ensures IsAfter(Reopened(s, now).Read(), id, acts + [Turn], first, now)
  {
    var all := acts + [Turn];
    assert all[..|acts|] == acts;
    if NewDate(all, first, now) {
      DayIsClosed(s, id, acts, first, now);
      forall k
        ensures Held(Reopened(s, now), k) == 0 == Today(all, k, first, now)
      {
        NothingHeld(Reopened(s, now), k);
      }
      hide Today, DaysBefore, Strip, Held;
    } else {
      forall k
        ensures Today(all, k, first, now) == Today(acts, k, first, now)
        ensures DaysBefore(all, k, first, now) == DaysBefore(acts, k, first, now)
      {
      }
      hide Today, DaysBefore, Strip;
    }
  }

  /** A rotation that returns: the day closed if the date is new, and then a snapshot. */
  lemma RotateUnfolds(s: Session, now: Clock)
    requires Rotate(s, now).outcome.Returned?
    ensures
      var t, e := now(s.ticks), Rotate(s, now);
      var same := Some(DateOf(t)) == s.activeDate;
      && s.IsRunning() && (!same ==> CloseDay(s.Read(), t).Returned?)
      && var shot := TakeSnapshot(Reopened(s, now), now);
      && shot.outcome.Returned? && e.session == shot.session
      && e.outcome.value ==
         Rotation(!same, if same then None else Some(CloseDay(s.Read(), t).value), shot.outcome.value)
  {
    hide TakeSnapshot, CloseDay;
  }

  lemma RotationIs(s: Session, id: string, acts: seq<Activity>, first: nat, now: Clock)
    requires IsAfter(s, id, acts, first, now) && Rotate(s, now).outcome.Returned?
    ensures IsAfter(Rotate(s, now).session, id, acts + [Turn], first, now)
    ensures
      var r := Rotate(s, now).outcome.value;
      && ShowsRunning(r.snapshot, id, acts + [Turn], first, now)
      && (r.rotated <==> NewDate(acts + [Turn], first, now))
      && ClosesDay(r, acts, first, now)
  {
    RotateUnfolds(s, now);
    NewDateIs(s, id, acts, first, now);
    TurnedIs(s, id, acts, first, now);
    if NewDate(acts + [Turn], first, now) {
      DayIsClosed(s, id, acts, first, now);
    }
    hide Rotate, TakeSnapshot, CloseDay, Reopened, IsAfter, NewDate, ShowsRunning, Amount, Today;
    SnapshotShows(Reopened(s, now), id, acts + [Turn], first, now);
  }

  lemma NewDateIs(s: Session, id: string, acts: seq<Activity>, first: nat, now: Clock)
    requires IsAfter(s, id, acts, first, now)
    ensures NewDate(acts + [Turn], first, now) <==> Some(DateOf(now(s.ticks))) != s.activeDate
  {
    assert (acts + [Turn])[..|acts|] == acts;
    hide Today, DaysBefore, LastSince, DaysAre, Strip;
  }

  // ---- The other activities ----

  /** An event begins like a turn and then counts. */
  lemma LogLikeTurn(acts: seq<Activity>, e: Event, k: Kind, first: nat, now: Clock)
    ensures
      var turned, logged := acts + [Turn], acts + [Log(e)];
      var stamp := Some(now(NextReading(acts, first) + 2));
      && NextReading(turned, first) == NextReading(acts, first) + 2
      && NextReading(logged, first) == NextReading(turned, first) + (if e.Cycle? || e.Heartbeat? then 2 else 1)
      && OpenDate(logged, first, now) == OpenDate(turned, first, now)
      && Today(logged, k, first, now) == Today(turned, k, first, now) + Weight(e, k)
      && DaysBefore(logged, k, first, now) == DaysBefore(turned, k, first, now)
      && LastSince(logged, true, first, now) ==
         (if e.Heartbeat? then stamp else LastSince(turned, true, first, now))
      && LastSince(logged, false, first, now) ==
         (if e.Cycle? then stamp else LastSince(turned, false, first, now))
  {
    assert (acts + [Turn])[..|acts|] == acts && (acts + [Log(e)])[..|acts|] == acts;
    hide Weight;
  }

  lemma CountHeld(r: Session, id: string, acts: seq<Activity>, e: Event, k: Kind, first: nat, now: Clock)
    requires IsAfter(r, id, acts + [Turn], first, now)
    ensures Held(Count(r, e, now).Read(), k) == Today(acts + [Log(e)], k, first, now)
    ensures DaysBefore(acts + [Log(e)], k, first, now) == DaysBefore(acts + [Turn], k, first, now)
  {
    hide Today, DaysBefore, Held, Weight, Count, IsAfter, OpenDate, LastSince, NextReading;
    CountHolds(r, e, k, now);
    LogLikeTurn(acts, e, k, first, now);
    HeldToday(r, id, acts + [Turn], k, first, now);
  }

  /** Closed days depend on the days before alone. */
  lemma SameDaysBefore(
    days: seq<DailySummary>, id: string, acts: seq<Activity>, acts': seq<Activity>, first: nat, now: Clock)
    requires DaysAre(days, id, acts, first, now)
    requires forall k :: DaysBefore(acts', k, first, now) == DaysBefore(acts, k, first, now)
    ensures DaysAre(days, id, acts', first, now)
  {
    hide DaysBefore, Amount;
  }

  lemma CountIs(r: Session, id: string, acts: seq<Activity>, e: Event, first: nat, now: Clock)
    requires IsAfter(r, id, acts + [Turn], first, now)
    ensures IsAfter(Count(r, e, now).Read(), id, acts + [Log(e)], first, now)
  {
    hide Today, DaysBefore, Held, Strip, OpenDate, LastSince, NextReading, DaysAre;
    forall k
      ensures Held(Count(r, e, now).Read(), k) == Today(acts + [Log(e)], k, first, now)
      ensures DaysBefore(acts + [Log(e)], k, first, now) == DaysBefore(acts + [Turn], k, first, now)
    {
      CountHeld(r, id, acts, e, k, first, now);
    }
    SameDaysBefore(r.summaries, Strip(id), acts + [Turn], acts + [Log(e)], first, now);
    LogLikeTurn(acts, e, Cycles, first, now);
  }

  lemma HeldToday(s: Session, id: string, acts: seq<Activity>, k: Kind, first: nat, now: Clock)
    requires IsAfter(s, id, acts, first, now)
    ensures Held(s, k) == Today(acts, k, first, now)
  {
    hide Held, Today, DaysAre, LastSince, Strip;
  }

  lemma CountHolds(s: Session, e: Event, k: Kind, now: Clock)
    ensures Held(Count(s, e, now).Read(), k) == Held(s, k) + Weight(e, k)
  {
  }

  lemma LookIs(s: Session, id: string, acts: seq<Activity>, first: nat, now: Clock)
    requires IsAfter(s, id, acts, first, now)
    ensures IsAfter(s.Read(), id, acts + [Look], first, now)
  {
    var all := acts + [Look];
    assert all[..|acts|] == acts;
    forall k
      ensures Today(all, k, first, now) == Today(acts, k, first, now)
      ensures DaysBefore(all, k, first, now) == DaysBefore(acts, k, first, now)
    {
      LookChangesNothing(acts, k, first, now);
    }
    forall k
      ensures Held(s.Read(), k) == Held(s, k)
    {
    }
    hide Today, DaysBefore, Strip, Held;
  }

  lemma LookChangesNothing(acts: seq<Activity>, k: Kind, first: nat, now: Clock)
    ensures Today(acts + [Look], k, first, now) == Today(acts, k, first, now)
    ensures DaysBefore(acts + [Look], k, first, now) == DaysBefore(acts, k, first, now)
  {
    assert (acts + [Look])[..|acts|] == acts;
  }

  function SnapshotOf(answer: Answer): Snapshot
    requires answer.Shot? || answer.Turned?
  {
    if answer.Shot? then answer.snapshot else answer.rotation.snapshot
  }

  /** The rotation hands out the summary of the day it closed, if it closed one. */
  ghost predicate ClosesDay(r: Rotation, acts: seq<Activity>, first: nat, now: Clock) {
    if r.rotated then r.previous.Some? && forall k :: Amount(r.previous.value, k) == Today(acts, k, first, now)
    else r.previous.None?
  }

  /** One more activity that returns, and what it answers. */
  lemma ActIs(s: Session, id: string, acts: seq<Activity>, a: Activity, first: nat, now: Clock)
    requires IsAfter(s, id, acts, first, now) && !Act(s, a, now).answer.Refused?
    ensures IsAfter(Act(s, a, now).session, id, acts + [a], first, now)
    ensures
      var answer := Act(s, a, now).answer;
      && (if a.Turn? then answer.Turned? else answer.Shot?)
      && ShowsRunning(SnapshotOf(answer), id, acts + [a], first, now)
      && (a.Turn? ==>
            && (answer.rotation.rotated <==> NewDate(acts + [a], first, now))
            && ClosesDay(answer.rotation, acts, first, now))
  {
    hide IsAfter, ShowsRunning, Rotate, TakeSnapshot, Count, ClosesDay, NewDate;
    match a
    case Turn => RotationIs(s, id, acts, first, now);
    case Look =>
      LookIs(s, id, acts, first, now);
      SnapshotShows(s, id, acts + [Look], first, now);
    case Log(e) =>
      RotationIs(s, id, acts, first, now);
      var r := Rotate(s, now).session;
      CountIs(r, id, acts, e, first, now);
      SnapshotShows(Count(r, e, now), id, acts + [Log(e)], first, now);
  }

  // ---- Any activities ----

  lemma {:induction false} ThroughSnoc(s: Session, acts: seq<Activity>, a: Activity, now: Clock)
    ensures Through(s, acts + [a], now) ==
            match Through(s, acts, now)
            case None => None
            case Some(m) => if Act(m, a, now).answer.Refused? then None else Some(Act(m, a, now).session)
    decreases |acts|
  {
    hide Act;
    if acts == [] {
      assert (acts + [a])[1..] == [];
    } else {
      assert (acts + [a])[1..] == acts[1..] + [a];
      if !Act(s, acts[0], now).answer.Refused? {
        ThroughSnoc(Act(s, acts[0], now).session, acts[1..], a, now);
      }
    }
  }

  lemma {:induction false} ThroughIs(s: Session, id: string, acts: seq<Activity>, last: Session, now: Clock)
    requires Start(s, id, now).outcome.Returned?
    requires Through(Start(s, id, now).session, acts, now) == Some(last)
    ensures IsAfter(last, id, acts, s.ticks, now)
    decreases |acts|
  {
    hide IsAfter, Act, Start;
    if acts == [] {
      StartIs(s, id, now);
    } else {
      var init, a := acts[..|acts| - 1], acts[|acts| - 1];
      assert acts == init + [a];
      ThroughSnoc(Start(s, id, now).session, init, a, now);
      var before := Through(Start(s, id, now).session, init, now).value;
      ThroughIs(s, id, init, before, now);
      ActIs(before, id, init, a, s.ticks, now);
    }
  }

  function Sum(xs: seq<int>): int {
    if xs == [] then 0 else Sum(xs[..|xs| - 1]) + xs[|xs| - 1]
  }

  lemma {:induction false} TallySnoc(acts: seq<Activity>, a: Activity, k: Kind)
    ensures Tally(acts + [a], k) == Tally(acts, k) + ActivityWeight(a, k)
  {
    if acts == [] {
      assert (acts + [a])[1..] == [];
    } else {
      assert (acts + [a])[1..] == acts[1..] + [a];
      TallySnoc(acts[1..], a, k);
    }
  }

  /** Today and the days before add up to everything. */
  lemma {:induction false} DaysAddUp(acts: seq<Activity>, k: Kind, first: nat, now: Clock)
    ensures Sum(DaysBefore(acts, k, first, now)) + Today(acts, k, first, now) == Tally(acts, k)
  {
    if acts == [] {
    } else {
      var init, a := acts[..|acts| - 1], acts[|acts| - 1];
      DaysAddUp(init, k, first, now);
      TallySnoc(init, a, k);
      assert acts == init + [a];
      var days := DaysBefore(acts, k, first, now);
      if NewDate(acts, first, now) {
        assert days[..|days| - 1] == DaysBefore(init, k, first, now);
      } else {
        assert days == DaysBefore(init, k, first, now);
      }
      hide OpenDate, ActivityWeight, Tally;
    }
  }

  lemma {:induction false} SumIsTotal(days: seq<DailySummary>, k: Kind, amounts: seq<int>)
    requires |days| == |amounts| && forall i :: 0 <= i < |days| ==> Amount(days[i], k) == amounts[i]
    ensures Total(days, k) == Sum(amounts)
  {
    hide Amount;
    if days == [] {
    } else {
      SumIsTotal(days[..|days| - 1], k, amounts[..|amounts| - 1]);
    }
  }

  /**
   On any clock, the answer of any activity after a start is what the activities and the
   readings say: the snapshot's counts are those since the last new date, with the closed
   days they add up to all events, and its times and dates are the readings meant.
   */
  lemma SnapshotConservation(
    s: Session, id: string, acts: seq<Activity>, last: Session, a: Activity, k: Kind, now: Clock)
    requires Start(s, id, now).outcome.Returned?
    requires Through(Start(s, id, now).session, acts, now) == Some(last)
    requires !Act(last, a, now).answer.Refused?
    ensures
      var step := Act(last, a, now);
      && (step.answer.Shot? || step.answer.Turned?)
      && var shot := SnapshotOf(step.answer);
      && ShowsRunning(shot, id, acts + [a], s.ticks, now)
      && Total(step.session.summaries, k) + Shown(shot, k) == Tally(acts + [a], k)
      && shot.completedDays == |step.session.summaries|
  {
    ThroughIs(s, id, acts, last, now);
    ActIs(last, id, acts, a, s.ticks, now);
    var after := Act(last, a, now).session;
    hide Act, Start, Through, Today, DaysBefore, OpenDate, NextReading, LastSince, Amount, Strip, Tally, Shown, Held;
    DaysAddUp(acts + [a], k, s.ticks, now);
    SumIsTotal(after.summaries, k, DaysBefore(acts + [a], k, s.ticks, now));
  }

  // ---- The final report ----

  /** The activities as the stop sees them: it reads the clock once and then turns. */
  function Closing(acts: seq<Activity>): seq<Activity> {
    acts + [Look] + [Turn]
  }

  /** The turn of the stop opened a day that it ends at the same instant. */
  predicate EndsEmpty(acts: seq<Activity>, first: nat, now: Clock) {
    var next := NextReading(Closing(acts), first);
    NewDate(Closing(acts), first, now) && now(next) == now(next - 2)
  }

  /** The report of a session stopped after the activities, on any clock. */
  ghost predicate ReportShows(
    report: Report, id: string, acts: seq<Activity>, reason: StopReason, message: Option<string>, first: nat,
    now: Clock)
  {
    var all, shot, days := Closing(acts), report.snapshot, report.summaries;
    var next := NextReading(all, first);
    && shot.sessionId == Strip(id) && shot.startedAt == now(first)
    && shot.endedAt == Some(now(next)) && shot.checkedAt == now(next + 1)
    && shot.status == (if reason.Error? then Failed else Stopped) && shot.stopReason == Some(reason)
    && shot.message == (if message.Some? && !Blank(message.value) then Some(Strip(message.value)) else None)
    && shot.activeDate == OpenDate(all, first, now)
    && shot.lastHeartbeatAt == LastSince(all, true, first, now) && shot.lastCycleAt == LastSince(all, false, first, now)
    && (forall k :: Shown(shot, k) == Today(all, k, first, now))
    && shot.completedDays == |days|
    && ReportsDays(days, id, all, first, now, EndsEmpty(acts, first, now))
  }

  /** The days of the report: those before the last new date, and the last one unless it is left out as empty. */
  ghost predicate ReportsDays(
    days: seq<DailySummary>, id: string, acts: seq<Activity>, first: nat, now: Clock, empty: bool)
  {
    && (forall k :: |days| == |DaysBefore(acts, k, first, now)| + if empty then 0 else 1)
    && (forall i, k :: 0 <= i < |DaysBefore(acts, k, first, now)| ==>
          Amount(days[i], k) == DaysBefore(acts, k, first, now)[i])
    && (!empty ==> days != [] && ClosesLast(days[|days| - 1], id, acts, first, now, now(NextReading(acts, first))))
    && forall i :: 0 <= i < |days| ==>
        days[i].sessionId == Strip(id) && days[i].operatingDate == DateOf(days[i].startedAt)
  }

  lemma DaysAreReported(
    closed: seq<DailySummary>, days: seq<DailySummary>, id: string, acts: seq<Activity>, first: nat, now: Clock,
    empty: bool)
    requires DaysAre(closed, Strip(id), acts, first, now)
    requires
      if empty then days == closed
      else
        && days != [] && days[..|days| - 1] == closed
        && ClosesLast(days[|days| - 1], id, acts, first, now, now(NextReading(acts, first)))
    ensures ReportsDays(days, id, acts, first, now, empty)
  {
    hide Amount, DaysBefore, Strip, NextReading;
    assert forall i :: 0 <= i < |closed| ==> days[i] == closed[i];
    assert forall k :: |DaysBefore(acts, k, first, now)| == |closed|;
    forall i, k | 0 <= i < |DaysBefore(acts, k, first, now)|
      ensures Amount(days[i], k) == DaysBefore(acts, k, first, now)[i]
    {
      assert days[i] == closed[i];
    }
  }

  lemma NewDayOpens(s: Session, now: Clock)
    requires Rotate(s, now).outcome.Returned?
    ensures
      var e := Rotate(s, now);
      e.outcome.value.rotated ==> e.session.dayStartedAt == Some(now(s.ticks)) && e.session.counters == ZERO
  {
  }

  /** The last day, closed or left out. */
  lemma LastDayIs(s: Session, id: string, acts: seq<Activity>, first: nat, now: Clock, rotated: bool, t: int)
    requires IsAfter(s, id, acts, first, now) && CloseLastDay(s.Read(), rotated, t).Returned?
    ensures
      var days := CloseLastDay(s.Read(), rotated, t).value.summaries;
      && CloseLastDay(s.Read(), rotated, t).value == s.Read().(summaries := days)
      && (if rotated && s.EmptyDayAt(t) then days == s.summaries
          else days != [] && days[..|days| - 1] == s.summaries && ClosesLast(days[|days| - 1], id, acts, first, now, t))
  {
    hide Today, DaysAre, LastSince, NextReading, Strip, OpenDate;
    if !(rotated && s.EmptyDayAt(t)) {
      var day := CloseDay(s.Read(), t).value;
      forall k
        ensures Amount(day, k) == Today(acts, k, first, now)
      {
        HeldIsAmount(s, day, k);
      }
    }
  }

  /** The summary of the day that the stop ends. */
  ghost predicate ClosesLast(
    day: DailySummary, id: string, acts: seq<Activity>, first: nat, now: Clock, t: int)
  {
    && day.endedAt == t && day.sessionId == Strip(id) && day.operatingDate == DateOf(day.startedAt)
    && forall k :: Amount(day, k) == Today(acts, k, first, now)
  }

  lemma FinishShows(s: Session, t: int, reason: StopReason, message: Option<string>, now: Clock)
    requires s.IsStarted() && Finish(s, t, reason, message, now).outcome.Returned?
    ensures
      var report := Finish(s, t, reason, message, now).outcome.value;
      var shot := report.snapshot;
      && report.summaries == s.summaries && shot.completedDays == |s.summaries|
      && shot.sessionId == s.sessionId.value && shot.startedAt == s.startedAt.value
      && shot.activeDate == s.activeDate.value
      && shot.lastHeartbeatAt == s.lastHeartbeatAt && shot.lastCycleAt == s.lastCycleAt
      && (forall k :: Shown(shot, k) == Held(s, k))
      && shot.endedAt == Some(t) && shot.checkedAt == now(s.ticks)
      && shot.status == (if reason.Error? then Failed else Stopped) && shot.stopReason == Some(reason)
      && shot.message == (if message.Some? && !Blank(message.value) then Some(Strip(message.value)) else None)
  {
    if message.Some? {
      StripIsIdempotent(message.value);
    }
    hide Strip;
  }

  /** The stop's rotation, seen as a turn after a look. */
  lemma StopTurns(s: Session, id: string, acts: seq<Activity>, first: nat, now: Clock)
    requires IsAfter(s, id, acts, first, now) && Rotate(s.Read(), now).outcome.Returned?
    ensures
      var rotation := Rotate(s.Read(), now);
      var r := rotation.session;
      && IsAfter(r, id, Closing(acts), first, now)
      && (rotation.outcome.value.rotated && r.EmptyDayAt(now(r.ticks)) <==> EndsEmpty(acts, first, now))
  {
    LookIs(s, id, acts, first, now);
    RotationIs(s.Read(), id, acts + [Look], first, now);
    NewDayOpens(s.Read(), now);
    assert Closing(acts)[..|acts| + 1] == acts + [Look];
    assert NextReading(Closing(acts), first) == NextReading(acts + [Look], first) + 2;
    hide Rotate, Today, DaysBefore, LastSince, OpenDate, NextReading, Strip, DaysAre;
  }

  lemma EndShows(
    r: Session, days: seq<DailySummary>, id: string, acts: seq<Activity>, reason: StopReason,
    message: Option<string>, first: nat, now: Clock)
    requires IsAfter(r, id, Closing(acts), first, now)
    requires ReportsDays(days, id, Closing(acts), first, now, EndsEmpty(acts, first, now))
    requires Finish(r.Read().(summaries := days), now(r.ticks), reason, message, now).outcome.Returned?
    ensures
      var e := Finish(r.Read().(summaries := days), now(r.ticks), reason, message, now);
      ReportShows(e.outcome.value, id, acts, reason, message, first, now)
  {
    var last := r.Read().(summaries := days);
    FinishShows(last, now(r.ticks), reason, message, now);
    forall k
      ensures Held(last, k) == Today(Closing(acts), k, first, now)
    {
      HeldToday(r, id, Closing(acts), k, first, now);
      assert Held(last, k) == Held(r, k);
    }
    hide Finish, Today, LastSince, OpenDate, NextReading, Strip, DaysAre, ReportsDays, EndsEmpty, Closing, Held, Shown;
  }

  lemma StopShows(
    s: Session, id: string, acts: seq<Activity>, reason: StopReason, message: Option<string>, first: nat, now: Clock)
    requires IsAfter(s, id, acts, first, now) && Stop(s, reason, message, now).outcome.Returned?
    ensures ReportShows(Stop(s, reason, message, now).outcome.value, id, acts, reason, message, first, now)
  {
    var rotation := Rotate(s.Read(), now);
    var r, all := rotation.session, Closing(acts);
    assert s.IsRunning() && r.ticks == NextReading(all, first) by {
      StopTurns(s, id, acts, first, now);
    }
    StopTurns(s, id, acts, first, now);
    StopUnfolds(s, reason, message, now);
    hide Rotate, Finish, ReportShows, EndsEmpty, Closing;
    var t, rotated := now(r.ticks), rotation.outcome.value.rotated;
    LastDayIs(r, id, all, first, now, rotated, t);
    var days := CloseLastDay(r.Read(), rotated, t).value.summaries;
    hide CloseLastDay, ClosesLast, Stop;
    assert DaysAre(r.summaries, Strip(id), all, first, now);
    DaysAreReported(r.summaries, days, id, all, first, now, EndsEmpty(acts, first, now));
    hide IsAfter, ReportsDays;
    EndShows(r, days, id, acts, reason, message, first, now);
  }

  /** Start, activities and stop that all return: the report is what the activities and the readings say. */
  lemma ReportIsExact(
    s: Session, id: string, acts: seq<Activity>, last: Session, reason: StopReason, message: Option<string>,
    now: Clock)
    requires Start(s, id, now).outcome.Returned?
    requires Through(Start(s, id, now).session, acts, now) == Some(last)
    requires Stop(last, reason, message, now).outcome.Returned?
    ensures ReportShows(Stop(last, reason, message, now).outcome.value, id, acts, reason, message, s.ticks, now)
  {
    hide Start, Stop, Through, IsAfter, ReportShows;
    ThroughIs(s, id, acts, last, now);
    StopShows(last, id, acts, reason, message, s.ticks, now);
  }
}
