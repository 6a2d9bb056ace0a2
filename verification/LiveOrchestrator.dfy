/**
 Continuous live operation: poll the market, hand new bars to paper trading, and
 repeat until a stop is requested, the cycle limit is reached or a cycle raises.
 */
module LiveOrchestrator {
  import opened Wrappers
  import opened Text
  import MarketMonitor
  import opened SignalEngine
  import opened PaperTrading

  datatype CycleStatus = CycleCompleted | CycleFailed

  datatype CycleResult<P> = CycleResult(
    number: int, startedAt: int, completedAt: int, status: CycleStatus,
    market: Option<MarketMonitor.PollResult>, paper: Option<PaperResult<P>>, error: Option<string>)
  {
    /** The checks the result's constructor makes. */
    predicate Accepted() {
      && number > 0
      && startedAt <= completedAt
      && (match status
          case CycleCompleted => market.Some? && error.None?
          case CycleFailed => error.Some? && !Blank(error.value))
    }
  }

  datatype StopReason = StopRequested | MaxCyclesReached | StoppedByError

  datatype RunResult<P> = RunResult(
    startedAt: int, completedAt: int, reason: StopReason, cycles: seq<CycleResult<P>>)
  {
    /** The checks the result's constructor makes. */
    predicate Accepted() {
      && startedAt <= completedAt
      && forall i :: 0 <= i < |cycles| ==> cycles[i].number == i + 1
    }
  }

  const BAD_INTERVAL := "the polling interval must not be negative"
  const BAD_MAXIMUM := "the maximum number of cycles must be greater than zero"
  const NO_CODES := "at least one code is needed"
  const BAD_CYCLE := "the cycle result is not consistent"
  const BAD_RUN := "the run result is not consistent"

  /** The state the orchestrator and its collaborators keep between calls. */
  datatype World<S, D> = World(
    stored: MarketMonitor.Stored, cells: Cells<S>, desk: D, ticks: nat, asked: nat, sleeps: nat)

  /** What stays fixed: the collaborators, and the answers of the clock, the stop switch and the market. */
  datatype Config<!S, !P, !D> = Config(
    setup: MarketMonitor.Setup, strategy: Strategy<S, P>, ops: Desk<D, P>,
    now: nat -> int, stop: nat -> bool, market: nat -> MarketMonitor.Provider)

  function Tick<S, D>(w: World<S, D>): World<S, D> {
    w.(ticks := w.ticks + 1)
  }

  // ---- One cycle ----

  /** The guarded part of a cycle: poll, and trade if bars were saved. */
  ghost function Attempt<S, P, D>(
    cfg: Config<S, P, D>, codes: seq<string>, lenient: bool, w: World<S, D>, startedAt: int)
    : (World<S, D>, Outcome<(MarketMonitor.PollResult, Option<PaperResult<P>>), string>)
  {
    var (stored, polled) := MarketMonitor.PollRun(cfg.setup, w.stored, codes, startedAt, cfg.market(w.ticks));
    if polled.Raised? then (w.(stored := stored), Raised(polled.fault))
    else if polled.value.decision != MarketMonitor.NewBarsSaved then
      (w.(stored := stored), Returned((polled.value, None)))
    else
      var x := TradeRun(cfg.strategy, cfg.ops, lenient, w.cells, w.desk, polled.value.newBars);
      var paper := Conclude(x, lenient);
      (w.(stored := stored, cells := x.cells, desk := x.desk),
       if paper.Raised? then Raised(paper.fault) else Returned((polled.value, Some(paper.value))))
  }

  ghost function RunCycle<S, P, D>(cfg: Config<S, P, D>, codes: seq<string>, lenient: bool, w: World<S, D>, number: int)
    : (r: (World<S, D>, Outcome<CycleResult<P>, string>))
    ensures r.0.asked == w.asked && r.0.sleeps == w.sleeps
  {
    var startedAt := cfg.now(w.ticks);
    var (w1, tried) := Attempt(cfg, codes, lenient, Tick(w), startedAt);
    if tried.Raised? then RecordFailure(cfg, lenient, w1, number, startedAt, tried.fault)
    else
      var done := CycleResult(number, startedAt, cfg.now(w1.ticks), CycleCompleted,
                              Some(tried.value.0), tried.value.1, None);
      if done.Accepted() then (Tick(w1), Returned(done))
      else RecordFailure(cfg, lenient, Tick(w1), number, startedAt, BAD_CYCLE)
  }

  /** An exception in a cycle: passed on, or in lenient operation turned into a failed result. */
  ghost function RecordFailure<S, P, D>(
    cfg: Config<S, P, D>, lenient: bool, w: World<S, D>, number: int, startedAt: int, error: string)
    : (World<S, D>, Outcome<CycleResult<P>, string>)
  {
    if !lenient then (w, Raised(error))
    else
      var failed := CycleResult(number, startedAt, cfg.now(w.ticks), CycleFailed, None, None, Some(error));
      (Tick(w), if failed.Accepted() then Returned(failed) else Raised(BAD_CYCLE))
  }

  // ---- The loop ----

  predicate Full(maxCycles: Option<int>, n: nat) {
    maxCycles.Some? && maxCycles.value <= n
  }

  /** Without a cycle limit the loop ends because the stop switch is on when asked for the `horizon`-th time. */
  ghost predicate Ends<S, P, D>(cfg: Config<S, P, D>, maxCycles: Option<int>, asked: nat, horizon: nat) {
    maxCycles.None? ==> asked <= horizon && cfg.stop(horizon)
  }

  type Looped<P> = Outcome<(StopReason, seq<CycleResult<P>>), string>

  /** One pass of the loop; it is over when there is an outcome. */
  datatype Round<S, P, D> = Round(world: World<S, D>, cycles: seq<CycleResult<P>>, over: Option<Looped<P>>)

  ghost function OneRound<S, P, D>(
    cfg: Config<S, P, D>, codes: seq<string>, lenient: bool, maxCycles: Option<int>,
    w: World<S, D>, cycles: seq<CycleResult<P>>)
    : (r: Round<S, P, D>)
    ensures r.over.None? ==>
              && |r.cycles| == |cycles| + 1 && !Full(maxCycles, |r.cycles|)
              && r.world.asked == w.asked + 2 && !cfg.stop(w.asked) && !cfg.stop(w.asked + 1)
  {
    var w1 := w.(asked := w.asked + 1);
    if cfg.stop(w.asked) then Round(w1, cycles, Some(Returned((StopRequested, cycles))))
    else if Full(maxCycles, |cycles|) then Round(w1, cycles, Some(Returned((MaxCyclesReached, cycles))))
    else
      var (w2, cycle) := RunCycle(cfg, codes, lenient, w1, |cycles| + 1);
      if cycle.Raised? then Round(w2, cycles, Some(Raised(cycle.fault)))
      else AfterCycle(cfg, lenient, maxCycles, w2, cycles + [cycle.value], cycle.value.status)
  }

  ghost function AfterCycle<S, P, D>(
    cfg: Config<S, P, D>, lenient: bool, maxCycles: Option<int>, w: World<S, D>, all: seq<CycleResult<P>>,
    status: CycleStatus)
    : Round<S, P, D>
  {
    if status.CycleFailed? && !lenient then Round(w, all, Some(Returned((StoppedByError, all))))
    else if Full(maxCycles, |all|) then Round(w, all, Some(Returned((MaxCyclesReached, all))))
    else
      var w1 := w.(asked := w.asked + 1);
      if cfg.stop(w.asked) then Round(w1, all, Some(Returned((StopRequested, all))))
      else Round(w1.(sleeps := w1.sleeps + 1), all, None)
  }

  /** A round that goes on comes closer to the limit or to the horizon. */
  lemma RoundAdvances<S, P, D>(
    cfg: Config<S, P, D>, codes: seq<string>, lenient: bool, maxCycles: Option<int>,
    w: World<S, D>, cycles: seq<CycleResult<P>>, horizon: nat)
    requires Ends(cfg, maxCycles, w.asked, horizon)
    ensures
      var r := OneRound(cfg, codes, lenient, maxCycles, w, cycles);
      r.over.None? ==>
        && Ends(cfg, maxCycles, r.world.asked, horizon)
        && |r.cycles| == |cycles| + 1 && r.world.asked == w.asked + 2
        && (if maxCycles.Some? then |r.cycles| < maxCycles.value else r.world.asked <= horizon)
  {
    hide OneRound;
  }

  ghost function Loop<S, P, D>(
    cfg: Config<S, P, D>, codes: seq<string>, lenient: bool, maxCycles: Option<int>,
    w: World<S, D>, cycles: seq<CycleResult<P>>, horizon: nat)
    : (World<S, D>, Looped<P>)
    requires Ends(cfg, maxCycles, w.asked, horizon)
    decreases if maxCycles.Some? then maxCycles.value - |cycles| else horizon + 1 - w.asked
  {
    RoundAdvances(cfg, codes, lenient, maxCycles, w, cycles, horizon);
    hide OneRound, Ends, Full;
    var round := OneRound(cfg, codes, lenient, maxCycles, w, cycles);
    if round.over.Some? then (round.world, round.over.value)
    else Loop(cfg, codes, lenient, maxCycles, round.world, round.cycles, horizon)
  }

  ghost function LiveRun<S, P, D>(
    cfg: Config<S, P, D>, codes: seq<string>, lenient: bool, pollInterval: int, maxCycles: Option<int>,
    w: World<S, D>, horizon: nat)
    : (World<S, D>, Outcome<RunResult<P>, string>)
    requires Ends(cfg, maxCycles, w.asked, horizon)
  {
    if pollInterval < 0 then (w, Raised(BAD_INTERVAL))
    else if maxCycles.Some? && maxCycles.value <= 0 then (w, Raised(BAD_MAXIMUM))
    else if codes == [] then (w, Raised(NO_CODES))
    else
      var (w1, looped) := Loop(cfg, codes, lenient, maxCycles, Tick(w), [], horizon);
      RunEnd(cfg, cfg.now(w.ticks), w1, looped)
  }

  /** What becomes of a run whose loop has ended. */
  ghost function RunEnd<S, P, D>(cfg: Config<S, P, D>, startedAt: int, w: World<S, D>, looped: Looped<P>)
    : (World<S, D>, Outcome<RunResult<P>, string>)
  {
    if looped.Raised? then (w, Raised(looped.fault))
    else
      var result := RunResult(startedAt, cfg.now(w.ticks), looped.value.0, looped.value.1);
      (Tick(w), if result.Accepted() then Returned(result) else Raised(BAD_RUN))
  }

  // ---- The orchestrator object ----

  class LiveTradingOrchestrator<S(!new), P(!new), D> {
    const monitor: MarketMonitor.RealtimeMarketMonitor
    const service: RealtimePaperTradingService<S, P, D>
    const now: nat -> int
    const stop: nat -> bool
    const market: nat -> MarketMonitor.Provider
    var ticks: nat
    var asked: nat
    var sleeps: nat

    ghost function Fixed(): Config<S, P, D> {
      Config(monitor.setup, service.engine.strategy, service.ops, now, stop, market)
    }

    ghost function State(): World<S, D>
      reads this, monitor.repository, service, service.engine
    {
      World(monitor.repository.stored, service.engine.Cells(), service.desk, ticks, asked, sleeps)
    }

    constructor (
      monitor: MarketMonitor.RealtimeMarketMonitor, service: RealtimePaperTradingService<S, P, D>,
      now: nat -> int, stop: nat -> bool, market: nat -> MarketMonitor.Provider)
      ensures this.monitor == monitor && this.service == service
      ensures this.now == now && this.stop == stop && this.market == market
      ensures ticks == asked == sleeps == 0
    {
      this.monitor, this.service, this.now, this.stop, this.market := monitor, service, now, stop, market;
      ticks, asked, sleeps := 0, 0, 0;
    }

    method CurrentTime() returns (t: int)
      modifies this`ticks
      ensures ticks == old(ticks) + 1 && t == now(old(ticks))
    {
      t := now(ticks);
      ticks := ticks + 1;
    }

    method IsStopRequested() returns (b: bool)
      modifies this`asked
      ensures asked == old(asked) + 1 && b == stop(old(asked))
    {
      b := stop(asked);
      asked := asked + 1;
    }

    method RunLive(codes: seq<string>, pollInterval: int, maxCycles: Option<int>, lenient: bool, ghost horizon: nat)
      returns (r: Outcome<RunResult<P>, string>)
      requires service.engine.Valid() && Ends(Fixed(), maxCycles, asked, horizon)
      modifies this, monitor.repository, service, service.engine
      ensures service.engine.Valid()
      ensures (State(), r) == LiveRun(Fixed(), codes, lenient, pollInterval, maxCycles, old(State()), horizon)
    {
      if pollInterval < 0 {
        return Raised(BAD_INTERVAL);
      }
      if maxCycles.Some? && maxCycles.value <= 0 {
        return Raised(BAD_MAXIMUM);
      }
      if codes == [] {
        return Raised(NO_CODES);
      }
      hide Loop, RunEnd;
      var startedAt := CurrentTime();
      assert State() == Tick(old(State()));
      var looped := Cycles(codes, maxCycles, lenient, horizon);
      r := EndRun(startedAt, looped);
    }

    /** The result of a run whose loop has ended. */
    method EndRun(startedAt: int, looped: Looped<P>) returns (r: Outcome<RunResult<P>, string>)
      requires service.engine.Valid()
      modifies this`ticks
      ensures (State(), r) == RunEnd(Fixed(), startedAt, old(State()), looped)
    {
      if looped.Raised? {
        return Raised(looped.fault);
      }
      var completedAt := CurrentTime();
      var result := RunResult(startedAt, completedAt, looped.value.0, looped.value.1);
      r := if result.Accepted() then Returned(result) else Raised(BAD_RUN);
    }

    /** The loop of the run, until one of its stop conditions. */
    method Cycles(codes: seq<string>, maxCycles: Option<int>, lenient: bool, ghost horizon: nat)
      returns (r: Looped<P>)
      requires service.engine.Valid() && Ends(Fixed(), maxCycles, asked, horizon)
      modifies this, monitor.repository, service, service.engine
      ensures service.engine.Valid()
      ensures (State(), r) == Loop(Fixed(), codes, lenient, maxCycles, old(State()), [], horizon)
    {
      hide OneRound;
      var cycles: seq<CycleResult<P>> := [];
      while true
        invariant service.engine.Valid() && Ends(Fixed(), maxCycles, asked, horizon)
        invariant Loop(Fixed(), codes, lenient, maxCycles, old(State()), [], horizon) ==
                  Loop(Fixed(), codes, lenient, maxCycles, State(), cycles, horizon)
        decreases if maxCycles.Some? then maxCycles.value - |cycles| else horizon + 1 - asked
      {
        var over;
        cycles, over := Pass(codes, maxCycles, lenient, cycles);
        if over.Some? {
          return over.value;
        }
      }
    }

    method Pass(codes: seq<string>, maxCycles: Option<int>, lenient: bool, cycles: seq<CycleResult<P>>)
      returns (all: seq<CycleResult<P>>, over: Option<Looped<P>>)
      requires service.engine.Valid()
      modifies this, monitor.repository, service, service.engine
      ensures service.engine.Valid()
      ensures Round(State(), all, over) == OneRound(Fixed(), codes, lenient, maxCycles, old(State()), cycles)
    {
      hide RunCycle, AfterCycle;
      all := cycles;
      var stopped := IsStopRequested();
      assert State() == old(State()).(asked := old(asked) + 1);
      if stopped {
        return cycles, Some(Returned((StopRequested, cycles)));
      }
      if Full(maxCycles, |cycles|) {
        return cycles, Some(Returned((MaxCyclesReached, cycles)));
      }
      var cycle := OneCycle(|cycles| + 1, codes, lenient);
      if cycle.Raised? {
        return cycles, Some(Raised(cycle.fault));
      }
      all := cycles + [cycle.value];
      over := Decide(maxCycles, lenient, all, cycle.value.status);
    }

    method Decide(maxCycles: Option<int>, lenient: bool, all: seq<CycleResult<P>>, status: CycleStatus)
      returns (over: Option<Looped<P>>)
      modifies this`asked, this`sleeps
      ensures Round(State(), all, over) == AfterCycle(Fixed(), lenient, maxCycles, old(State()), all, status)
    {
      if status.CycleFailed? && !lenient {
        return Some(Returned((StoppedByError, all)));
      }
      if Full(maxCycles, |all|) {
        return Some(Returned((MaxCyclesReached, all)));
      }
      var stopped := IsStopRequested();
      if stopped {
        return Some(Returned((StopRequested, all)));
      }
      sleeps := sleeps + 1;
      over := None;
    }

    method OneCycle(number: int, codes: seq<string>, lenient: bool) returns (r: Outcome<CycleResult<P>, string>)
      requires service.engine.Valid()
      modifies this, monitor.repository, service, service.engine
      ensures service.engine.Valid()
      ensures (State(), r) == RunCycle(Fixed(), codes, lenient, old(State()), number)
    {
      hide Attempt;
      var startedAt := CurrentTime();
      assert State() == Tick(old(State()));
      var tried := Try(codes, lenient, startedAt);
      if tried.Raised? {
        r := Fail(lenient, number, startedAt, tried.fault);
        return;
      }
      var completedAt := CurrentTime();
      var done := CycleResult(number, startedAt, completedAt, CycleCompleted,
                              Some(tried.value.0), tried.value.1, None);
      if done.Accepted() {
        return Returned(done);
      }
      r := Fail(lenient, number, startedAt, BAD_CYCLE);
    }

    method Try(codes: seq<string>, lenient: bool, startedAt: int)
      returns (r: Outcome<(MarketMonitor.PollResult, Option<PaperResult<P>>), string>)
      requires service.engine.Valid() && ticks > 0
      modifies monitor.repository, service, service.engine
      ensures service.engine.Valid()
      ensures (State(), r) == Attempt(Fixed(), codes, lenient, old(State()), startedAt)
    {
      var polled := monitor.Poll(codes, startedAt, market(ticks));
      if polled.Raised? {
        return Raised(polled.fault);
      }
      if polled.value.decision != MarketMonitor.NewBarsSaved {
        return Returned((polled.value, None));
      }
      var paper := service.Process(polled.value.newBars, 10_000, lenient);
      r := if paper.Raised? then Raised(paper.fault) else Returned((polled.value, Some(paper.value)));
    }

    method Fail(lenient: bool, number: int, startedAt: int, error: string) returns (r: Outcome<CycleResult<P>, string>)
      modifies this`ticks
      ensures (State(), r) == RecordFailure(Fixed(), lenient, old(State()), number, startedAt, error)
    {
      if !lenient {
        return Raised(error);
      }
      var completedAt := CurrentTime();
      var failed := CycleResult(number, startedAt, completedAt, CycleFailed, None, None, Some(error));
      r := if failed.Accepted() then Returned(failed) else Raised(BAD_CYCLE);
    }
  }
}
