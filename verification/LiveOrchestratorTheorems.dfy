/** How a live run ends, what its result records, and when a cycle or a run raises. */
module LiveOrchestratorTheorems {
  import opened Wrappers
  import opened Text
  import opened Clocks
  import MarketMonitor
  import opened SignalEngine
  import opened PaperTrading
  import opened LiveOrchestrator
  import opened LivePipelineTheorems

  /** Paper trading is part of a cycle exactly when its poll saved new bars. */
  ghost predicate TradedExactly<P>(c: CycleResult<P>) {
    c.paper.Some? <==> c.market.Some? && c.market.value.decision == MarketMonitor.NewBarsSaved
  }

  lemma CycleReturns<S, P, D>(cfg: Config<S, P, D>, codes: seq<string>, lenient: bool, w: World<S, D>, number: int)
    ensures
      var (w', r) := RunCycle(cfg, codes, lenient, w, number);
      && w.ticks <= w'.ticks
      && (r.Returned? ==>
            && r.value.number == number
            && r.value.Accepted()
            && TradedExactly(r.value)
            && (!lenient ==> r.value.status.CycleCompleted?))
  {
    hide MarketMonitor.PollRun, TradeRun, Conclude;
  }

  /**
   On any clock, a numbered cycle raises exactly when polling or trading raised, or the
   cycle seemed to end before it began, and this cannot be recorded: operation is strict,
   the text is blank, or the failure seems to come before the beginning too.
   */
  lemma CycleRaisesOnAnyClock<S, P, D>(
    cfg: Config<S, P, D>, codes: seq<string>, lenient: bool, w: World<S, D>, number: int)
    requires number > 0
    ensures
      var at := cfg.now(w.ticks);
      var tried, r := Attempt(cfg, codes, lenient, Tick(w), at).1, RunCycle(cfg, codes, lenient, w, number).1;
      && (r.Raised? <==>
          if tried.Raised? then !lenient || Blank(tried.fault) || cfg.now(w.ticks + 1) < at
          else cfg.now(w.ticks + 1) < at && (!lenient || cfg.now(w.ticks + 2) < at))
      && (r.Raised? ==> r.fault == if tried.Raised? && !lenient then tried.fault else BAD_CYCLE)
  {
    hide Attempt, Blank, RecordFailure, RunCycle;
    var at := cfg.now(w.ticks);
    var attempted := Attempt(cfg, codes, lenient, Tick(w), at);
    AttemptTicks(cfg, codes, lenient, Tick(w), at);
    RunCycleUnfolds(cfg, codes, lenient, w, number);
    if attempted.1.Raised? {
      FailureRaises(cfg, lenient, attempted.0, number, at, attempted.1.fault);
    } else {
      assert !Blank(BAD_CYCLE) by {
        NotBlank(BAD_CYCLE);
      }
      FailureRaises(cfg, lenient, Tick(attempted.0), number, at, BAD_CYCLE);
    }
  }

  lemma RunCycleUnfolds<S, P, D>(
    cfg: Config<S, P, D>, codes: seq<string>, lenient: bool, w: World<S, D>, number: int)
    requires number > 0
    ensures
      var at := cfg.now(w.ticks);
      var attempted, r := Attempt(cfg, codes, lenient, Tick(w), at), RunCycle(cfg, codes, lenient, w, number);
      if attempted.1.Raised? then r == RecordFailure(cfg, lenient, attempted.0, number, at, attempted.1.fault)
      else if cfg.now(attempted.0.ticks) < at then
        r == RecordFailure(cfg, lenient, Tick(attempted.0), number, at, BAD_CYCLE)
      else r.1.Returned?
  {
    hide Attempt, RecordFailure;
  }

  lemma FailureRaises<S, P, D>(
    cfg: Config<S, P, D>, lenient: bool, w: World<S, D>, number: int, startedAt: int, error: string)
    requires number > 0
    ensures RecordFailure(cfg, lenient, w, number, startedAt, error).1.Raised? <==>
            !lenient || Blank(error) || cfg.now(w.ticks) < startedAt
    ensures
      var r := RecordFailure(cfg, lenient, w, number, startedAt, error).1;
      r.Raised? ==> r.fault == if lenient then BAD_CYCLE else error
  {
    hide Blank;
  }

  /**
   With a clock that never runs backwards, a numbered cycle raises exactly when
   its polling or trading raised and operation is strict or the message is blank.
   */
  lemma CycleRaisesExactly<S, P, D>(
    cfg: Config<S, P, D>, codes: seq<string>, lenient: bool, w: World<S, D>, number: int)
    requires Monotone(cfg.now) && number > 0
    ensures
      var tried := Attempt(cfg, codes, lenient, Tick(w), cfg.now(w.ticks)).1;
      RunCycle(cfg, codes, lenient, w, number).1.Raised? <==> tried.Raised? && (!lenient || Blank(tried.fault))
  {
    CycleRaisesOnAnyClock(cfg, codes, lenient, w, number);
    assert cfg.now(w.ticks) <= cfg.now(w.ticks + 1);
    hide RunCycle, Attempt;
  }

  /**
   What a recorded cycle reports: it runs from the reading at its start to the last one it
   makes, and carries the poll's and the trading's results, or the text of what was raised.
   */
  lemma CycleReports<S, P, D>(cfg: Config<S, P, D>, codes: seq<string>, lenient: bool, w: World<S, D>, number: int)
    requires RunCycle(cfg, codes, lenient, w, number).1.Returned?
    ensures
      var (w', r) := RunCycle(cfg, codes, lenient, w, number);
      var at := cfg.now(w.ticks);
      var tried := Attempt(cfg, codes, lenient, Tick(w), at).1;
      && r.value.startedAt == at && w'.ticks > w.ticks && r.value.completedAt == cfg.now(w'.ticks - 1)
      && (r.value.status.CycleCompleted? <==> r.value.error.None?)
      && (r.value.status.CycleCompleted? ==>
            tried.Returned? && r.value.market == Some(tried.value.0) && r.value.paper == tried.value.1)
      && (r.value.status.CycleFailed? ==>
            && lenient && r.value.market.None? && r.value.paper.None?
            && r.value.error == Some(if tried.Raised? then tried.fault else BAD_CYCLE))
  {
    AttemptTicks(cfg, codes, lenient, Tick(w), cfg.now(w.ticks));
    hide Attempt;
  }

  /** What the guarded part of a cycle comes to: the poll's result, and that of trading on the bars the poll brought. */
  lemma AttemptReports<S, P, D>(cfg: Config<S, P, D>, codes: seq<string>, lenient: bool, w: World<S, D>, at: int)
    requires Attempt(cfg, codes, lenient, w, at).1.Returned?
    ensures
      var tried := Attempt(cfg, codes, lenient, w, at).1.value;
      var polled := MarketMonitor.PollRun(cfg.setup, w.stored, codes, at, cfg.market(w.ticks)).1;
      && polled == Returned(tried.0)
      && (tried.1.Some? <==> tried.0.newBars != [])
      && (tried.1.Some? ==>
            var x := TradeRun(cfg.strategy, cfg.ops, lenient, w.cells, w.desk, tried.0.newBars);
            CallOutcome(1, x, lenient) == Returned(tried.1.value))
  {
    PollDecides(cfg.setup, w.stored, codes, at, cfg.market(w.ticks));
    hide MarketMonitor.PollRun, TradeRun, Conclude;
  }

  lemma AttemptTicks<S, P, D>(cfg: Config<S, P, D>, codes: seq<string>, lenient: bool, w: World<S, D>, at: int)
    ensures Attempt(cfg, codes, lenient, w, at).0.ticks == w.ticks
  {
    hide MarketMonitor.PollRun, TradeRun, Conclude;
  }

  // ---- The loop ----

  ghost predicate Recorded<P>(cycles: seq<CycleResult<P>>, lenient: bool) {
    forall i :: 0 <= i < |cycles| ==>
      && cycles[i].number == i + 1
      && cycles[i].Accepted()
      && TradedExactly(cycles[i])
      && (!lenient ==> cycles[i].status.CycleCompleted?)
  }

  /** How the loop can end, `sleeps` being the pauses made. */
  ghost predicate EndsWell(maxCycles: Option<int>, reason: StopReason, n: nat, sleeps: int) {
    && !reason.StoppedByError?
    && (maxCycles.None? ==> reason.StopRequested?)
    && (maxCycles.Some? ==> n <= maxCycles.value && (reason.MaxCyclesReached? <==> n == maxCycles.value))
    && (reason.MaxCyclesReached? ==> sleeps == n - 1)
    && (reason.StopRequested? ==> sleeps == n || sleeps == n - 1)
  }

  lemma RoundShape<S, P, D>(
    cfg: Config<S, P, D>, codes: seq<string>, lenient: bool, maxCycles: Option<int>, w: World<S, D>,
    cycles: seq<CycleResult<P>>)
    requires Recorded(cycles, lenient) && !Full(maxCycles, |cycles|)
    ensures
      var r := OneRound(cfg, codes, lenient, maxCycles, w, cycles);
      && w.ticks <= r.world.ticks
      && Recorded(r.cycles, lenient)
      && (r.over.None? ==> r.world.sleeps == w.sleeps + 1)
      && (r.over.Some? && r.over.value.Returned? ==>
            && r.over.value.value.1 == r.cycles
            && EndsWell(maxCycles, r.over.value.value.0, |r.cycles|, r.world.sleeps - w.sleeps + |cycles|))
  {
    hide RunCycle;
    CycleReturns(cfg, codes, lenient, w.(asked := w.asked + 1), |cycles| + 1);
  }

  lemma {:induction false} LoopShape<S, P, D>(
    cfg: Config<S, P, D>, codes: seq<string>, lenient: bool, maxCycles: Option<int>, w: World<S, D>,
    cycles: seq<CycleResult<P>>, horizon: nat)
    requires Ends(cfg, maxCycles, w.asked, horizon)
    requires Recorded(cycles, lenient) && !Full(maxCycles, |cycles|)
    ensures
      var (w', looped) := Loop(cfg, codes, lenient, maxCycles, w, cycles, horizon);
      && w.ticks <= w'.ticks
      && (looped.Returned? ==>
            && Recorded(looped.value.1, lenient)
            && EndsWell(maxCycles, looped.value.0, |looped.value.1|, w'.sleeps - w.sleeps + |cycles|))
    decreases if maxCycles.Some? then maxCycles.value - |cycles| else horizon + 1 - w.asked
  {
    hide OneRound;
    RoundShape(cfg, codes, lenient, maxCycles, w, cycles);
    var r := OneRound(cfg, codes, lenient, maxCycles, w, cycles);
    if r.over.Some? {
    } else {
      LoopShape(cfg, codes, lenient, maxCycles, r.world, r.cycles, horizon);
    }
  }

  /**
   A run that returns has at most the allowed cycles, numbered from 1; it reached
   the maximum exactly when that many cycles ran, with one pause fewer; it never
   reports an error stop; and every recorded cycle traded exactly when its poll
   saved bars.
   */
  lemma RunShape<S, P, D>(
    cfg: Config<S, P, D>, codes: seq<string>, lenient: bool, pollInterval: int, maxCycles: Option<int>,
    w: World<S, D>, horizon: nat)
    requires Ends(cfg, maxCycles, w.asked, horizon)
    ensures
      var (w', r) := LiveRun(cfg, codes, lenient, pollInterval, maxCycles, w, horizon);
      r.Returned? ==>
        && r.value.Accepted()
        && r.value.startedAt == cfg.now(w.ticks)
        && w'.ticks > w.ticks && r.value.completedAt == cfg.now(w'.ticks - 1)
        && Recorded(r.value.cycles, lenient)
        && EndsWell(maxCycles, r.value.reason, |r.value.cycles|, w'.sleeps - w.sleeps)
  {
    hide Loop;
    if maxCycles.None? || maxCycles.value > 0 {
      LoopShape(cfg, codes, lenient, maxCycles, Tick(w), [], horizon);
      var looped := Loop(cfg, codes, lenient, maxCycles, Tick(w), [], horizon).1;
      assert looped.Returned? ==> Recorded(looped.value.1, lenient);
    }
  }

  // ---- The whole run keeps the pipeline invariant ----

  lemma {:induction false} LoopKeepsAhead<S, P, D>(
    cfg: Config<S, P, D>, codes: seq<string>, lenient: bool, maxCycles: Option<int>, w: World<S, D>,
    cycles: seq<CycleResult<P>>, horizon: nat)
    requires Ends(cfg, maxCycles, w.asked, horizon) && Ahead(w)
    ensures Ahead(Loop(cfg, codes, lenient, maxCycles, w, cycles, horizon).0)
    decreases if maxCycles.Some? then maxCycles.value - |cycles| else horizon + 1 - w.asked
  {
    hide OneRound, Ahead, Ends;
    RoundKeepsAhead(cfg, codes, lenient, maxCycles, w, cycles);
    RoundAdvances(cfg, codes, lenient, maxCycles, w, cycles, horizon);
    var r := OneRound(cfg, codes, lenient, maxCycles, w, cycles);
    if r.over.Some? {
    } else {
      LoopKeepsAhead(cfg, codes, lenient, maxCycles, r.world, r.cycles, horizon);
    }
  }

  lemma RoundKeepsAhead<S, P, D>(
    cfg: Config<S, P, D>, codes: seq<string>, lenient: bool, maxCycles: Option<int>, w: World<S, D>,
    cycles: seq<CycleResult<P>>)
    requires Ahead(w)
    ensures Ahead(OneRound(cfg, codes, lenient, maxCycles, w, cycles).world)
  {
    hide RunCycle;
    CycleKeepsAhead(cfg, codes, lenient, w.(asked := w.asked + 1), |cycles| + 1);
  }

  /** However a run ends, returning or raising, no history holds an opening time twice. */
  lemma RunDeliversAtMostOnce<S, P, D>(
    cfg: Config<S, P, D>, codes: seq<string>, lenient: bool, pollInterval: int, maxCycles: Option<int>,
    w: World<S, D>, horizon: nat, c: string)
    requires Ends(cfg, maxCycles, w.asked, horizon) && Ahead(w)
    ensures
      var bars := CellOf(LiveRun(cfg, codes, lenient, pollInterval, maxCycles, w, horizon).0.cells, c).bars;
      forall j, k :: 0 <= j < k < |bars| ==> bars[j].openedAt < bars[k].openedAt
  {
    hide Loop;
    LoopKeepsAhead(cfg, codes, lenient, maxCycles, Tick(w), [], horizon);
    var w' := LiveRun(cfg, codes, lenient, pollInterval, maxCycles, w, horizon).0;
    var bars := CellOf(w'.cells, c).bars;
    assert Behind(w'.stored, CellOf(w'.cells, c), c);
    forall j, k | 0 <= j < k < |bars|
      ensures bars[j].openedAt < bars[k].openedAt
    {
    }
  }
}
