/** A live run as a sequence of cycles: what holds of every such sequence holds of the run. */
module LiveRunTrace {
  import opened Wrappers
  import opened Text
  import opened Clocks
  import opened MarketBars
  import Market = MarketMonitor
  import Monitoring = MarketMonitorTheorems
  import opened SignalEngine
  import opened PaperTrading
  import opened LiveOrchestrator
  import opened LivePipelineTheorems
  import opened LiveOrchestratorTheorems
  import opened LiveDelivery

  /** The same store, engine and desk. */
  ghost predicate SamePlace<S, D>(a: World<S, D>, b: World<S, D>) {
    a.stored == b.stored && a.cells == b.cells && a.desk == b.desk
  }

  ghost function CycleOutcome<S, P, D>(cfg: Config<S, P, D>, w: World<S, D>, input: CycleInput)
    : Outcome<CycleResult<P>, string>
  {
    RunCycle(cfg, input.codes, input.lenient, Facing(w, input), input.number).1
  }

  ghost predicate Raises<S, P, D>(cfg: Config<S, P, D>, w: World<S, D>, input: CycleInput) {
    CycleOutcome(cfg, w, input).Raised?
  }

  /** From the `count`-th on, the results are those of the cycles, in order. */
  ghost predicate Collected<S, P, D>(
    cfg: Config<S, P, D>, worlds: seq<World<S, D>>, inputs: seq<CycleInput>, results: seq<CycleResult<P>>, count: nat)
    requires |worlds| == |inputs| + 1
  {
    && |results| == count + |inputs|
    && forall i :: 0 <= i < |inputs| ==> CycleOutcome(cfg, worlds[i], inputs[i]) == Returned(results[count + i])
  }

  /** The cycles of a loop that has run `count` cycles before: its codes, numbered on. */
  ghost predicate Numbered(inputs: seq<CycleInput>, codes: seq<string>, lenient: bool, count: nat) {
    forall i :: 0 <= i < |inputs| ==>
      inputs[i].codes == codes && inputs[i].lenient == lenient && inputs[i].number == count + 1 + i
  }

  /** No cycle but the last raises, and the last does if and only if the loop does, with the same text. */
  ghost predicate RaisesLast<S, P, D>(
    cfg: Config<S, P, D>, worlds: seq<World<S, D>>, inputs: seq<CycleInput>, looped: Looped<P>)
    requires |worlds| == |inputs| + 1
  {
    && (looped.Raised? ==>
          inputs != [] && CycleOutcome(cfg, worlds[|inputs| - 1], inputs[|inputs| - 1]) == Raised(looped.fault))
    && forall i :: 0 <= i < |inputs| ==> (Raises(cfg, worlds[i], inputs[i]) <==> looped.Raised? && i == |inputs| - 1)
  }

  /** One pass of the loop runs one cycle, or stops before it. */
  lemma RoundRuns<S, P, D>(
    cfg: Config<S, P, D>, codes: seq<string>, lenient: bool, maxCycles: Option<int>, w: World<S, D>,
    cycles: seq<CycleResult<P>>)
    returns (ran: bool, input: CycleInput)
    ensures input.codes == codes && input.lenient == lenient && input.number == |cycles| + 1
    ensures
      var r := OneRound(cfg, codes, lenient, maxCycles, w, cycles);
      && (r.over.None? ==> ran && !Raises(cfg, w, input))
      && (ran ==> SamePlace(r.world, Next(cfg, w, input)))
      && (!ran ==> SamePlace(r.world, w))
      && (r.over.Some? ==> (r.over.value.Raised? <==> ran && Raises(cfg, w, input)))
      && (r.over.Some? && r.over.value.Raised? ==> CycleOutcome(cfg, w, input) == Raised(r.over.value.fault))
      && (r.over.Some? && r.over.value.Returned? ==> r.over.value.value.1 == r.cycles)
      && (ran && !Raises(cfg, w, input) ==> r.cycles == cycles + [CycleOutcome(cfg, w, input).value])
      && (!ran ==> r.cycles == cycles)
  {
    hide RunCycle;
    ran := !cfg.stop(w.asked) && !Full(maxCycles, |cycles|);
    input := CycleInput(codes, lenient, |cycles| + 1, w.ticks, w.asked + 1, w.sleeps);
    assert Facing(w, input) == w.(asked := w.asked + 1);
  }

  /** The cycles of a loop that ends as `looped` after `count` cycles before. */
  ghost predicate Traces<S, P, D>(
    cfg: Config<S, P, D>, codes: seq<string>, lenient: bool, worlds: seq<World<S, D>>, inputs: seq<CycleInput>,
    count: nat, end: World<S, D>, looped: Looped<P>)
  {
    && Trace(cfg, worlds, inputs) && Numbered(inputs, codes, lenient, count)
    && SamePlace(worlds[|inputs|], end) && RaisesLast(cfg, worlds, inputs, looped)
    && (looped.Returned? ==> Collected(cfg, worlds, inputs, looped.value.1, count))
  }

  lemma NothingTraced<S, P, D>(
    cfg: Config<S, P, D>, codes: seq<string>, lenient: bool, w: World<S, D>, count: nat, end: World<S, D>,
    looped: Looped<P>)
    requires SamePlace(end, w) && looped.Returned? && |looped.value.1| == count
    ensures Traces(cfg, codes, lenient, [w], [], count, end, looped)
  {
  }

  lemma OneTraced<S, P, D>(
    cfg: Config<S, P, D>, w: World<S, D>, input: CycleInput, count: nat, end: World<S, D>, looped: Looped<P>)
    requires SamePlace(end, Next(cfg, w, input)) && input.number == count + 1
    requires
      if looped.Raised? then CycleOutcome(cfg, w, input) == Raised(looped.fault)
      else |looped.value.1| == count + 1 && CycleOutcome(cfg, w, input) == Returned(looped.value.1[count])
    ensures Traces(cfg, input.codes, input.lenient, [w, Next(cfg, w, input)], [input], count, end, looped)
  {
    hide CycleOutcome, Next;
  }

  lemma MoreTraced<S, P, D>(
    cfg: Config<S, P, D>, w: World<S, D>, input: CycleInput, rest: seq<World<S, D>>, later: seq<CycleInput>,
    count: nat, end: World<S, D>, looped: Looped<P>)
    requires Traces(cfg, input.codes, input.lenient, rest, later, count + 1, end, looped)
    requires SamePlace(rest[0], Next(cfg, w, input)) && input.number == count + 1
    requires !Raises(cfg, w, input)
    requires looped.Returned? ==>
               count < |looped.value.1| && CycleOutcome(cfg, w, input) == Returned(looped.value.1[count])
    ensures Traces(cfg, input.codes, input.lenient, InFront(w, Next(cfg, w, input), rest), [input] + later, count, end,
                   looped)
  {
    hide CycleOutcome, Next, InFront;
    Prepend(cfg, w, input, rest, later);
    RaisesPrepended(cfg, w, input, rest, later, looped);
    if looped.Returned? {
      CollectedPrepended(cfg, w, input, rest, later, looped.value.1, count);
    }
    hide Trace, RaisesLast, Collected;
    var worlds := InFront(w, Next(cfg, w, input), rest);
    assert |worlds| == |later| + 2 && SamePlace(worlds[|later| + 1], rest[|later|]);
  }

  lemma {:induction false} LoopRuns<S, P, D>(
    cfg: Config<S, P, D>, codes: seq<string>, lenient: bool, maxCycles: Option<int>, w: World<S, D>,
    cycles: seq<CycleResult<P>>, horizon: nat)
    returns (worlds: seq<World<S, D>>, inputs: seq<CycleInput>)
    requires Ends(cfg, maxCycles, w.asked, horizon)
    ensures
      var (end, looped) := Loop(cfg, codes, lenient, maxCycles, w, cycles, horizon);
      && worlds != [] && worlds[0] == w && Traces(cfg, codes, lenient, worlds, inputs, |cycles|, end, looped)
      && (looped.Returned? ==> cycles <= looped.value.1)
    decreases if maxCycles.Some? then maxCycles.value - |cycles| else horizon + 1 - w.asked
  {
    var ran, input := RoundRuns(cfg, codes, lenient, maxCycles, w, cycles);
    hide OneRound, RunCycle, CycleOutcome, Next, Traces, InFront;
    var r := OneRound(cfg, codes, lenient, maxCycles, w, cycles);
    var (end, looped) := Loop(cfg, codes, lenient, maxCycles, w, cycles, horizon);
    if r.over.None? {
      var rest, later := LoopRuns(cfg, codes, lenient, maxCycles, r.world, r.cycles, horizon);
      worlds, inputs := InFront(w, Next(cfg, w, input), rest), [input] + later;
      MoreTraced(cfg, w, input, rest, later, |cycles|, end, looped);
    } else if ran {
      worlds, inputs := [w, Next(cfg, w, input)], [input];
      OneTraced(cfg, w, input, |cycles|, end, looped);
    } else {
      worlds, inputs := [w], [];
      NothingTraced(cfg, codes, lenient, w, |cycles|, end, looped);
    }
  }

  /** A world put in front, `next` in the place of the first one. */
  ghost function InFront<S, D>(w: World<S, D>, next: World<S, D>, rest: seq<World<S, D>>): (worlds: seq<World<S, D>>)
    requires rest != [] && SamePlace(rest[0], next)
    ensures |worlds| == |rest| + 1 && worlds[0] == w && worlds[1] == next
    ensures forall i :: 0 <= i < |rest| ==> SamePlace(worlds[i + 1], rest[i]) && (i > 0 ==> worlds[i + 1] == rest[i])
  {
    [w, next] + rest[1..]
  }

  /** A cycle in front of a trace that starts where the cycle leads. */
  lemma Prepend<S, P, D>(
    cfg: Config<S, P, D>, w: World<S, D>, input: CycleInput, rest: seq<World<S, D>>, later: seq<CycleInput>)
    requires Trace(cfg, rest, later) && SamePlace(rest[0], Next(cfg, w, input))
    ensures Trace(cfg, InFront(w, Next(cfg, w, input), rest), [input] + later)
  {
    hide Next, InFront, SamePlace;
    var worlds, inputs := InFront(w, Next(cfg, w, input), rest), [input] + later;
    forall i | 0 <= i < |inputs|
      ensures worlds[i + 1] == Next(cfg, worlds[i], inputs[i])
    {
      if i > 0 {
        assert inputs[i] == later[i - 1] && rest[i] == Next(cfg, rest[i - 1], later[i - 1]);
        SameNext(cfg, worlds[i], rest[i - 1], later[i - 1]);
      }
    }
  }

  lemma SameNext<S, P, D>(cfg: Config<S, P, D>, a: World<S, D>, b: World<S, D>, input: CycleInput)
    requires SamePlace(a, b)
    ensures Next(cfg, a, input) == Next(cfg, b, input)
    ensures CycleOutcome(cfg, a, input) == CycleOutcome(cfg, b, input)
    ensures Raises(cfg, a, input) <==> Raises(cfg, b, input)
    ensures FedAll(cfg, a, input) <==> FedAll(cfg, b, input)
  {
    assert Facing(a, input) == Facing(b, input);
  }

  lemma RaisesPrepended<S, P, D>(
    cfg: Config<S, P, D>, w: World<S, D>, input: CycleInput, rest: seq<World<S, D>>, later: seq<CycleInput>,
    looped: Looped<P>)
    requires |rest| == |later| + 1 && SamePlace(rest[0], Next(cfg, w, input))
    requires !Raises(cfg, w, input) && RaisesLast(cfg, rest, later, looped)
    ensures RaisesLast(cfg, InFront(w, Next(cfg, w, input), rest), [input] + later, looped)
  {
    hide CycleOutcome, Next, InFront, SamePlace;
    var worlds, inputs := InFront(w, Next(cfg, w, input), rest), [input] + later;
    forall i | 0 <= i < |inputs|
      ensures Raises(cfg, worlds[i], inputs[i]) <==> looped.Raised? && i == |inputs| - 1
    {
      if i > 0 {
        assert inputs[i] == later[i - 1];
        SameNext(cfg, worlds[i], rest[i - 1], later[i - 1]);
        assert Raises(cfg, rest[i - 1], later[i - 1]) <==> looped.Raised? && i - 1 == |later| - 1;
      }
    }
    if looped.Raised? {
      var n := |later|;
      assert inputs[n] == later[n - 1];
      SameNext(cfg, worlds[n], rest[n - 1], later[n - 1]);
    }
  }

  lemma CollectedPrepended<S, P, D>(
    cfg: Config<S, P, D>, w: World<S, D>, input: CycleInput, rest: seq<World<S, D>>, later: seq<CycleInput>,
    results: seq<CycleResult<P>>, count: nat)
    requires |rest| == |later| + 1 && SamePlace(rest[0], Next(cfg, w, input))
    requires Collected(cfg, rest, later, results, count + 1)
    requires CycleOutcome(cfg, w, input) == Returned(results[count])
    ensures Collected(cfg, InFront(w, Next(cfg, w, input), rest), [input] + later, results, count)
  {
    hide CycleOutcome, Next, InFront, SamePlace;
    var worlds, inputs := InFront(w, Next(cfg, w, input), rest), [input] + later;
    forall i | 0 <= i < |inputs|
      ensures CycleOutcome(cfg, worlds[i], inputs[i]) == Returned(results[count + i])
    {
      if i > 0 {
        assert inputs[i] == later[i - 1];
        SameNext(cfg, worlds[i], rest[i - 1], later[i - 1]);
        assert CycleOutcome(cfg, rest[i - 1], later[i - 1]) == Returned(results[count + 1 + (i - 1)]);
      }
    }
  }

  ghost predicate BadArguments(codes: seq<string>, pollInterval: int, maxCycles: Option<int>) {
    pollInterval < 0 || (maxCycles.Some? && maxCycles.value <= 0) || codes == []
  }

  /** A run is a sequence of cycles numbered from 1, which ends where the run ends. */
  lemma RunIsTrace<S, P, D>(
    cfg: Config<S, P, D>, codes: seq<string>, lenient: bool, pollInterval: int, maxCycles: Option<int>,
    w: World<S, D>, horizon: nat)
    returns (worlds: seq<World<S, D>>, inputs: seq<CycleInput>)
    requires Ends(cfg, maxCycles, w.asked, horizon)
    ensures Trace(cfg, worlds, inputs) && SamePlace(worlds[0], w) && Numbered(inputs, codes, lenient, 0)
    ensures SamePlace(worlds[|inputs|], LiveRun(cfg, codes, lenient, pollInterval, maxCycles, w, horizon).0)
    ensures
      if BadArguments(codes, pollInterval, maxCycles) then inputs == []
      else RaisesLast(cfg, worlds, inputs, Loop(cfg, codes, lenient, maxCycles, Tick(w), [], horizon).1)
    ensures
      var r := LiveRun(cfg, codes, lenient, pollInterval, maxCycles, w, horizon).1;
      if BadArguments(codes, pollInterval, maxCycles) then
        r == Raised(if pollInterval < 0 then BAD_INTERVAL
                    else if maxCycles.Some? && maxCycles.value <= 0 then BAD_MAXIMUM else NO_CODES)
      else
        var looped := Loop(cfg, codes, lenient, maxCycles, Tick(w), [], horizon).1;
        && (looped.Raised? ==> r == Raised(looped.fault))
        && (looped.Returned? && r.Raised? ==> r.fault == BAD_RUN)
    ensures
      var r := LiveRun(cfg, codes, lenient, pollInterval, maxCycles, w, horizon).1;
      r.Returned? ==> Collected(cfg, worlds, inputs, r.value.cycles, 0)
  {
    hide Loop, Next, RaisesLast, Collected;
    if BadArguments(codes, pollInterval, maxCycles) {
      worlds, inputs := [w], [];
    } else {
      worlds, inputs := LoopRuns(cfg, codes, lenient, maxCycles, Tick(w), [], horizon);
    }
  }

  /**
   However a run ends, its histories have gained only bars it stored, in order and
   with their quotes, and all of them exactly when every cycle fed all its bars.
   */
  lemma RunDeliversExactly<S, P, D>(
    cfg: Config<S, P, D>, codes: seq<string>, lenient: bool, pollInterval: int, maxCycles: Option<int>,
    w: World<S, D>, horizon: nat)
    returns (worlds: seq<World<S, D>>, inputs: seq<CycleInput>)
    requires Ends(cfg, maxCycles, w.asked, horizon) && Ahead(w)
    ensures Trace(cfg, worlds, inputs) && SamePlace(worlds[0], w) && Numbered(inputs, codes, lenient, 0)
    ensures
      var end := LiveRun(cfg, codes, lenient, pollInterval, maxCycles, w, horizon).0;
      && SamePlace(worlds[|inputs|], end)
      && Faithful(w, end)
      && (Complete(w, end) <==> forall j :: 0 <= j < |inputs| ==> FedAll(cfg, worlds[j], inputs[j]))
  {
    worlds, inputs := RunIsTrace(cfg, codes, lenient, pollInterval, maxCycles, w, horizon);
    hide LiveRun, Trace, FedAll;
    assert Ahead(worlds[0]);
    DeliveredExactly(cfg, worlds, inputs, |inputs|);
    SameDelivery(worlds[0], w, worlds[|inputs|],
                 LiveRun(cfg, codes, lenient, pollInterval, maxCycles, w, horizon).0);
  }

  lemma SameDelivery<S, D>(a: World<S, D>, b: World<S, D>, x: World<S, D>, y: World<S, D>)
    requires SamePlace(a, b) && SamePlace(x, y)
    ensures Faithful(a, x) ==> Faithful(b, y)
    ensures Complete(a, x) <==> Complete(b, y)
  {
    hide NewlyStored;
    forall c
      ensures Gained(a, x, c) == Gained(b, y, c)
    {
    }
    hide Gained;
  }

  // ---- When a lenient run raises ----

  /** In trading hours, the first watched code without a proper answer gets an exception without a text. */
  ghost predicate Silent(cfg: Market.Setup, codes: seq<string>, at: int, provider: Market.Provider) {
    && Market.NormalizeCodes(codes).Returned?
    && Monitoring.TradingHours(cfg.tradingDay, at)
    && exists i :: SilentAt(Market.NormalizeCodes(codes).value, at, provider, i)
  }

  ghost predicate SilentAt(codes: seq<string>, at: int, provider: Market.Provider, i: int) {
    && 0 <= i < |codes|
    && (forall j :: 0 <= j < i ==> Monitoring.Answers(codes[j], at, provider))
    && provider(codes[i], at / Market.DAY).Raised? && Blank(provider(codes[i], at / Market.DAY).fault)
  }

  lemma FixedTextsSpeak()
    ensures !Blank(Market.WRONG_CODE) && !Blank(Market.NO_CODES) && !Blank(Market.BAD_CODE) && !Blank(NO_MESSAGE)
  {
    NotBlank(Market.WRONG_CODE);
    NotBlank(Market.NO_CODES);
    NotBlank(Market.BAD_CODE);
    NotBlank(NO_MESSAGE);
  }

  lemma {:induction false} CollectFault(
    prices: seq<StockPrice>, code: string, observedAt: int, latest: Option<int>, interval: int)
    ensures
      var r := Market.Collect(prices, code, observedAt, latest, interval);
      r.Raised? ==> r.fault == Market.WRONG_CODE
  {
    if prices == [] {
    } else {
      CollectFault(prices[..|prices| - 1], code, observedAt, latest, interval);
    }
  }

  lemma {:induction false} NormalizeFault(codes: seq<string>)
    ensures Market.NormalizeList(codes).Raised? ==> Market.NormalizeList(codes).fault == Market.BAD_CODE
  {
    if codes == [] {
    } else {
      NormalizeFault(codes[..|codes| - 1]);
    }
  }

  /** Fetching the codes breaks off without a text exactly when the first bad answer is an exception without one. */
  lemma {:induction false} GatherSilent(
    cfg: Market.Setup, stored: Market.Stored, codes: seq<string>, session: Market.Session, provider: Market.Provider)
    requires session.tradingDate == session.observedAt / Market.DAY
    ensures
      var r := Market.Gather(stored, cfg.interval, codes, session, provider);
      r.Raised? && Blank(r.fault) <==> exists i :: SilentAt(codes, session.observedAt, provider, i)
  {
    if codes == [] {
    } else {
      var n := |codes| - 1;
      var init, at := codes[..n], session.observedAt;
      GatherSilent(cfg, stored, init, session, provider);
      Monitoring.GatherReturns(cfg, stored, init, session, provider);
      FetchSilent(cfg, stored, codes[n], session, provider);
      SilentLast(codes, at, provider);
      SilentOneMore(codes, at, provider);
      hide Blank, Market.Fetch, Monitoring.Answers, SilentAt;
    }
  }

  lemma SilentLast(codes: seq<string>, at: int, provider: Market.Provider)
    requires codes != []
    ensures
      var n := |codes| - 1;
      var answer := provider(codes[n], at / Market.DAY);
      SilentAt(codes, at, provider, n) <==>
      (forall c :: c in codes[..n] ==> Monitoring.Answers(c, at, provider)) && answer.Raised? && Blank(answer.fault)
  {
    hide Blank, Monitoring.Answers;
    var init := codes[..|codes| - 1];
    assert forall j :: 0 <= j < |init| ==> codes[j] == init[j];
    assert forall c :: c in init ==> exists j :: 0 <= j < |init| && init[j] == c;
  }

  lemma SilentOneMore(codes: seq<string>, at: int, provider: Market.Provider)
    requires codes != []
    ensures
      var n := |codes| - 1;
      (exists i :: SilentAt(codes, at, provider, i)) <==>
      (exists i :: SilentAt(codes[..n], at, provider, i)) || SilentAt(codes, at, provider, n)
  {
    hide Blank, Monitoring.Answers;
    var n := |codes| - 1;
    assert forall i :: 0 <= i < n ==> codes[..n][i] == codes[i];
    forall i | 0 <= i < n
      ensures SilentAt(codes[..n], at, provider, i) <==> SilentAt(codes, at, provider, i)
    {
    }
    if i :| SilentAt(codes, at, provider, i) {
      assert i == n || SilentAt(codes[..n], at, provider, i);
    }
    if i :| SilentAt(codes[..n], at, provider, i) {
      assert SilentAt(codes, at, provider, i);
    }
  }

  lemma FetchSilent(
    cfg: Market.Setup, stored: Market.Stored, code: string, session: Market.Session, provider: Market.Provider)
    requires session.tradingDate == session.observedAt / Market.DAY
    ensures
      var r, answer := Market.Fetch(stored, cfg.interval, code, session, provider), provider(code, session.tradingDate);
      && (r.Raised? && Blank(r.fault) <==> answer.Raised? && Blank(answer.fault))
      && (r.Returned? <==> Monitoring.Answers(code, session.observedAt, provider))
  {
    Monitoring.FetchMeaning(cfg, stored, code, session, provider);
    var answer := provider(code, session.tradingDate);
    if answer.Returned? {
      CollectFault(answer.value, code, session.observedAt, Market.Latest(stored, code), cfg.interval);
      FixedTextsSpeak();
    }
    hide Blank;
  }

  lemma PollSilent(
    cfg: Market.Setup, stored: Market.Stored, codes: seq<string>, at: int, provider: Market.Provider)
    ensures
      var r := Market.PollRun(cfg, stored, codes, at, provider).1;
      r.Raised? && Blank(r.fault) <==> Silent(cfg, codes, at, provider)
  {
    NormalizeFault(codes);
    FixedTextsSpeak();
    hide Blank, Market.Gather, SilentAt;
    if Market.NormalizeCodes(codes).Returned? {
      var session := Market.CreateSession(cfg.tradingDay, at);
      Monitoring.SessionMeaning(cfg.tradingDay, at);
      hide Market.CreateSession, Monitoring.TradingHours;
      GatherSilent(cfg, stored, Market.NormalizeCodes(codes).value, session, provider);
    }
  }

  /** In lenient operation only the poll can break a cycle off without a text: a failed trade has one of its own. */
  lemma AttemptSilent<S, P, D>(cfg: Config<S, P, D>, codes: seq<string>, w: World<S, D>, at: int)
    ensures
      var tried := Attempt(cfg, codes, true, w, at).1;
      tried.Raised? && Blank(tried.fault) <==> Silent(cfg.setup, codes, at, cfg.market(w.ticks))
  {
    FixedTextsSpeak();
    PollSilent(cfg.setup, w.stored, codes, at, cfg.market(w.ticks));
    hide Market.PollRun, TradeRun, Blank, Silent, Combine;
  }

  /** The poll of the cycle is silent. */
  ghost predicate SilentCycle<S, P, D>(cfg: Config<S, P, D>, input: CycleInput) {
    Silent(cfg.setup, input.codes, cfg.now(input.ticks), cfg.market(input.ticks + 1))
  }

  lemma LenientCycleRaisesExactly<S, P, D>(cfg: Config<S, P, D>, w: World<S, D>, input: CycleInput)
    requires Monotone(cfg.now) && input.lenient && input.number > 0
    ensures Raises(cfg, w, input) <==> SilentCycle(cfg, input)
  {
    hide RunCycle, Attempt, Silent, Blank;
    var met := Facing(w, input);
    CycleRaisesExactly(cfg, input.codes, true, met, input.number);
    AttemptSilent(cfg, input.codes, Tick(met), cfg.now(met.ticks));
  }

  lemma LoopEndsRun<S, P, D>(
    cfg: Config<S, P, D>, codes: seq<string>, lenient: bool, pollInterval: int, maxCycles: Option<int>,
    w: World<S, D>, horizon: nat)
    requires Ends(cfg, maxCycles, w.asked, horizon) && Monotone(cfg.now)
    ensures LiveRun(cfg, codes, lenient, pollInterval, maxCycles, w, horizon).1.Raised? <==>
            || BadArguments(codes, pollInterval, maxCycles)
            || Loop(cfg, codes, lenient, maxCycles, Tick(w), [], horizon).1.Raised?
  {
    hide Loop;
    if BadArguments(codes, pollInterval, maxCycles) {
      return;
    }
    LoopShape(cfg, codes, lenient, maxCycles, Tick(w), [], horizon);
    var w1 := Loop(cfg, codes, lenient, maxCycles, Tick(w), [], horizon).0;
    assert cfg.now(w.ticks) <= cfg.now(w1.ticks);
  }

  /**
   With errors recorded and a clock that never runs backwards, a run raises exactly
   when its arguments are bad or the poll of one of its cycles, then the last, gets
   an exception without a text; nothing the strategies or the desk do can raise it.
   */
  lemma LenientRunRaisesExactly<S, P, D>(
    cfg: Config<S, P, D>, codes: seq<string>, pollInterval: int, maxCycles: Option<int>, w: World<S, D>, horizon: nat)
    returns (worlds: seq<World<S, D>>, inputs: seq<CycleInput>)
    requires Ends(cfg, maxCycles, w.asked, horizon) && Monotone(cfg.now)
    ensures Trace(cfg, worlds, inputs) && SamePlace(worlds[0], w) && Numbered(inputs, codes, true, 0)
    ensures
      var (end, r) := LiveRun(cfg, codes, true, pollInterval, maxCycles, w, horizon);
      && SamePlace(worlds[|inputs|], end)
      && (r.Raised? <==>
            || BadArguments(codes, pollInterval, maxCycles)
            || exists i :: 0 <= i < |inputs| && SilentCycle(cfg, inputs[i]))
      && forall i :: 0 <= i < |inputs| - 1 ==> !SilentCycle(cfg, inputs[i])
  {
    hide Loop, LiveRun, Next, Raises, SilentCycle;
    worlds, inputs := RunIsTrace(cfg, codes, true, pollInterval, maxCycles, w, horizon);
    LoopEndsRun(cfg, codes, true, pollInterval, maxCycles, w, horizon);
    forall i | 0 <= i < |inputs|
      ensures Raises(cfg, worlds[i], inputs[i]) <==> SilentCycle(cfg, inputs[i])
    {
      LenientCycleRaisesExactly(cfg, worlds[i], inputs[i]);
    }
    if inputs != [] {
      var last := |inputs| - 1;
      assert Raises(cfg, worlds[last], inputs[last]) <==> SilentCycle(cfg, inputs[last]);
    }
  }

  /** The provider's exceptions have texts. */
  ghost predicate SpeaksUp<S, P, D>(cfg: Config<S, P, D>) {
    forall n, code, day ::
      var answer := cfg.market(n)(code, day);
      answer.Raised? ==> !Blank(answer.fault)
  }

  /** As long as the provider's exceptions have texts, a lenient run raises only for bad arguments. */
  lemma LenientRunReturns<S, P, D>(
    cfg: Config<S, P, D>, codes: seq<string>, pollInterval: int, maxCycles: Option<int>, w: World<S, D>, horizon: nat)
    requires Ends(cfg, maxCycles, w.asked, horizon) && Monotone(cfg.now) && SpeaksUp(cfg)
    ensures LiveRun(cfg, codes, true, pollInterval, maxCycles, w, horizon).1.Raised? <==>
            BadArguments(codes, pollInterval, maxCycles)
  {
    hide LiveRun, Blank;
    var worlds, inputs := LenientRunRaisesExactly(cfg, codes, pollInterval, maxCycles, w, horizon);
  }
}
