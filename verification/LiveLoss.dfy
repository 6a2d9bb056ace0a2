/** Bars and runs that are lost: a bar stored but missing from its history for good, and a run ended by an exception. */
module LiveLoss {
  import opened Wrappers
  import opened Text
  import opened Sorting
  import opened MarketBars
  import Market = MarketMonitor
  import Monitoring = MarketMonitorTheorems
  import opened MarketMonitorLosses
  import opened SignalEngine
  import opened SignalEngineTheorems
  import opened PaperTrading
  import opened PaperTradingTheorems
  import opened LiveOrchestrator
  import opened LivePipelineTheorems
  import opened LiveDelivery
  import opened LiveRunTrace

  lemma OneCycleMore<S, D>(w: World<S, D>, w': World<S, D>, bars: seq<StockPrice>, k: nat, c: string, t: int)
    requires Fed(w, w', bars, k) && Monitoring.Reached(w.stored, c, t) && !HasTime(CellOf(w.cells, c).bars, t)
    ensures Monitoring.Reached(w'.stored, c, t) && !HasTime(CellOf(w'.cells, c).bars, t)
  {
    hide CellOf, NormalizeCode, PriceLeq;
    assert w.stored.Keys <= w'.stored.Keys;
    ReachedGrows(w.stored, w'.stored, c, t);
    FedBarsAreStored(w.stored, w'.stored, bars, k, c);
  }

  /** A time that the watermark has passed without a bar in the history gets none, whatever cycles follow. */
  lemma {:induction false} MissedForGood<S, P, D>(
    cfg: Config<S, P, D>, worlds: seq<World<S, D>>, inputs: seq<CycleInput>, i: nat, c: string, t: int)
    requires Trace(cfg, worlds, inputs) && Ahead(worlds[0]) && i <= |inputs|
    requires Monitoring.Reached(worlds[0].stored, c, t) && !HasTime(CellOf(worlds[0].cells, c).bars, t)
    ensures Monitoring.Reached(worlds[i].stored, c, t) && !HasTime(CellOf(worlds[i].cells, c).bars, t)
  {
    hide Next, CycleBars, CycleFed, Fed, HasTime;
    if i == 0 {
    } else {
      var w, input := worlds[i - 1], inputs[i - 1];
      MissedForGood(cfg, worlds, inputs, i - 1, c, t);
      AlwaysAhead(cfg, worlds, inputs, i - 1);
      NextFeeds(cfg, w, input);
      OneCycleMore(w, Next(cfg, w, input), CycleBars(cfg, input.codes, Facing(w, input)),
                   CycleFed(cfg, input.codes, input.lenient, Facing(w, input)), c, t);
    }
  }

  // ---- A cycle that loses a bar ----

  /** A strategy that can never be created. */
  function Broken(): Strategy<int, int> {
    Strategy(code => Raised("no strategy"), (s, bars) => (s, Returned([])))
  }

  function IdleDesk(): Desk<int, int> {
    Desk((d, p) => (d, Returned(())), (d, s) => (d, Raised("no queue")), d => (d, Returned([])),
         (d, records) => (d, Returned([])))
  }

  const NINE: int := 540 * Market.MINUTE
  const FIVE_PAST: int := 545 * Market.MINUTE

  /** It is always ten o'clock on a trading day, and the market shows the bars of nine and of five past nine. */
  ghost predicate AlwaysTen(cfg: Config<int, int, int>) {
    && cfg.setup.interval == 5 * Market.MINUTE && cfg.setup.tradingDay(0)
    && cfg.strategy == Broken() && cfg.ops == IdleDesk()
    && forall n :: cfg.now(n) == TEN && cfg.market(n) == Showcase([NINE, FIVE_PAST])
  }

  ghost predicate Untouched(w: World<int, int>) {
    w.stored == map[] && w.cells == map[]
  }

  /** The first bar breaks the engine, so only that one is fed. */
  lemma OnlyTheFirstIsFed(x: Trade<int, int, int>, bars: seq<StockPrice>, c: string)
    requires x.error.None? && x.cells == map[] && |bars| == 2
    requires NormalizeCode(c) == Some(c) && bars[0].code == c
    ensures FedCount(Broken(), IdleDesk(), true, x, bars) == 1
  {
    var init := bars[..|bars| - 1];
    assert init == [bars[0]] && init[..0] == [];
    var p := bars[0];
    OneBar(Broken(), x.cells, p);
    assert FeedPrice(Broken(), Idle(x.cells), p).error.Some?;
    assert TradeAll(Broken(), IdleDesk(), true, x, init) == TradePrice(Broken(), IdleDesk(), true, x, p);
  }

  lemma NoneStored(c: string)
    ensures Market.Latest(map[], c) == None
  {
    assert Market.IsLatest(map[], c, Market.Latest(map[], c));
  }

  lemma TwoInOrder(setup: Market.Setup, c: string, poll: Monitoring.PollInput, bars: seq<StockPrice>)
    requires Monitoring.Watches(setup, poll, c) && Market.NormalizeCodes(poll.codes) == Outcome.Returned([c])
    requires Market.Latest(map[], c) == None
    requires forall t :: t in Showing(setup, poll, c) <==> t in [NINE, FIVE_PAST]
    requires StrictlyOrdered(bars, PriceLeq)
    requires forall p :: p in bars <==> Monitoring.Brings(setup, map[], [c], poll.observedAt, poll.provider, p)
    ensures |bars| == 2 && bars[0].code == bars[1].code == c && bars[0].time == NINE && bars[1].time == FIVE_PAST
  {
    var shown := Showing(setup, poll, c);
    var incoming := Monitoring.Incoming(setup, map[], c, poll.observedAt, poll.provider);
    assert incoming == shown;
    var a, b := shown[NINE], shown[FIVE_PAST];
    Monitoring.CompletedKeyed(poll.provider(c, poll.observedAt / Market.DAY).value, c, poll.observedAt, setup.interval);
    assert a.time == NINE && b.time == FIVE_PAST && a.code == b.code == c;
    SameElementsSameSequence(bars, [a, b], PriceLeq);
  }

  lemma TwoBars(setup: Market.Setup, c: string) returns (bars: seq<StockPrice>)
    requires NormalizeCode(c) == Some(c) && setup.interval == 5 * Market.MINUTE && setup.tradingDay(0)
    ensures bars == NewBars(setup, map[], [c], TEN, Showcase([NINE, FIVE_PAST]))
    ensures |bars| == 2 && bars[0].code == bars[1].code == c && bars[0].time == NINE && bars[1].time == FIVE_PAST
  {
    hide Market.PollRun, Showcase, NormalizeCode;
    var poll := AtTen(c, [NINE, FIVE_PAST]);
    bars := NewBars(setup, map[], [c], TEN, Showcase([NINE, FIVE_PAST]));
    AtTenShows(setup, c, [NINE, FIVE_PAST]);
    OneCode(c);
    Monitoring.PollSavesExactly(setup, map[], [c], TEN, Showcase([NINE, FIVE_PAST]));
    NoneStored(c);
    TwoInOrder(setup, c, poll, bars);
  }

  lemma OneCode(c: string)
    requires NormalizeCode(c) == Some(c)
    ensures Market.NormalizeCodes([c]) == Outcome.Returned([c])
  {
    var codes := [c];
    assert codes[..|codes| - 1] == [] && Market.NormalizeList([]) == Outcome.Returned([]) && [] + [c] == [c];
    assert Market.NormalizeList(codes) == Outcome.Returned([c]);
  }

  lemma FirstIsFedOnly(cfg: Config<int, int, int>, w: World<int, int>, input: CycleInput, c: string)
    returns (bars: seq<StockPrice>)
    requires AlwaysTen(cfg) && NormalizeCode(c) == Some(c)
    requires Untouched(w) && input.codes == [c] && input.lenient
    ensures bars == CycleBars(cfg, input.codes, Facing(w, input))
    ensures |bars| == 2 && bars[1].code == c && bars[1].time == FIVE_PAST
    ensures CycleFed(cfg, input.codes, input.lenient, Facing(w, input)) == 1
  {
    hide Market.PollRun, Showcase, NormalizeCode, Broken, IdleDesk;
    bars := TwoBars(cfg.setup, c);
    OnlyTheFirstIsFed(Entering(w.cells, w.desk), bars, c);
  }

  lemma FirstCycleLoses(cfg: Config<int, int, int>, w: World<int, int>, input: CycleInput, c: string)
    requires AlwaysTen(cfg) && NormalizeCode(c) == Some(c)
    requires Untouched(w) && input.codes == [c] && input.lenient
    ensures
      var after := Next(cfg, w, input);
      (c, FIVE_PAST) in after.stored && !HasTime(CellOf(after.cells, c).bars, FIVE_PAST)
    ensures !FedAll(cfg, w, input)
  {
    var bars := FirstIsFedOnly(cfg, w, input, c);
    UntouchedIsAhead(w);
    hide Next, CycleBars, CycleFed, Fed, AlwaysTen, HasTime, NormalizeCode, Ahead;
    NextFeeds(cfg, w, input);
    var b := UnfedIsStored(w, Next(cfg, w, input), bars, 1);
  }

  /**
   One cycle over two new bars, the first of which breaks the engine: the second
   is stored, and it is in no history after that cycle nor after any that follow.
   */
  lemma BrokenCycleLosesABar(
    cfg: Config<int, int, int>, c: string, worlds: seq<World<int, int>>, inputs: seq<CycleInput>, i: nat)
    requires AlwaysTen(cfg) && NormalizeCode(c) == Some(c)
    requires Trace(cfg, worlds, inputs) && 0 < i <= |inputs|
    requires Untouched(worlds[0]) && inputs[0].codes == [c] && inputs[0].lenient
    ensures (c, FIVE_PAST) in worlds[1].stored
    ensures !FedAll(cfg, worlds[0], inputs[0])
    ensures !HasTime(CellOf(worlds[i].cells, c).bars, FIVE_PAST)
  {
    FirstCycleLoses(cfg, worlds[0], inputs[0], c);
    UntouchedIsAhead(worlds[0]);
    hide Next, AlwaysTen, HasTime, Ahead, FedAll, NormalizeCode, Untouched;
    assert worlds[1] == Next(cfg, worlds[0], inputs[0]);
    LostSinceTheFirst(cfg, worlds, inputs, i, c, FIVE_PAST);
  }

  lemma UntouchedIsAhead(w: World<int, int>)
    requires Untouched(w)
    ensures Ahead(w)
  {
  }

  lemma LostSinceTheFirst<S, P, D>(
    cfg: Config<S, P, D>, worlds: seq<World<S, D>>, inputs: seq<CycleInput>, i: nat, c: string, t: int)
    requires Trace(cfg, worlds, inputs) && 0 < i <= |inputs| && Ahead(worlds[0])
    requires (c, t) in worlds[1].stored && !HasTime(CellOf(worlds[1].cells, c).bars, t)
    ensures !HasTime(CellOf(worlds[i].cells, c).bars, t)
  {
    hide Next, HasTime, Ahead, CellOf;
    StoredIsReached(worlds[1].stored, c, t);
    AlwaysAhead(cfg, worlds, inputs, 1);
    RestIsTrace(cfg, worlds, inputs);
    MissedForGood(cfg, worlds[1..], inputs[1..], i - 1, c, t);
  }

  lemma RestIsTrace<S, P, D>(cfg: Config<S, P, D>, worlds: seq<World<S, D>>, inputs: seq<CycleInput>)
    requires Trace(cfg, worlds, inputs) && inputs != []
    ensures Trace(cfg, worlds[1..], inputs[1..])
  {
    hide Next;
    forall i | 0 <= i < |inputs| - 1
      ensures worlds[1..][i + 1] == Next(cfg, worlds[1..][i], inputs[1..][i])
    {
      assert worlds[i + 2] == Next(cfg, worlds[i + 1], inputs[i + 1]);
    }
  }

  // ---- A provider that raises without a text ----

  /** It is always ten o'clock on a trading day, and the provider raises without a text. */
  ghost predicate AlwaysMute<S, P, D>(cfg: Config<S, P, D>) {
    && cfg.setup.tradingDay(0)
    && (forall n :: cfg.now(n) == TEN)
    && forall n, code, day :: cfg.market(n)(code, day) == Outcome.Raised("")
  }

  lemma MuteIsSilent<S, P, D>(cfg: Config<S, P, D>, c: string, input: CycleInput)
    requires AlwaysMute(cfg) && NormalizeCode(c) == Some(c) && input.codes == [c]
    ensures SilentCycle(cfg, input)
  {
    OneCode(c);
    AtTenShows(cfg.setup, c, []);
    assert cfg.market(input.ticks + 1)(c, TEN / Market.DAY) == Outcome.Raised("") && Blank("");
    assert SilentAt([c], TEN, cfg.market(input.ticks + 1), 0);
  }

  /** Although errors are to be recorded, such a provider ends the run in its first cycle. */
  lemma MuteProviderEndsRun<S, P, D>(
    cfg: Config<S, P, D>, c: string, pollInterval: nat, w: World<S, D>, horizon: nat)
    requires AlwaysMute(cfg) && NormalizeCode(c) == Some(c)
    requires Ends(cfg, None, w.asked, horizon) && !cfg.stop(w.asked)
    ensures LiveRun(cfg, [c], true, pollInterval, None, w, horizon).1.Raised?
  {
    var start := Tick(w);
    var input := CycleInput([c], true, 1, start.ticks, start.asked + 1, start.sleeps);
    var first := start.(asked := start.asked + 1);
    assert Facing(first, input) == first;
    MuteIsSilent(cfg, c, input);
    LenientCycleRaisesExactly(cfg, first, input);
    assert RunCycle(cfg, [c], true, first, 1).1.Raised?;
    hide RunCycle, SilentCycle, AlwaysMute;
    assert OneRound(cfg, [c], true, None, start, []).over.Some?;
    hide OneRound;
    assert Loop(cfg, [c], true, None, start, [], horizon).1.Raised?;
  }
}
