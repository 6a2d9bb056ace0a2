/**
 From the market to the strategies, over any run of cycles, broken ones
 included: no bar enters a history twice, none is skipped, and what is stored
 is delivered exactly when no cycle broke off.
 */
module LivePipelineTheorems {
  import opened Wrappers
  import opened Sorting
  import opened MarketBars
  import Market = MarketMonitor
  import Monitoring = MarketMonitorTheorems
  import opened SignalEngine
  import opened SignalEngineTheorems
  import opened PaperTrading
  import opened PaperTradingTheorems
  import opened LiveOrchestrator

  // ---- Feeding bars that are all new ----

  ghost predicate AllBefore<S>(cell: Cell<S>, t: int) {
    && (cell.last.Some? ==> cell.last.value < t)
    && forall b :: b in cell.bars ==> b.openedAt < t
  }

  /** Strictly ordered prices under normalized codes, each newer than all its code has seen. */
  ghost predicate AllNew<S>(cells: Cells<S>, prices: seq<StockPrice>) {
    && StrictlyOrdered(prices, PriceLeq)
    && forall p :: p in prices ==> NormalizeCode(p.code) == Some(p.code) && AllBefore(CellOf(cells, p.code), p.time)
  }

  lemma SameCodeLater(prices: seq<StockPrice>, i: nat, j: nat)
    requires StrictlyOrdered(prices, PriceLeq) && i < j < |prices| && prices[i].code == prices[j].code
    ensures prices[i].time < prices[j].time
  {
    LexTotal(prices[i].code, prices[j].code);
    assert PriceLeq(prices[i], prices[j]) && !PriceLeq(prices[j], prices[i]);
  }

  /** The strategy's frame accepts such a bar, and it joins the history of its code alone. */
  lemma NewBarJoins<S, P>(st: Strategy<S, P>, r: Run<S, P>, p: StockPrice, c: string)
    requires r.error.None? && NormalizeCode(p.code) == Some(p.code) && AllBefore(CellOf(r.cells, p.code), p.time)
    ensures
      var next, bar := FeedPrice(st, r, p), HistoricalBar(p.code, p.time, p.quote);
      && FrameAccepted(CellOf(r.cells, p.code).bars + [bar])
      && next.skipped == r.skipped
      && CellOf(next.cells, c).bars == CellOf(r.cells, c).bars + (if c == p.code then [bar] else [])
      && (CellOf(next.cells, c).last == CellOf(r.cells, c).last
          || (c == p.code && CellOf(next.cells, c).last == Some(p.time)))
  {
    var cell, bar := CellOf(r.cells, p.code), HistoricalBar(p.code, p.time, p.quote);
    assert forall i :: 0 <= i < |cell.bars| ==> cell.bars[i] in cell.bars;
  }

  lemma PrefixReturns<S, P>(st: Strategy<S, P>, cells: Cells<S>, prices: seq<StockPrice>)
    requires Feed(st, cells, prices).error.None? && prices != []
    ensures Feed(st, cells, prices[..|prices| - 1]).error.None?
  {
  }

  /** The bars of a code before its last one open before it. */
  lemma EarlierBars(prices: seq<StockPrice>, b: HistoricalBar)
    requires prices != [] && StrictlyOrdered(prices, PriceLeq)
    requires forall p :: p in prices ==> NormalizeCode(p.code) == Some(p.code)
    requires b in BarsOf(prices[..|prices| - 1], prices[|prices| - 1].code)
    ensures b.openedAt < prices[|prices| - 1].time
  {
    hide NormalizeCode, PriceLeq;
    var init, last := prices[..|prices| - 1], prices[|prices| - 1];
    BarsOfMember(init, last.code, b);
    var p :| p in init && Delivers(p, b);
    var i :| 0 <= i < |init| && init[i] == p;
    assert p in prices;
    SameCodeLater(prices, i, |prices| - 1);
  }

  ghost predicate LastFrom<S>(before: Cell<S>, bars: seq<HistoricalBar>, after: Cell<S>) {
    after.last == before.last || (after.last.Some? && HasTime(bars, after.last.value))
  }

  /**
   Feeding new bars, the last of which may break: none is skipped, every history
   is extended by exactly its bars, and no watermark passes them.
   */
  lemma {:induction false} NewBarsJoin<S, P>(st: Strategy<S, P>, cells: Cells<S>, prices: seq<StockPrice>, c: string)
    requires AllNew(cells, prices)
    requires prices != [] ==> Feed(st, cells, prices[..|prices| - 1]).error.None?
    ensures Feed(st, cells, prices).skipped == 0
    ensures CellOf(Feed(st, cells, prices).cells, c).bars == CellOf(cells, c).bars + BarsOf(prices, c)
    ensures LastFrom(CellOf(cells, c), BarsOf(prices, c), CellOf(Feed(st, cells, prices).cells, c))
  {
    if prices == [] {
    } else {
      var init, last := prices[..|prices| - 1], prices[|prices| - 1];
      var r := Feed(st, cells, init);
      if init != [] {
        PrefixReturns(st, cells, init);
      }
      NewBarsJoin(st, cells, init, c);
      NewBarsJoin(st, cells, init, last.code);
      NextIsNew(cells, prices, CellOf(r.cells, last.code));
      NewBarJoins(st, r, last, c);
      LastBarJoins(CellOf(cells, c), prices, c, CellOf(r.cells, c), CellOf(Feed(st, cells, prices).cells, c));
    }
  }

  lemma NextIsNew<S>(cells: Cells<S>, prices: seq<StockPrice>, cell: Cell<S>)
    requires prices != [] && AllNew(cells, prices)
    requires
      var init, code := prices[..|prices| - 1], prices[|prices| - 1].code;
      && cell.bars == CellOf(cells, code).bars + BarsOf(init, code)
      && LastFrom(CellOf(cells, code), BarsOf(init, code), cell)
    ensures AllBefore(cell, prices[|prices| - 1].time)
  {
    var init, last := prices[..|prices| - 1], prices[|prices| - 1];
    assert last in prices;
    forall b | b in BarsOf(init, last.code)
      ensures b.openedAt < last.time
    {
      EarlierBars(prices, b);
    }
  }

  lemma LastBarJoins<S>(start: Cell<S>, prices: seq<StockPrice>, c: string, before: Cell<S>, after: Cell<S>)
    requires prices != [] && NormalizeCode(prices[|prices| - 1].code) == Some(prices[|prices| - 1].code)
    requires before.bars == start.bars + BarsOf(prices[..|prices| - 1], c)
    requires LastFrom(start, BarsOf(prices[..|prices| - 1], c), before)
    requires
      var last := prices[|prices| - 1];
      && after.bars == before.bars +
         (if c == last.code then [HistoricalBar(last.code, last.time, last.quote)] else [])
      && (after.last == before.last || (c == last.code && after.last == Some(last.time)))
    ensures after.bars == start.bars + BarsOf(prices, c)
    ensures LastFrom(start, BarsOf(prices, c), after)
  {
    var init, last := prices[..|prices| - 1], prices[|prices| - 1];
    if c == last.code {
      assert HistoricalBar(c, last.time, last.quote) in BarsOf(prices, c);
      assert HasTime(BarsOf(prices, c), last.time);
    }
    forall t | HasTime(BarsOf(init, c), t)
      ensures HasTime(BarsOf(prices, c), t)
    {
      var b :| b in BarsOf(init, c) && b.openedAt == t;
      assert b in BarsOf(prices, c);
    }
  }

  // ---- One cycle ----

  /** No history or watermark is ahead of the store, and every history is strictly ordered. */
  ghost predicate Behind<S>(stored: Market.Stored, cell: Cell<S>, c: string) {
    && (cell.last.Some? ==> Monitoring.Reached(stored, c, cell.last.value))
    && (forall b :: b in cell.bars ==> Monitoring.Reached(stored, c, b.openedAt))
    && StrictlyOrdered(cell.bars, OpensBefore)
  }

  ghost predicate Ahead<S, D>(w: World<S, D>) {
    forall c :: Behind(w.stored, CellOf(w.cells, c), c)
  }

  /** What the poll of a cycle does to the store, and the bars it brings. */
  ghost predicate Polled(before: Market.Stored, after: Market.Stored, bars: seq<StockPrice>) {
    && (forall k :: k in before ==> k in after && after[k] == before[k])
    && StrictlyOrdered(bars, PriceLeq)
    && (forall p :: p in bars ==>
          && NormalizeCode(p.code) == Some(p.code)
          && !Monitoring.Reached(before, p.code, p.time)
          && (p.code, p.time) in after
          && after[(p.code, p.time)] == p)
    && (forall k :: k in after && k !in before ==> exists p :: p in bars && (p.code, p.time) == k)
  }

  lemma StoredIsReached(stored: Market.Stored, c: string, t: int)
    requires (c, t) in stored
    ensures Monitoring.Reached(stored, c, t)
  {
  }

  lemma ReachedGrows(before: Market.Stored, after: Market.Stored, c: string, t: int)
    requires before.Keys <= after.Keys && Monitoring.Reached(before, c, t)
    ensures Monitoring.Reached(after, c, t)
  {
    var latest := Market.Latest(before, c).value;
    assert (c, latest) in before.Keys;
    StoredIsReached(after, c, latest);
  }

  /** The prices a cycle hands to paper trading. */
  ghost function NewBars(
    cfg: Market.Setup, stored: Market.Stored, codes: seq<string>, at: int, provider: Market.Provider)
    : seq<StockPrice>
  {
    var r := Market.PollRun(cfg, stored, codes, at, provider).1;
    if r.Returned? then r.value.newBars else []
  }

  /** The store after a poll that goes through, read key by key. */
  lemma KeyGrows(
    cfg: Market.Setup, stored: Market.Stored, codes: seq<string>, at: int, provider: Market.Provider,
    c: string, t: int)
    requires Monitoring.Polls(cfg, codes, at, provider)
    ensures
      var after := Market.PollRun(cfg, stored, codes, at, provider).0;
      var incoming := Monitoring.Incoming(cfg, stored, c, at, provider);
      var isNew := c in Market.NormalizeCodes(codes).value && t in incoming;
      && ((c, t) in after <==> (c, t) in stored || isNew)
      && ((c, t) in stored ==> after[(c, t)] == stored[(c, t)])
      && (isNew ==> after[(c, t)] == incoming[t] && !Monitoring.Reached(stored, c, t))
  {
    var after := Market.PollRun(cfg, stored, codes, at, provider).0;
    hide Market.PollRun, Monitoring.Shown;
    Monitoring.PollSavesExactly(cfg, stored, codes, at, provider);
    Monitoring.StoredForMeaning(stored, c);
    Monitoring.StoredForMeaning(after, c);
    hide Market.NormalizeCodes, Monitoring.StoredFor;
    if (c, t) in stored {
      StoredIsReached(stored, c, t);
    }
    assert (c, t) in stored ==> t in Monitoring.StoredFor(stored, c);
    assert (c, t) in after ==> t in Monitoring.StoredFor(after, c);
  }

  lemma NewKeyIsBrought(
    cfg: Market.Setup, stored: Market.Stored, codes: seq<string>, at: int, provider: Market.Provider,
    c: string, t: int)
    returns (p: StockPrice)
    requires Monitoring.Polls(cfg, codes, at, provider)
    requires c in Market.NormalizeCodes(codes).value && t in Monitoring.Incoming(cfg, stored, c, at, provider)
    ensures Monitoring.Brings(cfg, stored, Market.NormalizeCodes(codes).value, at, provider, p)
    ensures (p.code, p.time) == (c, t)
  {
    p := Monitoring.Incoming(cfg, stored, c, at, provider)[t];
    Monitoring.FetchMeaning(cfg, stored, c, Market.CreateSession(cfg.tradingDay, at), provider);
  }

  /** Everything `Polled` says of a poll that goes through, but for the order of the bars and their codes. */
  lemma StoreGrows(cfg: Market.Setup, stored: Market.Stored, codes: seq<string>, at: int, provider: Market.Provider)
    requires Monitoring.Polls(cfg, codes, at, provider)
    ensures
      var (after, r) := Market.PollRun(cfg, stored, codes, at, provider);
      && r.Returned?
      && (forall k :: k in stored ==> k in after && after[k] == stored[k])
      && (forall p :: p in r.value.newBars ==>
            (p.code, p.time) in after && after[(p.code, p.time)] == p && !Monitoring.Reached(stored, p.code, p.time))
      && (forall k :: k in after && k !in stored ==> exists p :: p in r.value.newBars && (p.code, p.time) == k)
  {
    hide Market.PollRun, Monitoring.Incoming, Monitoring.Reached;
    Monitoring.PollSavesExactly(cfg, stored, codes, at, provider);
    var (after, r) := Market.PollRun(cfg, stored, codes, at, provider);
    forall k | k in stored
      ensures k in after && after[k] == stored[k]
    {
      KeyGrows(cfg, stored, codes, at, provider, k.0, k.1);
    }
    forall p | p in r.value.newBars
      ensures (p.code, p.time) in after && after[(p.code, p.time)] == p && !Monitoring.Reached(stored, p.code, p.time)
    {
      KeyGrows(cfg, stored, codes, at, provider, p.code, p.time);
    }
    forall k | k in after && k !in stored
      ensures exists p :: p in r.value.newBars && (p.code, p.time) == k
    {
      KeyGrows(cfg, stored, codes, at, provider, k.0, k.1);
      var p := NewKeyIsBrought(cfg, stored, codes, at, provider, k.0, k.1);
    }
  }

  /** The bars a poll brings are strictly ordered and under watched codes. */
  lemma BroughtOrdered(cfg: Market.Setup, stored: Market.Stored, codes: seq<string>, at: int, provider: Market.Provider)
    requires Monitoring.Polls(cfg, codes, at, provider)
    ensures
      var bars := NewBars(cfg, stored, codes, at, provider);
      StrictlyOrdered(bars, PriceLeq) && forall p :: p in bars ==> NormalizeCode(p.code) == Some(p.code)
  {
    hide Market.PollRun, NormalizeCode, PriceLeq;
    Monitoring.PollSavesExactly(cfg, stored, codes, at, provider);
    Monitoring.NormalizedCodes(codes);
  }

  lemma PollIsPolled(cfg: Market.Setup, stored: Market.Stored, codes: seq<string>, at: int, provider: Market.Provider)
    ensures Polled(stored, Market.PollRun(cfg, stored, codes, at, provider).0,
                   NewBars(cfg, stored, codes, at, provider))
  {
    hide Market.PollRun, Monitoring.Polls, PriceLeq, NormalizeCode, Monitoring.Reached;
    if Monitoring.Polls(cfg, codes, at, provider) {
      StoreGrows(cfg, stored, codes, at, provider);
      BroughtOrdered(cfg, stored, codes, at, provider);
    } else {
      Monitoring.PollRaisesExactly(cfg, stored, codes, at, provider);
    }
  }

  lemma NewBarsAreNew<S>(before: Market.Stored, after: Market.Stored, cells: Cells<S>, bars: seq<StockPrice>, k: nat)
    requires Polled(before, after, bars) && k <= |bars|
    requires forall c :: Behind(before, CellOf(cells, c), c)
    ensures AllNew(cells, bars[..k])
  {
    forall p | p in bars[..k]
      ensures AllBefore(CellOf(cells, p.code), p.time)
    {
      assert p in bars;
      assert Behind(before, CellOf(cells, p.code), p.code);
    }
  }

  /** Feeding a prefix of what a poll brings keeps every cell behind the store. */
  lemma FeedKeepsBehind<S, P>(
    st: Strategy<S, P>, before: Market.Stored, after: Market.Stored, cells: Cells<S>,
    bars: seq<StockPrice>, k: nat, c: string)
    requires Polled(before, after, bars) && k <= |bars|
    requires forall d :: Behind(before, CellOf(cells, d), d)
    requires k > 0 ==> Feed(st, cells, bars[..k - 1]).error.None?
    ensures Behind(after, CellOf(Feed(st, cells, bars[..k]).cells, c), c)
  {
    hide AllNew, BarsOf, Feed, Monitoring.Reached;
    var fed := bars[..k];
    NewBarsAreNew(before, after, cells, bars, k);
    assert k > 0 ==> fed[..k - 1] == bars[..k - 1];
    NewBarsJoin(st, cells, fed, c);
    var past, cell := CellOf(cells, c), CellOf(Feed(st, cells, fed).cells, c);
    assert Behind(before, past, c);
    FedBarsAreStored(before, after, bars, k, c);
    forall t | Monitoring.Reached(before, c, t)
      ensures Monitoring.Reached(after, c, t)
    {
      ReachedGrows(before, after, c, t);
    }
    FedBarsOrdered(fed, c);
    ExtendedOrder(before, c, past.bars, BarsOf(fed, c));
  }

  lemma FedBarsAreStored(before: Market.Stored, after: Market.Stored, bars: seq<StockPrice>, k: nat, c: string)
    requires Polled(before, after, bars) && k <= |bars|
    ensures forall b :: b in BarsOf(bars[..k], c) ==>
              Monitoring.Reached(after, c, b.openedAt) && !Monitoring.Reached(before, c, b.openedAt)
  {
    hide NormalizeCode;
    forall b | b in BarsOf(bars[..k], c)
      ensures Monitoring.Reached(after, c, b.openedAt) && !Monitoring.Reached(before, c, b.openedAt)
    {
      BarsOfMember(bars[..k], c, b);
      var p :| p in bars[..k] && Delivers(p, b);
      assert p in bars;
      StoredIsReached(after, c, b.openedAt);
    }
  }

  lemma {:induction false} FedBarsOrdered(prices: seq<StockPrice>, c: string)
    requires StrictlyOrdered(prices, PriceLeq)
    requires forall p :: p in prices ==> NormalizeCode(p.code) == Some(p.code)
    ensures StrictlyOrdered(BarsOf(prices, c), OpensBefore)
  {
    hide NormalizeCode;
    if prices == [] {
    } else {
      var init, last := prices[..|prices| - 1], prices[|prices| - 1];
      FedBarsOrdered(init, c);
      assert last in prices;
      if c == last.code {
        forall b | b in BarsOf(init, c)
          ensures b.openedAt < last.time
        {
          EarlierBars(prices, b);
        }
      }
    }
  }

  lemma ExtendedOrder(before: Market.Stored, c: string, a: seq<HistoricalBar>, b: seq<HistoricalBar>)
    requires StrictlyOrdered(a, OpensBefore) && StrictlyOrdered(b, OpensBefore)
    requires forall x :: x in a ==> Monitoring.Reached(before, c, x.openedAt)
    requires forall x :: x in b ==> !Monitoring.Reached(before, c, x.openedAt)
    ensures StrictlyOrdered(a + b, OpensBefore)
  {
    forall i, j | 0 <= i < j < |a + b|
      ensures (a + b)[i].openedAt < (a + b)[j].openedAt
    {
      if i < |a| <= j {
        assert a[i] in a && b[j - |a|] in b;
      }
    }
  }

  /** The bars of one cycle, and how many of them reach the engine. */
  ghost function CycleBars<S, P, D>(cfg: Config<S, P, D>, codes: seq<string>, w: World<S, D>): seq<StockPrice> {
    NewBars(cfg.setup, w.stored, codes, cfg.now(w.ticks), cfg.market(w.ticks + 1))
  }

  ghost function CycleFed<S, P, D>(cfg: Config<S, P, D>, codes: seq<string>, lenient: bool, w: World<S, D>): (k: nat)
    ensures k <= |CycleBars(cfg, codes, w)|
  {
    FedCount(cfg.strategy, cfg.ops, lenient, Entering(w.cells, w.desk), CycleBars(cfg, codes, w))
  }

  lemma PollDecides(cfg: Market.Setup, stored: Market.Stored, codes: seq<string>, at: int, provider: Market.Provider)
    ensures
      var r := Market.PollRun(cfg, stored, codes, at, provider).1;
      r.Returned? ==> (r.value.decision == Market.NewBarsSaved <==> r.value.newBars != [])
  {
  }

  lemma CycleIsItsAttempt<S, P, D>(cfg: Config<S, P, D>, codes: seq<string>, lenient: bool, w: World<S, D>, number: int)
    ensures
      var w' := RunCycle(cfg, codes, lenient, w, number).0;
      var tried := Attempt(cfg, codes, lenient, Tick(w), cfg.now(w.ticks)).0;
      w'.stored == tried.stored && w'.cells == tried.cells && w'.desk == tried.desk
  {
    hide Attempt;
  }

  lemma AttemptPolls<S, P, D>(cfg: Config<S, P, D>, codes: seq<string>, lenient: bool, w: World<S, D>, at: int)
    ensures
      var after, polled := Attempt(cfg, codes, lenient, w, at).0,
                           Market.PollRun(cfg.setup, w.stored, codes, at, cfg.market(w.ticks));
      && after.stored == polled.0
      && (after.cells, after.desk) ==
         if polled.1.Returned? && polled.1.value.decision == Market.NewBarsSaved
         then
           var x := TradeRun(cfg.strategy, cfg.ops, lenient, w.cells, w.desk, polled.1.value.newBars);
           (x.cells, x.desk)
         else (w.cells, w.desk)
  {
    hide Market.PollRun, TradeRun, Conclude;
  }

  /** Whatever raises in a cycle: the poll's store stays, and the engine has been fed a prefix of its bars. */
  lemma CycleFeeds<S, P, D>(cfg: Config<S, P, D>, codes: seq<string>, lenient: bool, w: World<S, D>, number: int)
    ensures
      var w' := RunCycle(cfg, codes, lenient, w, number).0;
      var bars, k := CycleBars(cfg, codes, w), CycleFed(cfg, codes, lenient, w);
      && w'.stored == Market.PollRun(cfg.setup, w.stored, codes, cfg.now(w.ticks), cfg.market(w.ticks + 1)).0
      && w'.cells == Feed(cfg.strategy, w.cells, bars[..k]).cells
      && (k > 0 ==> Feed(cfg.strategy, w.cells, bars[..k - 1]).error.None?)
  {
    hide Market.PollRun, TradeAll, Attempt, RunCycle;
    var at, provider := cfg.now(w.ticks), cfg.market(w.ticks + 1);
    var bars := CycleBars(cfg, codes, w);
    CycleIsItsAttempt(cfg, codes, lenient, w, number);
    AttemptPolls(cfg, codes, lenient, Tick(w), at);
    PollDecides(cfg.setup, w.stored, codes, at, provider);
    PollIsPolled(cfg.setup, w.stored, codes, at, provider);
    SortFixesOrdered(bars, PriceLeq);
    FeedsAPrefix(cfg.strategy, cfg.ops, lenient, w.cells, w.desk, bars);
  }

  lemma CycleKeepsAhead<S, P, D>(cfg: Config<S, P, D>, codes: seq<string>, lenient: bool, w: World<S, D>, number: int)
    requires Ahead(w)
    ensures Ahead(RunCycle(cfg, codes, lenient, w, number).0)
    ensures w.stored.Keys <= RunCycle(cfg, codes, lenient, w, number).0.stored.Keys
  {
    hide RunCycle, Market.PollRun, FedCount, Feed;
    var w', bars := RunCycle(cfg, codes, lenient, w, number).0, CycleBars(cfg, codes, w);
    CycleFeeds(cfg, codes, lenient, w, number);
    PollIsPolled(cfg.setup, w.stored, codes, cfg.now(w.ticks), cfg.market(w.ticks + 1));
    forall c
      ensures Behind(w'.stored, CellOf(w'.cells, c), c)
    {
      FeedKeepsBehind(cfg.strategy, w.stored, w'.stored, w.cells, bars, CycleFed(cfg, codes, lenient, w), c);
    }
  }

  /** Bars that are all new and in order are all processed, unless trading on them raises. */
  lemma NewBarsNeverSkip<S, P, D>(
    st: Strategy<S, P>, ops: Desk<D, P>, lenient: bool, cells: Cells<S>, desk: D, bars: seq<StockPrice>)
    requires AllNew(cells, bars)
    ensures
      var x := TradeRun(st, ops, lenient, cells, desk, bars);
      x.error.None? ==> Combine(x.results).skippedCount == 0 && Combine(x.results).processedCount == |bars|
  {
    SortFixesOrdered(bars, PriceLeq);
    hide TradeAll, AllNew, Feed, Combine, PriceLeq;
    if TradeRun(st, ops, lenient, cells, desk, bars).error.None? {
      PerBarRefinesBatch(st, ops, lenient, cells, desk, bars);
      if bars != [] {
        PrefixReturns(st, cells, bars);
      }
      NewBarsJoin(st, cells, bars, "");
      FeedCounts(st, cells, bars);
    }
  }

  /** Paper trading that completes on the bars of a poll has processed each of them and skipped none. */
  lemma NeverSkips<S, P, D>(cfg: Config<S, P, D>, codes: seq<string>, lenient: bool, w: World<S, D>)
    requires Ahead(w)
    ensures
      var bars := CycleBars(cfg, codes, w);
      var x := TradeRun(cfg.strategy, cfg.ops, lenient, w.cells, w.desk, bars);
      x.error.None? ==> Combine(x.results).skippedCount == 0 && Combine(x.results).processedCount == |bars|
  {
    hide Market.PollRun, TradeRun, Polled, Behind, AllNew;
    var at, provider := cfg.now(w.ticks), cfg.market(w.ticks + 1);
    var bars := CycleBars(cfg, codes, w);
    PollIsPolled(cfg.setup, w.stored, codes, at, provider);
    NewBarsAreNew(w.stored, Market.PollRun(cfg.setup, w.stored, codes, at, provider).0, w.cells, bars, |bars|);
    assert bars[..|bars|] == bars;
    NewBarsNeverSkip(cfg.strategy, cfg.ops, lenient, w.cells, w.desk, bars);
  }

  // ---- Any run of cycles, at any times ----

  /** How a cycle is called, and how many times clock, stop switch and pause have been used by then. */
  datatype CycleInput = CycleInput(
    codes: seq<string>, lenient: bool, number: int, ticks: nat, asked: nat, sleeps: nat)

  /** The world a cycle meets: the store, the engine and the desk as the cycle before left them. */
  function Facing<S, D>(w: World<S, D>, input: CycleInput): World<S, D> {
    w.(ticks := input.ticks, asked := input.asked, sleeps := input.sleeps)
  }

  ghost function Next<S, P, D>(cfg: Config<S, P, D>, w: World<S, D>, input: CycleInput): World<S, D> {
    RunCycle(cfg, input.codes, input.lenient, Facing(w, input), input.number).0
  }

  /** The world before and after each cycle, whether the cycle returned or raised. */
  ghost predicate Trace<S, P, D>(cfg: Config<S, P, D>, worlds: seq<World<S, D>>, inputs: seq<CycleInput>) {
    && |worlds| == |inputs| + 1
    && forall i {:trigger inputs[i]} :: 0 <= i < |inputs| ==> worlds[i + 1] == Next(cfg, worlds[i], inputs[i])
  }

  lemma {:induction false} AlwaysAhead<S, P, D>(
    cfg: Config<S, P, D>, worlds: seq<World<S, D>>, inputs: seq<CycleInput>, i: nat)
    requires Trace(cfg, worlds, inputs) && Ahead(worlds[0]) && i <= |inputs|
    ensures Ahead(worlds[i])
    ensures worlds[0].stored.Keys <= worlds[i].stored.Keys
  {
    hide RunCycle;
    if i == 0 {
    } else {
      AlwaysAhead(cfg, worlds, inputs, i - 1);
      var input := inputs[i - 1];
      CycleKeepsAhead(cfg, input.codes, input.lenient, Facing(worlds[i - 1], input), input.number);
    }
  }

  /**
   At most once: over any run of cycles, broken ones included, a history never
   holds two bars of one opening time, and no watermark passes the store.
   */
  lemma AtMostOnce<S, P, D>(cfg: Config<S, P, D>, worlds: seq<World<S, D>>, inputs: seq<CycleInput>, i: nat, c: string)
    requires Trace(cfg, worlds, inputs) && Ahead(worlds[0]) && i <= |inputs|
    ensures
      var cell := CellOf(worlds[i].cells, c);
      && (forall j, k :: 0 <= j < k < |cell.bars| ==> cell.bars[j].openedAt < cell.bars[k].openedAt)
      && (cell.last.Some? ==> Monitoring.Reached(worlds[i].stored, c, cell.last.value))
  {
    AlwaysAhead(cfg, worlds, inputs, i);
    var cell := CellOf(worlds[i].cells, c);
    assert Behind(worlds[i].stored, cell, c);
    assert forall j, k :: 0 <= j < k < |cell.bars| ==>
      OpensBefore(cell.bars[j], cell.bars[k]) && !OpensBefore(cell.bars[k], cell.bars[j]);
  }
}
