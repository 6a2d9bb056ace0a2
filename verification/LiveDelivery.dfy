/**
 What is stored and what the strategies' histories hold, over any run of cycles:
 the same bars, quotes and order included, exactly when no cycle broke off early.
 */
module LiveDelivery {
  import opened Wrappers
  import opened Sorting
  import opened MarketBars
  import Market = MarketMonitor
  import Monitoring = MarketMonitorTheorems
  import opened SignalEngine
  import opened SignalEngineTheorems
  import opened PaperTrading
  import opened PaperTradingTheorems
  import opened PaperTradingFaults
  import opened LiveOrchestrator
  import opened LivePipelineTheorems

  ghost predicate Keeps(before: Market.Stored, after: Market.Stored) {
    forall k :: k in before ==> k in after && after[k] == before[k]
  }

  /** The bar has been stored in the meantime, with this quote. */
  ghost predicate NewlyStored(before: Market.Stored, after: Market.Stored, c: string, b: HistoricalBar) {
    && b.code == c
    && (c, b.openedAt) in after
    && (c, b.openedAt) !in before
    && after[(c, b.openedAt)].quote == b.quote
  }

  /** What the history of the code has gained since the start, if it has kept what it had. */
  function Gained<S, D>(start: World<S, D>, w: World<S, D>, c: string): Option<seq<HistoricalBar>> {
    var before, after := CellOf(start.cells, c).bars, CellOf(w.cells, c).bars;
    if before <= after then Some(after[|before|..]) else None
  }

  /** Every history has kept what it had, and gained only bars stored since. */
  ghost predicate Faithful<S, D>(start: World<S, D>, w: World<S, D>) {
    forall c ::
      && Gained(start, w, c).Some?
      && forall b :: b in Gained(start, w, c).value ==> NewlyStored(start.stored, w.stored, c, b)
  }

  /** Every bar stored since the start is among what the history of its code has gained. */
  ghost predicate Complete<S, D>(start: World<S, D>, w: World<S, D>) {
    forall c, b :: NewlyStored(start.stored, w.stored, c, b) ==>
      Gained(start, w, c).Some? && b in Gained(start, w, c).value
  }

  // ---- One cycle ----

  /** The cycle stored `bars` and fed the first `k` of them. */
  ghost predicate Fed<S, D>(w: World<S, D>, w': World<S, D>, bars: seq<StockPrice>, k: nat) {
    && Ahead(w)
    && Polled(w.stored, w'.stored, bars) && k <= |bars|
    && forall c :: CellOf(w'.cells, c).bars == CellOf(w.cells, c).bars + BarsOf(bars[..k], c)
  }

  lemma FedBarsAreNewlyStored<S, D>(
    w: World<S, D>, w': World<S, D>, bars: seq<StockPrice>, k: nat, c: string, b: HistoricalBar)
    requires Fed(w, w', bars, k) && b in BarsOf(bars[..k], c)
    ensures NewlyStored(w.stored, w'.stored, c, b)
  {
    BarsOfMember(bars[..k], c, b);
    var p :| p in bars[..k] && Delivers(p, b);
    hide NormalizeCode;
    assert p in bars && !Monitoring.Reached(w.stored, p.code, p.time);
    if (c, b.openedAt) in w.stored {
      StoredIsReached(w.stored, c, b.openedAt);
    }
  }

  lemma NewlyStoredIsBrought<S, D>(w: World<S, D>, w': World<S, D>, bars: seq<StockPrice>, c: string, b: HistoricalBar)
    requires Polled(w.stored, w'.stored, bars) && NewlyStored(w.stored, w'.stored, c, b)
    ensures b in BarsOf(bars, c)
  {
    hide NormalizeCode;
    var p :| p in bars && (p.code, p.time) == (c, b.openedAt);
    BarsOfMember(bars, c, b);
    assert Delivers(p, b);
  }

  lemma FedOpenBefore(bars: seq<StockPrice>, k: nat, x: HistoricalBar)
    requires StrictlyOrdered(bars, PriceLeq) && k < |bars|
    requires forall p :: p in bars ==> NormalizeCode(p.code) == Some(p.code)
    requires x in BarsOf(bars[..k], bars[k].code)
    ensures x.openedAt < bars[k].time
  {
    hide NormalizeCode, PriceLeq;
    assert bars[..k + 1][..k] == bars[..k];
    assert forall q :: q in bars[..k + 1] ==> q in bars;
    EarlierBars(bars[..k + 1], x);
  }

  lemma NoneHasTime<S>(before: Market.Stored, cell: Cell<S>, c: string, bars: seq<HistoricalBar>, t: int)
    requires Behind(before, cell, c) && !Monitoring.Reached(before, c, t)
    requires forall x :: x in bars ==> x.openedAt != t
    ensures !HasTime(cell.bars + bars, t)
  {
  }

  /** The first bar that is not fed is stored and in no history. */
  lemma UnfedIsStored<S, D>(w: World<S, D>, w': World<S, D>, bars: seq<StockPrice>, k: nat) returns (b: HistoricalBar)
    requires Fed(w, w', bars, k) && k < |bars|
    ensures b == HistoricalBar(bars[k].code, bars[k].time, bars[k].quote)
    ensures NewlyStored(w.stored, w'.stored, b.code, b)
    ensures !HasTime(CellOf(w'.cells, b.code).bars, b.openedAt)
  {
    hide NormalizeCode, PriceLeq, BarsOf, CellOf, HasTime, Behind;
    var p := bars[k];
    b := HistoricalBar(p.code, p.time, p.quote);
    assert p in bars && !Monitoring.Reached(w.stored, p.code, p.time);
    if (p.code, p.time) in w.stored {
      StoredIsReached(w.stored, p.code, p.time);
    }
    forall x | x in BarsOf(bars[..k], p.code)
      ensures x.openedAt != p.time
    {
      FedOpenBefore(bars, k, x);
    }
    NoneHasTime(w.stored, CellOf(w.cells, p.code), p.code, BarsOf(bars[..k], p.code), p.time);
  }

  lemma GainedGrows<S, D>(
    start: World<S, D>, w: World<S, D>, w': World<S, D>, bars: seq<StockPrice>, k: nat, c: string)
    requires Fed(w, w', bars, k) && Gained(start, w, c).Some?
    ensures Gained(start, w', c) == Some(Gained(start, w, c).value + BarsOf(bars[..k], c))
  {
    hide BarsOf, CellOf, Polled, Ahead;
    var n, now, fed := |CellOf(start.cells, c).bars|, CellOf(w.cells, c).bars, BarsOf(bars[..k], c);
    assert CellOf(w'.cells, c).bars == now + fed;
    assert (now + fed)[n..] == now[n..] + fed;
    assert (now + fed)[..n] == now[..n];
  }

  lemma CycleStaysFaithful<S, D>(
    start: World<S, D>, w: World<S, D>, w': World<S, D>, bars: seq<StockPrice>, k: nat)
    requires Fed(w, w', bars, k) && Keeps(start.stored, w.stored) && Faithful(start, w)
    ensures Keeps(start.stored, w'.stored) && Faithful(start, w')
  {
    forall c
      ensures Gained(start, w', c).Some?
      ensures forall b :: b in Gained(start, w', c).value ==> NewlyStored(start.stored, w'.stored, c, b)
    {
      GainedGrows(start, w, w', bars, k, c);
      hide Gained, BarsOf;
      forall b | b in Gained(start, w', c).value
        ensures NewlyStored(start.stored, w'.stored, c, b)
      {
        if b in BarsOf(bars[..k], c) {
          FedBarsAreNewlyStored(w, w', bars, k, c, b);
        } else {
          assert b in Gained(start, w, c).value;
        }
      }
    }
  }

  /** One more cycle keeps delivery complete exactly when it was complete and all bars were fed. */
  lemma CycleCompletes<S, D>(
    start: World<S, D>, w: World<S, D>, w': World<S, D>, bars: seq<StockPrice>, k: nat)
    requires Fed(w, w', bars, k) && Keeps(start.stored, w.stored) && Faithful(start, w)
    ensures Complete(start, w') <==> Complete(start, w) && k == |bars|
  {
    if Complete(start, w') {
      forall c, b | NewlyStored(start.stored, w.stored, c, b)
        ensures b in Gained(start, w, c).value
      {
        OldIsNotFed(start, w, w', bars, k, c, b);
      }
      if k < |bars| {
        var b := UnfedIsStored(w, w', bars, k);
        UnfedIsNotGained(start, w, w', b);
        assert false;
      }
    }
    if Complete(start, w) && k == |bars| {
      forall c, b | NewlyStored(start.stored, w'.stored, c, b)
        ensures Gained(start, w', c).Some? && b in Gained(start, w', c).value
      {
        GainedGrows(start, w, w', bars, k, c);
        if (c, b.openedAt) !in w.stored {
          NewlyStoredIsBrought(w, w', bars, c, b);
          assert bars[..k] == bars;
        }
      }
    }
  }

  lemma OldIsNotFed<S, D>(
    start: World<S, D>, w: World<S, D>, w': World<S, D>, bars: seq<StockPrice>, k: nat, c: string, b: HistoricalBar)
    requires Fed(w, w', bars, k) && Faithful(start, w) && Complete(start, w')
    requires NewlyStored(start.stored, w.stored, c, b)
    ensures b in Gained(start, w, c).value
  {
    GainedGrows(start, w, w', bars, k, c);
    assert NewlyStored(start.stored, w'.stored, c, b);
    if b in BarsOf(bars[..k], c) {
      FedBarsAreNewlyStored(w, w', bars, k, c, b);
    }
  }

  lemma UnfedIsNotGained<S, D>(start: World<S, D>, w: World<S, D>, w': World<S, D>, b: HistoricalBar)
    requires Keeps(start.stored, w.stored) && NewlyStored(w.stored, w'.stored, b.code, b)
    requires !HasTime(CellOf(w'.cells, b.code).bars, b.openedAt)
    ensures !Complete(start, w')
  {
    assert NewlyStored(start.stored, w'.stored, b.code, b);
    var now := CellOf(w'.cells, b.code).bars;
    assert b !in now;
    assert forall n :: 0 <= n <= |now| ==> forall x :: x in now[n..] ==> x in now;
  }

  // ---- Any run of cycles ----

  /** All bars of the cycle reached the engine. */
  ghost predicate FedAll<S, P, D>(cfg: Config<S, P, D>, w: World<S, D>, input: CycleInput) {
    CycleFed(cfg, input.codes, input.lenient, Facing(w, input)) == |CycleBars(cfg, input.codes, Facing(w, input))|
  }

  /**
   A cycle feeds all its bars exactly when no stage fails before the last one, and the last
   one's tick does not fail.
   */
  lemma FedAllExactly<S, P, D>(cfg: Config<S, P, D>, w: World<S, D>, input: CycleInput)
    ensures
      var bars, start := CycleBars(cfg, input.codes, Facing(w, input)), Entering(w.cells, w.desk);
      FedAll(cfg, w, input) <==>
        bars == [] ||
        var n := |bars| - 1;
        && ClearUpTo(cfg.strategy, cfg.ops, input.lenient, start, bars, n)
        && cfg.ops.tick(At(cfg.strategy, cfg.ops, input.lenient, start, bars, n).desk, bars[n]).1.Returned?
  {
    hide CycleBars;
    FedToTheLast(cfg.strategy, cfg.ops, input.lenient, Entering(w.cells, w.desk),
                 CycleBars(cfg, input.codes, Facing(w, input)));
  }

  lemma NextFeeds<S, P, D>(cfg: Config<S, P, D>, w: World<S, D>, input: CycleInput)
    requires Ahead(w)
    ensures
      var met := Facing(w, input);
      Fed(w, Next(cfg, w, input), CycleBars(cfg, input.codes, met), CycleFed(cfg, input.codes, input.lenient, met))
  {
    hide RunCycle, Market.PollRun, FedCount;
    var met := Facing(w, input);
    var bars, k := CycleBars(cfg, input.codes, met), CycleFed(cfg, input.codes, input.lenient, met);
    var after := Next(cfg, w, input);
    assert Ahead(met);
    CycleFeeds(cfg, input.codes, input.lenient, met, input.number);
    PollIsPolled(cfg.setup, w.stored, input.codes, cfg.now(met.ticks), cfg.market(met.ticks + 1));
    forall c
      ensures CellOf(after.cells, c).bars == CellOf(w.cells, c).bars + BarsOf(bars[..k], c)
    {
      FedHistory(cfg, input.codes, input.lenient, met, input.number, c);
    }
  }

  lemma FedHistory<S, P, D>(
    cfg: Config<S, P, D>, codes: seq<string>, lenient: bool, w: World<S, D>, number: int, c: string)
    requires Ahead(w)
    ensures
      var w' := RunCycle(cfg, codes, lenient, w, number).0;
      CellOf(w'.cells, c).bars ==
      CellOf(w.cells, c).bars + BarsOf(CycleBars(cfg, codes, w)[..CycleFed(cfg, codes, lenient, w)], c)
  {
    hide RunCycle, Market.PollRun, CycleFed, Polled, Behind, AllNew, Feed, BarsOf;
    var at, provider := cfg.now(w.ticks), cfg.market(w.ticks + 1);
    var bars, k := CycleBars(cfg, codes, w), CycleFed(cfg, codes, lenient, w);
    CycleFeeds(cfg, codes, lenient, w, number);
    PollIsPolled(cfg.setup, w.stored, codes, at, provider);
    NewBarsAreNew(w.stored, Market.PollRun(cfg.setup, w.stored, codes, at, provider).0, w.cells, bars, k);
    assert k > 0 ==> bars[..k][..k - 1] == bars[..k - 1];
    NewBarsJoin(cfg.strategy, w.cells, bars[..k], c);
  }

  /** One more cycle keeps delivery complete exactly when it was complete and the cycle fed all its bars. */
  lemma NextCompletes<S, P, D>(cfg: Config<S, P, D>, start: World<S, D>, w: World<S, D>, input: CycleInput)
    requires Ahead(w) && Keeps(start.stored, w.stored) && Faithful(start, w)
    ensures
      var after := Next(cfg, w, input);
      && Keeps(start.stored, after.stored) && Faithful(start, after)
      && (Complete(start, after) <==> Complete(start, w) && FedAll(cfg, w, input))
  {
    hide Next, CycleBars, CycleFed, Faithful, Complete, Fed, Keeps;
    var met := Facing(w, input);
    var bars, k := CycleBars(cfg, input.codes, met), CycleFed(cfg, input.codes, input.lenient, met);
    NextFeeds(cfg, w, input);
    CycleStaysFaithful(start, w, Next(cfg, w, input), bars, k);
    CycleCompletes(start, w, Next(cfg, w, input), bars, k);
  }

  lemma StartIsComplete<S, D>(w: World<S, D>)
    ensures Keeps(w.stored, w.stored) && Faithful(w, w) && Complete(w, w)
  {
  }

  /**
   Over any run of cycles a history keeps what it had and gains only bars stored
   since, in time order and with the stored quotes; it gains all of them exactly
   when every cycle fed all its bars. The poll stores before paper trading runs.
   */
  lemma {:induction false} DeliveredExactly<S, P, D>(
    cfg: Config<S, P, D>, worlds: seq<World<S, D>>, inputs: seq<CycleInput>, i: nat)
    requires Trace(cfg, worlds, inputs) && Ahead(worlds[0]) && i <= |inputs|
    ensures Keeps(worlds[0].stored, worlds[i].stored) && Faithful(worlds[0], worlds[i])
    ensures Complete(worlds[0], worlds[i]) <==> forall j :: 0 <= j < i ==> FedAll(cfg, worlds[j], inputs[j])
    ensures forall c :: StrictlyOrdered(Gained(worlds[0], worlds[i], c).value, OpensBefore)
  {
    hide FedAll, Next, Complete, Keeps;
    if i == 0 {
      StartIsComplete(worlds[0]);
    } else {
      DeliveredExactly(cfg, worlds, inputs, i - 1);
      AlwaysAhead(cfg, worlds, inputs, i - 1);
      NextCompletes(cfg, worlds[0], worlds[i - 1], inputs[i - 1]);
      assert worlds[i] == Next(cfg, worlds[i - 1], inputs[i - 1]);
    }
    AlwaysAhead(cfg, worlds, inputs, i);
    forall c
      ensures StrictlyOrdered(Gained(worlds[0], worlds[i], c).value, OpensBefore)
    {
      assert Behind(worlds[i].stored, CellOf(worlds[i].cells, c), c);
    }
  }
}
