/**
 The realtime signal engine: bars are fed in time order, once each, to one
 strategy per code, which sees the history of its code and emits signals.
 */
module SignalEngine {
  import opened Wrappers
  import opened MarketBars
  import opened Sorting

  /** A strategy as the engine knows it: created per code, then evaluated on the visible bars. */
  datatype Strategy<!S, !P> = Strategy(
    create: string -> Outcome<S, string>,
    evaluate: (S, seq<HistoricalBar>) -> (S, Outcome<seq<P>, string>))

  datatype TradeSignal<P> = TradeSignal(code: string, payload: P)

  /** What the engine keeps for one code. */
  datatype Cell<S> = Cell(strategy: Option<S>, bars: seq<HistoricalBar>, last: Option<int>)

  type Cells<S> = map<string, Cell<S>>

  function CellOf<S>(cells: Cells<S>, code: string): Cell<S> {
    if code in cells then cells[code] else Cell(None, [], None)
  }

  datatype Decision = NoNewBar | BarProcessed | SignalsGenerated

  datatype ProcessResult<P> = ProcessResult(
    decision: Decision, inputCount: nat, processedCount: nat, skippedCount: nat,
    signalCount: nat, signals: seq<TradeSignal<P>>)
  {
    /** The checks the result's constructor makes. */
    predicate Accepted() {
      && signalCount == |signals|
      && processedCount + skippedCount == inputCount
      && (decision.NoNewBar? ==> processedCount == 0)
      && (decision.SignalsGenerated? ==> signalCount > 0)
      && (decision.BarProcessed? ==> signalCount == 0)
    }
  }

  const BAD_CODE := "the code must be four or five digits"
  const FUTURE_BAR := "the visible history must not contain future bars"
  const BAD_RESULT := "the counts of the result do not agree"

  // ---- One bar, for one code ----

  predicate Seen(last: Option<int>, t: int) {
    last.Some? && t <= last.value
  }

  /** The frame's check that no visible bar opens after the current one. */
  predicate FrameAccepted(visible: seq<HistoricalBar>)
    requires visible != []
  {
    forall i :: 0 <= i < |visible| ==> visible[i].openedAt <= visible[|visible| - 1].openedAt
  }

  /** A bar the code has not seen joins its history; then the strategy evaluates that history. */
  function ApplyBar<S, P>(st: Strategy<S, P>, cell: Cell<S>, bar: HistoricalBar)
    : (Cell<S>, Outcome<seq<P>, string>)
  {
    var bars := cell.bars + [bar];
    var strategy := if cell.strategy.Some? then Returned(cell.strategy.value) else st.create(bar.code);
    if strategy.Raised? then (Cell(None, bars, cell.last), Raised(strategy.fault))
    else if !FrameAccepted(bars) then (Cell(Some(strategy.value), bars, cell.last), Raised(FUTURE_BAR))
    else
      var (s, verdict) := st.evaluate(strategy.value, bars);
      (Cell(Some(s), bars, if verdict.Returned? then Some(bar.openedAt) else cell.last), verdict)
  }

  // ---- A list of prices, over all codes ----

  datatype Run<S, P> = Run(
    cells: Cells<S>, signals: seq<TradeSignal<P>>, processed: nat, skipped: nat, error: Option<string>)

  function Tagged<P>(code: string, payloads: seq<P>): seq<TradeSignal<P>> {
    seq(|payloads|, i requires 0 <= i < |payloads| => TradeSignal(code, payloads[i]))
  }

  function FeedPrice<S, P>(st: Strategy<S, P>, r: Run<S, P>, p: StockPrice): Run<S, P> {
    if r.error.Some? then r
    else
      match NormalizeCode(p.code)
      case None => r.(error := Some(BAD_CODE))
      case Some(code) =>
        if Seen(CellOf(r.cells, code).last, p.time) then r.(skipped := r.skipped + 1)
        else
          var (cell, verdict) := ApplyBar(st, CellOf(r.cells, code), HistoricalBar(code, p.time, p.quote));
          match verdict
          case Raised(error) => r.(cells := r.cells[code := cell], error := Some(error))
          case Returned(payloads) =>
            r.(cells := r.cells[code := cell], processed := r.processed + 1,
               signals := r.signals + Tagged(code, payloads))
  }

  /** The prices fed one after another, until one raises. */
  function FeedFrom<S, P>(st: Strategy<S, P>, r: Run<S, P>, prices: seq<StockPrice>): Run<S, P> {
    if prices == [] then r
    else FeedPrice(st, FeedFrom(st, r, prices[..|prices| - 1]), prices[|prices| - 1])
  }

  function Idle<S, P>(cells: Cells<S>): Run<S, P> {
    Run(cells, [], 0, 0, None)
  }

  function Feed<S, P>(st: Strategy<S, P>, cells: Cells<S>, prices: seq<StockPrice>): Run<S, P> {
    FeedFrom(st, Idle(cells), prices)
  }

  function Summary<P>(processed: nat, skipped: nat, signals: seq<TradeSignal<P>>, inputCount: nat)
    : ProcessResult<P>
  {
    ProcessResult(
      if processed == 0 then NoNewBar else if signals != [] then SignalsGenerated else BarProcessed,
      inputCount, processed, skipped, |signals|, signals)
  }

  function Summarize<S, P>(r: Run<S, P>, inputCount: nat): ProcessResult<P> {
    Summary(r.processed, r.skipped, r.signals, inputCount)
  }

  /** What one call to the engine does: the prices are fed sorted by time and code. */
  function ProcessRun<S, P>(st: Strategy<S, P>, cells: Cells<S>, prices: seq<StockPrice>): Run<S, P> {
    Feed(st, cells, Sort(prices, PriceLeq))
  }

  lemma FeedSnoc<S, P>(st: Strategy<S, P>, r: Run<S, P>, prices: seq<StockPrice>, p: StockPrice)
    ensures FeedFrom(st, r, prices + [p]) == FeedPrice(st, FeedFrom(st, r, prices), p)
  {
    assert (prices + [p])[..|prices|] == prices;
  }

  lemma {:induction false} FeedStopsAtError<S, P>(st: Strategy<S, P>, r: Run<S, P>, prices: seq<StockPrice>)
    requires r.error.Some?
    ensures FeedFrom(st, r, prices) == r
  {
    if prices == [] {
    } else {
      FeedStopsAtError(st, r, prices[..|prices| - 1]);
    }
  }

  lemma {:induction false} FeedAppend<S, P>(st: Strategy<S, P>, r: Run<S, P>, a: seq<StockPrice>, b: seq<StockPrice>)
    ensures FeedFrom(st, r, a + b) == FeedFrom(st, FeedFrom(st, r, a), b)
  {
    if b == [] {
      assert a + b == a;
    } else {
      hide FeedFrom, FeedPrice;
      var init, last := b[..|b| - 1], b[|b| - 1];
      FeedAppend(st, r, a, init);
      FeedSnoc(st, r, a + init, last);
      FeedSnoc(st, FeedFrom(st, r, a), init, last);
      assert b == init + [last];
      Associate(a, init, [last]);
    }
  }

  lemma FeedEndsAtError<S, P>(st: Strategy<S, P>, r: Run<S, P>, prices: seq<StockPrice>, i: nat)
    requires i <= |prices| && FeedFrom(st, r, prices[..i]).error.Some?
    ensures FeedFrom(st, r, prices) == FeedFrom(st, r, prices[..i])
  {
    assert prices == prices[..i] + prices[i..];
    FeedAppend(st, r, prices[..i], prices[i..]);
    FeedStopsAtError(st, FeedFrom(st, r, prices[..i]), prices[i..]);
  }

  /** A call that returns has handled every price, and its result passes its own checks. */
  lemma {:induction false} FeedCounts<S, P>(st: Strategy<S, P>, cells: Cells<S>, prices: seq<StockPrice>)
    ensures
      var r := Feed(st, cells, prices);
      && (r.error.None? ==> r.processed + r.skipped == |prices|)
      && (r.processed == 0 ==> r.signals == [])
      && (r.error.None? ==> Summarize(r, |prices|).Accepted())
  {
    if prices == [] {
    } else {
      FeedCounts(st, cells, prices[..|prices| - 1]);
    }
  }

  // ---- The engine object ----

  function Lookup<V>(m: map<string, V>, code: string): Option<V> {
    if code in m then Some(m[code]) else None
  }

  /** Three dictionaries by code, read as one cell per code with a history. */
  function CellsFrom<S>(
    strategies: map<string, S>, bars: map<string, seq<HistoricalBar>>, lasts: map<string, int>): Cells<S>
  {
    map code | code in bars :: Cell(Lookup(strategies, code), bars[code], Lookup(lasts, code))
  }

  lemma CellsChangeAt<S>(
    s: map<string, S>, b: map<string, seq<HistoricalBar>>, l: map<string, int>,
    s': map<string, S>, b': map<string, seq<HistoricalBar>>, l': map<string, int>, code: string)
    requires code in b' && b'.Keys == b.Keys + {code}
    requires forall c :: c != code ==>
               Lookup(s', c) == Lookup(s, c) && Lookup(b', c) == Lookup(b, c) && Lookup(l', c) == Lookup(l, c)
    ensures CellsFrom(s', b', l') ==
            CellsFrom(s, b, l)[code := Cell(Lookup(s', code), b'[code], Lookup(l', code))]
  {
    forall c | c in b && c != code
      ensures b'[c] == b[c]
    {
      assert Lookup(b', c) == Lookup(b, c);
    }
  }

  class RealtimeSignalEngine<S(!new), P(!new)> {
    const strategy: Strategy<S, P>
    var strategies: map<string, S>
    var barsByCode: map<string, seq<HistoricalBar>>
    var lastProcessedAt: map<string, int>

    ghost predicate Valid()
      reads this
    {
      strategies.Keys <= barsByCode.Keys && lastProcessedAt.Keys <= barsByCode.Keys
    }

    /** The engine's three dictionaries as one cell per code. */
    ghost function Cells(): Cells<S>
      reads this
    {
      CellsFrom(strategies, barsByCode, lastProcessedAt)
    }

    constructor (strategy: Strategy<S, P>)
      ensures Valid() && Cells() == map[] && this.strategy == strategy
    {
      this.strategy := strategy;
      strategies, barsByCode, lastProcessedAt := map[], map[], map[];
    }

    method Process(prices: seq<StockPrice>) returns (r: Outcome<ProcessResult<P>, string>)
      requires Valid()
      modifies this
      ensures Valid() && Cells() == ProcessRun(strategy, old(Cells()), prices).cells
      ensures
        var run := ProcessRun(strategy, old(Cells()), prices);
        r == if run.error.Some? then Raised(run.error.value) else Returned(Summarize(run, |prices|))
    {
      var ordered := Sort(prices, PriceLeq);
      SortMembers(prices, PriceLeq);
      var processed, skipped, generated, error := FeedAll(ordered);
      if error.Some? {
        return Raised(error.value);
      }
      FeedCounts(strategy, old(Cells()), ordered);
      var result := Summary(processed, skipped, generated, |prices|);
      r := if result.Accepted() then Returned(result) else Raised(BAD_RESULT);
    }

    /** The loop over the ordered prices. */
    method FeedAll(ordered: seq<StockPrice>)
      returns (processed: nat, skipped: nat, generated: seq<TradeSignal<P>>, error: Option<string>)
      requires Valid()
      modifies this
      ensures Valid()
      ensures Run(Cells(), generated, processed, skipped, error) == Feed(strategy, old(Cells()), ordered)
    {
      processed, skipped, generated, error := 0, 0, [], None;
      for i := 0 to |ordered|
        invariant Valid()
        invariant Run(Cells(), generated, processed, skipped, None) == Feed(strategy, old(Cells()), ordered[..i])
        invariant error.None?
      {
        assert ordered[..i + 1] == ordered[..i] + [ordered[i]];
        FeedSnoc(strategy, Idle(old(Cells())), ordered[..i], ordered[i]);
        var code, handled := Handle(ordered[i], Feed(strategy, old(Cells()), ordered[..i]));
        if handled.Raised? {
          FeedEndsAtError(strategy, Idle(old(Cells())), ordered, i + 1);
          error := Some(handled.fault);
          return;
        }
        if handled.value.None? {
          skipped := skipped + 1;
        } else {
          generated := generated + Tagged(code, handled.value.value);
          processed := processed + 1;
        }
      }
      assert ordered[..|ordered|] == ordered;
    }

    /** One price: skipped as already seen, or applied to its code. */
    method Handle(price: StockPrice, ghost r: Run<S, P>)
      returns (code: string, handled: Outcome<Option<seq<P>>, string>)
      requires Valid() && r.error.None? && r.cells == Cells()
      modifies this
      ensures Valid()
      ensures
        FeedPrice(strategy, r, price) ==
        match handled
        case Raised(error) => r.(cells := Cells(), error := Some(error))
        case Returned(None) => r.(cells := Cells(), skipped := r.skipped + 1)
        case Returned(Some(payloads)) =>
          r.(cells := Cells(), processed := r.processed + 1, signals := r.signals + Tagged(code, payloads))
    {
      var normalized := NormalizeCode(price.code);
      if normalized.None? {
        return "", Raised(BAD_CODE);
      }
      code := normalized.value;
      if code in lastProcessedAt && price.time <= lastProcessedAt[code] {
        return code, Returned(None);
      }
      var verdict := Apply(HistoricalBar(code, price.time, price.quote));
      handled := if verdict.Raised? then Raised(verdict.fault) else Returned(Some(verdict.value));
    }

    /** One new bar: it joins the history, then the strategy evaluates it. */
    method Apply(bar: HistoricalBar) returns (r: Outcome<seq<P>, string>)
      requires Valid()
      modifies this
      ensures Valid()
      ensures
        var (cell, verdict) := ApplyBar(strategy, CellOf(old(Cells()), bar.code), bar);
        Cells() == old(Cells())[bar.code := cell] && r == verdict
    {
      var code := bar.code;
      ghost var s0, b0, l0 := strategies, barsByCode, lastProcessedAt;
      var visible := (if code in barsByCode then barsByCode[code] else []) + [bar];
      barsByCode := barsByCode[code := visible];
      if code !in strategies {
        var created := strategy.create(code);
        if created.Raised? {
          CellsChangeAt(s0, b0, l0, strategies, barsByCode, lastProcessedAt, code);
          return Raised(created.fault);
        }
        strategies := strategies[code := created.value];
      }
      if !FrameAccepted(visible) {
        CellsChangeAt(s0, b0, l0, strategies, barsByCode, lastProcessedAt, code);
        return Raised(FUTURE_BAR);
      }
      var (s, verdict) := strategy.evaluate(strategies[code], visible);
      strategies := strategies[code := s];
      if verdict.Returned? {
        lastProcessedAt := lastProcessedAt[code := bar.openedAt];
      }
      CellsChangeAt(s0, b0, l0, strategies, barsByCode, lastProcessedAt, code);
      r := verdict;
    }

    method ResetAll()
      modifies this
      ensures Valid() && Cells() == map[]
    {
      strategies, barsByCode, lastProcessedAt := map[], map[], map[];
    }

    method ResetCode(code: string) returns (r: Outcome<(), string>)
      requires Valid()
      modifies this
      ensures Valid()
      ensures NormalizeCode(code).None? ==> r == Raised(BAD_CODE) && Cells() == old(Cells())
      ensures NormalizeCode(code).Some? ==>
                r == Returned(()) && Cells() == old(Cells()) - {NormalizeCode(code).value}
    {
      var normalized := NormalizeCode(code);
      if normalized.None? {
        return Raised(BAD_CODE);
      }
      strategies := strategies - {normalized.value};
      barsByCode := barsByCode - {normalized.value};
      lastProcessedAt := lastProcessedAt - {normalized.value};
      r := Returned(());
    }

    method LastProcessedAt(code: string) returns (r: Outcome<Option<int>, string>)
      requires Valid()
      ensures r == match NormalizeCode(code)
                   case None => Raised(BAD_CODE)
                   case Some(c) => Returned(CellOf(Cells(), c).last)
    {
      var normalized := NormalizeCode(code);
      if normalized.None? {
        return Raised(BAD_CODE);
      }
      var c := normalized.value;
      r := Returned(if c in lastProcessedAt then Some(lastProcessedAt[c]) else None);
    }
  }
}
