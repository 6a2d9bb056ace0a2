/**
 What the signal engine promises: each code is handled as if it were alone, a
 call returns exactly when no code's strategy breaks, and cutting a stream of
 bars into calls changes nothing exactly when no bar comes late.
 */
module SignalEngineTheorems {
  import opened Wrappers
  import opened MarketBars
  import opened Sorting
  import opened SignalEngine

  // ---- One code on its own ----

  datatype CellRun<S, P> = CellRun(cell: Cell<S>, payloads: seq<P>, error: Option<string>)

  function FeedBar<S, P>(st: Strategy<S, P>, r: CellRun<S, P>, bar: HistoricalBar): CellRun<S, P> {
    if r.error.Some? || Seen(r.cell.last, bar.openedAt) then r
    else
      var (cell, verdict) := ApplyBar(st, r.cell, bar);
      match verdict
      case Raised(error) => CellRun(cell, r.payloads, Some(error))
      case Returned(payloads) => CellRun(cell, r.payloads + payloads, None)
  }

  function FeedCell<S, P>(st: Strategy<S, P>, r: CellRun<S, P>, bars: seq<HistoricalBar>): CellRun<S, P> {
    if bars == [] then r
    else FeedBar(st, FeedCell(st, r, bars[..|bars| - 1]), bars[|bars| - 1])
  }

  function Alone<S, P>(st: Strategy<S, P>, cells: Cells<S>, code: string, prices: seq<StockPrice>): CellRun<S, P> {
    FeedCell(st, CellRun(CellOf(cells, code), [], None), BarsOf(prices, code))
  }

  function PayloadsOf<P>(signals: seq<TradeSignal<P>>, code: string): seq<P> {
    if signals == [] then []
    else
      var init, last := signals[..|signals| - 1], signals[|signals| - 1];
      PayloadsOf(init, code) + if last.code == code then [last.payload] else []
  }

  lemma TaggedSnoc<P>(tag: string, payloads: seq<P>)
    requires payloads != []
    ensures
      var init, last := payloads[..|payloads| - 1], payloads[|payloads| - 1];
      Tagged(tag, payloads) == Tagged(tag, init) + [TradeSignal(tag, last)]
  {
  }

  lemma PayloadsSnoc<P>(signals: seq<TradeSignal<P>>, last: TradeSignal<P>, code: string)
    ensures PayloadsOf(signals + [last], code) ==
            PayloadsOf(signals, code) + if last.code == code then [last.payload] else []
  {
    assert (signals + [last])[..|signals|] == signals;
  }

  lemma {:induction false} PayloadsOfTagged<P>(
    signals: seq<TradeSignal<P>>, tag: string, payloads: seq<P>, code: string)
    ensures PayloadsOf(signals + Tagged(tag, payloads), code) ==
            PayloadsOf(signals, code) + if tag == code then payloads else []
    decreases |payloads|
  {
    if payloads == [] {
      assert signals + Tagged(tag, payloads) == signals;
    } else {
      hide PayloadsOf, Tagged;
      var init, last := payloads[..|payloads| - 1], payloads[|payloads| - 1];
      PayloadsOfTagged(signals, tag, init, code);
      TaggedSnoc(tag, payloads);
      PayloadsSnoc(signals + Tagged(tag, init), TradeSignal(tag, last), code);
      Associate(signals, Tagged(tag, init), [TradeSignal(tag, last)]);
      Associate(PayloadsOf(signals, code), init, [last]);
      assert payloads == init + [last];
    }
  }

  lemma FeedCellSnoc<S, P>(st: Strategy<S, P>, r: CellRun<S, P>, bars: seq<HistoricalBar>, bar: HistoricalBar)
    ensures FeedCell(st, r, bars + [bar]) == FeedBar(st, FeedCell(st, r, bars), bar)
  {
    assert (bars + [bar])[..|bars|] == bars;
  }

  /** One more price touches only the cell and the signals of its own code. */
  lemma FeedPriceIsolated<S, P>(st: Strategy<S, P>, r: Run<S, P>, p: StockPrice, code: string, alone: CellRun<S, P>)
    requires r.error.None? && alone == CellRun(CellOf(r.cells, code), PayloadsOf(r.signals, code), None)
    ensures
      var next := FeedPrice(st, r, p);
      var bars := BarsOf([p], code);
      var after := if bars == [] then alone else FeedBar(st, alone, bars[0]);
      && CellOf(next.cells, code) == after.cell && PayloadsOf(next.signals, code) == after.payloads
      && (next.error.None? ==> after.error.None?)
      && (next.error.Some? && NormalizeCode(p.code) == Some(code) ==> after.error == next.error)
      && (next.error.Some? && NormalizeCode(p.code).None? ==> next.error == Some(BAD_CODE))
  {
    BarsOfSnoc([], p, code);
    assert [] + [p] == [p];
    var normalized := NormalizeCode(p.code);
    if normalized.Some? && !Seen(CellOf(r.cells, normalized.value).last, p.time) {
      var verdict := ApplyBar(
        st, CellOf(r.cells, normalized.value), HistoricalBar(normalized.value, p.time, p.quote)).1;
      if verdict.Returned? {
        PayloadsOfTagged(r.signals, normalized.value, verdict.value, code);
      }
    }
  }

  /**
   In a call that returns, the cell and the signals of every code are those of
   feeding that code's bars alone.
   */
  lemma {:induction false} Isolation<S, P>(st: Strategy<S, P>, cells: Cells<S>, prices: seq<StockPrice>, code: string)
    requires Feed(st, cells, prices).error.None?
    ensures
      var r := Feed(st, cells, prices);
      CellRun(CellOf(r.cells, code), PayloadsOf(r.signals, code), None) == Alone(st, cells, code, prices)
  {
    if prices == [] {
    } else {
      var init, last := prices[..|prices| - 1], prices[|prices| - 1];
      Isolation(st, cells, init, code);
      FeedPriceIsolated(st, Feed(st, cells, init), last, code, Alone(st, cells, code, init));
      BarsOfSnoc([], last, code);
      assert [] + [last] == [last];
      if NormalizeCode(last.code) == Some(code) {
        FeedCellSnoc(st, CellRun(CellOf(cells, code), [], None), BarsOf(init, code), BarsOf([last], code)[0]);
      }
    }
  }

  ghost predicate CodesValid(prices: seq<StockPrice>) {
    forall p :: p in prices ==> NormalizeCode(p.code).Some?
  }

  lemma {:induction false} ReturnsOnlyIf<S, P>(st: Strategy<S, P>, cells: Cells<S>, prices: seq<StockPrice>)
    requires Feed(st, cells, prices).error.None?
    ensures CodesValid(prices)
  {
    if prices == [] {
    } else {
      ReturnsOnlyIf(st, cells, prices[..|prices| - 1]);
      assert forall p :: p in prices ==> p in prices[..|prices| - 1] || p == prices[|prices| - 1];
    }
  }

  lemma AlonePrefix<S, P>(st: Strategy<S, P>, cells: Cells<S>, code: string, prices: seq<StockPrice>)
    requires prices != []
    ensures
      var init, last := prices[..|prices| - 1], prices[|prices| - 1];
      Alone(st, cells, code, prices) ==
      if NormalizeCode(last.code) == Some(code)
      then FeedBar(st, Alone(st, cells, code, init), HistoricalBar(code, last.time, last.quote))
      else Alone(st, cells, code, init)
  {
    var init, last := prices[..|prices| - 1], prices[|prices| - 1];
    FeedCellSnoc(st, CellRun(CellOf(cells, code), [], None), BarsOf(init, code),
                 HistoricalBar(code, last.time, last.quote));
  }

  lemma {:induction false} ReturnsIf<S, P>(st: Strategy<S, P>, cells: Cells<S>, prices: seq<StockPrice>)
    requires CodesValid(prices)
    requires forall code :: Alone(st, cells, code, prices).error.None?
    ensures Feed(st, cells, prices).error.None?
  {
    if prices == [] {
    } else {
      var init, last := prices[..|prices| - 1], prices[|prices| - 1];
      forall code
        ensures Alone(st, cells, code, init).error.None?
      {
        AlonePrefix(st, cells, code, prices);
      }
      ReturnsIf(st, cells, init);
      assert last in prices;
      var code := NormalizeCode(last.code).value;
      AlonePrefix(st, cells, code, prices);
      Isolation(st, cells, init, code);
    }
  }

  /** A call returns exactly when every code is valid and no code, fed alone, breaks. */
  lemma ReturnsExactly<S, P>(st: Strategy<S, P>, cells: Cells<S>, prices: seq<StockPrice>)
    ensures Feed(st, cells, prices).error.None? <==>
            CodesValid(prices) && forall code :: Alone(st, cells, code, prices).error.None?
  {
    if Feed(st, cells, prices).error.None? {
      ReturnsOnlyIf(st, cells, prices);
      forall code
        ensures Alone(st, cells, code, prices).error.None?
      {
        Isolation(st, cells, prices, code);
      }
    } else if CodesValid(prices) && forall code :: Alone(st, cells, code, prices).error.None? {
      ReturnsIf(st, cells, prices);
    }
  }

  // ---- Which bars reach the strategy ----

  function Newest(w: Option<int>, bars: seq<HistoricalBar>): Option<int> {
    if bars == [] then w else Some(bars[|bars| - 1].openedAt)
  }

  /** The bars that are not skipped, from a watermark on. */
  function Fresh(w: Option<int>, bars: seq<HistoricalBar>): seq<HistoricalBar> {
    if bars == [] then []
    else
      var init, last := Fresh(w, bars[..|bars| - 1]), bars[|bars| - 1];
      if Seen(Newest(w, init), last.openedAt) then init else init + [last]
  }

  lemma BarTaken<S, P>(st: Strategy<S, P>, r: CellRun<S, P>, bar: HistoricalBar)
    ensures
      var after := FeedBar(st, r, bar);
      if r.error.Some? || Seen(r.cell.last, bar.openedAt) then after == r
      else after.error.None? ==> after.cell.last == Some(bar.openedAt) && after.cell.bars == r.cell.bars + [bar]
  {
  }

  /** Feeding bars is feeding those that are not skipped; they extend the history. */
  lemma {:induction false} SkippedBarsLeaveNoTrace<S, P>(st: Strategy<S, P>, r: CellRun<S, P>, bars: seq<HistoricalBar>)
    requires r.error.None?
    ensures
      var taken := Fresh(r.cell.last, bars);
      var after := FeedCell(st, r, bars);
      && after == FeedCell(st, r, taken)
      && (after.error.None? ==>
            after.cell.last == Newest(r.cell.last, taken) && after.cell.bars == r.cell.bars + taken)
  {
    hide FeedBar;
    if bars == [] {
    } else {
      var init, last := bars[..|bars| - 1], bars[|bars| - 1];
      SkippedBarsLeaveNoTrace(st, r, init);
      BarTaken(st, FeedCell(st, r, init), last);
      FeedCellSnoc(st, r, Fresh(r.cell.last, init), last);
    }
  }

  predicate OpensBefore(a: HistoricalBar, b: HistoricalBar) {
    a.openedAt <= b.openedAt
  }

  lemma {:induction false} FreshIsStrict(w: Option<int>, bars: seq<HistoricalBar>)
    ensures StrictlyOrdered(Fresh(w, bars), OpensBefore)
    ensures forall a :: a in Fresh(w, bars) ==> a in bars && !Seen(w, a.openedAt)
    ensures Fresh(w, bars) != [] ==> !Seen(w, Newest(w, Fresh(w, bars)).value)
  {
    if bars == [] {
    } else {
      hide StrictlyOrdered, Fresh;
      var init, last := bars[..|bars| - 1], bars[|bars| - 1];
      FreshIsStrict(w, init);
      FreshSnoc(w, bars);
      if Fresh(w, bars) == Fresh(w, init) {
        assert forall a :: a in init ==> a in bars;
      } else {
        StrictlyOneMore(Fresh(w, init), last);
        forall a | a in Fresh(w, init) + [last]
          ensures a in bars && !Seen(w, a.openedAt)
        {
          assert a == last || a in init;
        }
      }
    }
  }

  lemma FreshSnoc(w: Option<int>, bars: seq<HistoricalBar>)
    requires bars != []
    ensures
      var init, last := Fresh(w, bars[..|bars| - 1]), bars[|bars| - 1];
      Fresh(w, bars) == if Seen(Newest(w, init), last.openedAt) then init else init + [last]
  {
  }

  lemma StrictlyOneMore(taken: seq<HistoricalBar>, b: HistoricalBar)
    requires StrictlyOrdered(taken, OpensBefore)
    requires taken != [] ==> taken[|taken| - 1].openedAt < b.openedAt
    ensures StrictlyOrdered(taken + [b], OpensBefore)
  {
    assert forall i :: 0 <= i < |taken| - 1 ==> OpensBefore(taken[i], taken[|taken| - 1]);
  }

  ghost predicate HasTime(bars: seq<HistoricalBar>, t: int) {
    exists a :: a in bars && a.openedAt == t
  }

  ghost predicate Covers(w: Option<int>, taken: seq<HistoricalBar>, bars: seq<HistoricalBar>) {
    forall b :: b in bars && !Seen(w, b.openedAt) ==> HasTime(taken, b.openedAt)
  }

  /** In time order no bar newer than the watermark is lost. */
  lemma {:induction false} FreshCovers(w: Option<int>, bars: seq<HistoricalBar>)
    requires TimesOrdered(bars)
    ensures Covers(w, Fresh(w, bars), bars)
  {
    if bars == [] {
    } else {
      var init, last := bars[..|bars| - 1], bars[|bars| - 1];
      FreshCovers(w, init);
      LastIsCovered(w, bars);
      FreshGrows(w, bars);
      hide Fresh, HasTime;
      forall b | b in bars && !Seen(w, b.openedAt)
        ensures HasTime(Fresh(w, bars), b.openedAt)
      {
        if b in init {
          TimesGrow(Fresh(w, init), Fresh(w, bars), b.openedAt);
        } else {
          assert b == last;
        }
      }
    }
  }

  lemma FreshGrows(w: Option<int>, bars: seq<HistoricalBar>)
    requires bars != []
    ensures Fresh(w, bars[..|bars| - 1]) <= Fresh(w, bars)
  {
  }

  lemma TimesGrow(taken: seq<HistoricalBar>, more: seq<HistoricalBar>, t: int)
    requires taken <= more && HasTime(taken, t)
    ensures HasTime(more, t)
  {
    var a :| a in taken && a.openedAt == t;
    assert a in more;
  }

  lemma LastIsCovered(w: Option<int>, bars: seq<HistoricalBar>)
    requires TimesOrdered(bars) && bars != []
    ensures !Seen(w, bars[|bars| - 1].openedAt) ==> HasTime(Fresh(w, bars), bars[|bars| - 1].openedAt)
  {
    var init, last := bars[..|bars| - 1], bars[|bars| - 1];
    var taken := Fresh(w, init);
    if !Seen(Newest(w, taken), last.openedAt) {
      assert (taken + [last])[|taken|] == last;
    } else if taken != [] {
      FreshIsStrict(w, init);
      assert taken[|taken| - 1] in init;
      assert taken[|taken| - 1].openedAt == last.openedAt;
    }
  }

  /** No bar that was fed is newer than the newest one taken. */
  lemma {:induction false} FreshBounds(w: Option<int>, bars: seq<HistoricalBar>)
    ensures forall b :: b in bars ==> Seen(Newest(w, Fresh(w, bars)), b.openedAt)
  {
    if bars == [] {
    } else {
      FreshBounds(w, bars[..|bars| - 1]);
      FreshIsStrict(w, bars[..|bars| - 1]);
    }
  }

  lemma {:induction false} FreshAppend(w: Option<int>, a: seq<HistoricalBar>, b: seq<HistoricalBar>)
    ensures Fresh(w, a + b) == Fresh(w, a) + Fresh(Newest(w, Fresh(w, a)), b)
  {
    if b == [] {
      assert a + b == a;
    } else {
      var init, last := b[..|b| - 1], b[|b| - 1];
      FreshAppend(w, a, init);
      assert (a + b)[..|a + b| - 1] == a + init && (a + b)[|a + b| - 1] == last;
      var x, y := Fresh(w, a), Fresh(Newest(w, Fresh(w, a)), init);
      assert Newest(w, x + y) == Newest(Newest(w, x), y);
      assert x + (y + [last]) == x + y + [last];
    }
  }

  // ---- Several calls in a row ----

  function Join<S, P>(r: Run<S, P>, x: Run<S, P>): Run<S, P> {
    Run(x.cells, r.signals + x.signals, r.processed + x.processed, r.skipped + x.skipped, x.error)
  }

  /** The calls made one after another, until one raises. */
  function Successive<S, P>(st: Strategy<S, P>, cells: Cells<S>, batches: seq<seq<StockPrice>>): Run<S, P> {
    if batches == [] then Idle(cells)
    else
      var r := Successive(st, cells, batches[..|batches| - 1]);
      if r.error.Some? then r else Join(r, ProcessRun(st, r.cells, batches[|batches| - 1]))
  }

  function Flatten(batches: seq<seq<StockPrice>>): seq<StockPrice> {
    if batches == [] then [] else Flatten(batches[..|batches| - 1]) + batches[|batches| - 1]
  }

  /** The prices in the order the calls handle them. */
  function Resorted(batches: seq<seq<StockPrice>>): seq<StockPrice> {
    if batches == [] then []
    else Resorted(batches[..|batches| - 1]) + Sort(batches[|batches| - 1], PriceLeq)
  }

  lemma FeedPriceJoins<S, P>(st: Strategy<S, P>, r: Run<S, P>, x: Run<S, P>, p: StockPrice)
    ensures FeedPrice(st, Join(r, x), p) == Join(r, FeedPrice(st, x, p))
  {
    var code := NormalizeCode(p.code);
    if x.error.None? && code.Some? && !Seen(CellOf(x.cells, code.value).last, p.time) {
      var verdict := ApplyBar(st, CellOf(x.cells, code.value), HistoricalBar(code.value, p.time, p.quote)).1;
      if verdict.Returned? {
        assert r.signals + (x.signals + Tagged(code.value, verdict.value)) ==
               (r.signals + x.signals) + Tagged(code.value, verdict.value);
      }
    }
  }

  lemma {:induction false} FeedJoins<S, P>(st: Strategy<S, P>, r: Run<S, P>, prices: seq<StockPrice>)
    requires r.error.None?
    ensures FeedFrom(st, r, prices) == Join(r, Feed(st, r.cells, prices))
  {
    if prices == [] {
    } else {
      var init := prices[..|prices| - 1];
      FeedJoins(st, r, init);
      FeedPriceJoins(st, r, Feed(st, r.cells, init), prices[|prices| - 1]);
    }
  }

  lemma {:induction false} SuccessiveIsOneFeed<S, P>(st: Strategy<S, P>, cells: Cells<S>, batches: seq<seq<StockPrice>>)
    ensures Successive(st, cells, batches) == Feed(st, cells, Resorted(batches))
  {
    if batches == [] {
    } else {
      var init, last := batches[..|batches| - 1], Sort(batches[|batches| - 1], PriceLeq);
      SuccessiveIsOneFeed(st, cells, init);
      var r := Successive(st, cells, init);
      FeedAppend(st, Idle(cells), Resorted(init), last);
      if r.error.Some? {
        FeedStopsAtError(st, r, last);
      } else {
        FeedJoins(st, r, last);
      }
    }
  }

  lemma {:induction false} SameBars(batches: seq<seq<StockPrice>>, code: string)
    ensures forall b :: b in BarsOf(Resorted(batches), code) <==> b in BarsOf(Flatten(batches), code)
  {
    if batches == [] {
    } else {
      var init, last := batches[..|batches| - 1], batches[|batches| - 1];
      SameBars(init, code);
      BarsOfSorted(last, code);
      BarsOfAppend(Flatten(init), last, code);
      BarsOfAppend(Resorted(init), Sort(last, PriceLeq), code);
    }
  }

  /** A bar comes in time if it was already handled, or opens after all bars fed before. */
  ghost predicate InTime(w: Option<int>, earlier: seq<HistoricalBar>, b: HistoricalBar) {
    Seen(w, b.openedAt) || HasTime(earlier, b.openedAt) || forall a :: a in earlier ==> a.openedAt < b.openedAt
  }

  /** Every bar of every batch comes in time, given the batches before it. */
  ghost predicate NoneLate(w: Option<int>, batches: seq<seq<StockPrice>>, code: string) {
    batches == [] ||
    var init, last := batches[..|batches| - 1], batches[|batches| - 1];
    && NoneLate(w, init, code)
    && forall b :: b in BarsOf(last, code) ==> InTime(w, BarsOf(Flatten(init), code), b)
  }

  /** One more batch: what it adds is covered exactly when none of it is late. */
  lemma BatchCovered(w: Option<int>, before: seq<HistoricalBar>, batch: seq<HistoricalBar>)
    requires TimesOrdered(batch)
    ensures
      Covers(w, Fresh(w, before + batch), before + batch) <==>
      Covers(w, Fresh(w, before), before) && forall b :: b in batch ==> InTime(w, before, b)
  {
    var past, n := Fresh(w, before), Newest(w, Fresh(w, before));
    var added := Fresh(n, batch);
    FreshAppend(w, before, batch);
    FreshBounds(w, before);
    FreshIsStrict(w, before);
    FreshIsStrict(n, batch);
    FreshCovers(n, batch);
    if Covers(w, past + added, before + batch) {
      forall b | b in before && !Seen(w, b.openedAt)
        ensures HasTime(past, b.openedAt)
      {
        assert b in before + batch;
        var a: HistoricalBar :| a in past + added && a.openedAt == b.openedAt;
      }
      forall b | b in batch
        ensures InTime(w, before, b)
      {
        if !Seen(w, b.openedAt) {
          assert b in before + batch;
          var a: HistoricalBar :| a in past + added && a.openedAt == b.openedAt;
        }
      }
    }
    if Covers(w, past, before) && forall b :: b in batch ==> InTime(w, before, b) {
      forall b | b in before + batch && !Seen(w, b.openedAt)
        ensures HasTime(past + added, b.openedAt)
      {
        if HasTime(before, b.openedAt) {
          var a :| a in before && a.openedAt == b.openedAt;
          var a' :| a' in past && a'.openedAt == a.openedAt;
          assert a' in past + added;
        } else {
          assert b in batch && !Seen(n, b.openedAt);
          var a :| a in added && a.openedAt == b.openedAt;
          assert a in past + added;
        }
      }
    }
  }

  lemma {:induction false} CoveredExactly(w: Option<int>, batches: seq<seq<StockPrice>>, code: string)
    ensures
      var bars := BarsOf(Resorted(batches), code);
      Covers(w, Fresh(w, bars), bars) <==> NoneLate(w, batches, code)
  {
    if batches == [] {
    } else {
      var init, last := batches[..|batches| - 1], batches[|batches| - 1];
      CoveredExactly(w, init, code);
      SameBars(init, code);
      BarsOfSorted(last, code);
      BarsOfAppend(Resorted(init), Sort(last, PriceLeq), code);
      var before, batch := BarsOf(Resorted(init), code), BarsOf(Sort(last, PriceLeq), code);
      BatchCovered(w, before, batch);
      InTimeBySet(w, before, BarsOf(Flatten(init), code), batch, BarsOf(last, code));
    }
  }

  lemma InTimeBySet(
    w: Option<int>, a: seq<HistoricalBar>, a': seq<HistoricalBar>, b: seq<HistoricalBar>, b': seq<HistoricalBar>)
    requires forall x :: x in a <==> x in a'
    requires forall x :: x in b <==> x in b'
    ensures (forall x :: x in b ==> InTime(w, a, x)) <==> (forall x :: x in b' ==> InTime(w, a', x))
  {
    forall x
      ensures InTime(w, a, x) <==> InTime(w, a', x)
    {
      if HasTime(a, x.openedAt) {
        var y :| y in a && y.openedAt == x.openedAt;
        assert y in a';
      }
      if HasTime(a', x.openedAt) {
        var y :| y in a' && y.openedAt == x.openedAt;
        assert y in a;
      }
    }
  }

  /** Prices for one code and opening time agree, unless the code is written the same way in both. */
  ghost predicate Consistent(prices: seq<StockPrice>) {
    forall p, q | p in prices && q in prices && p.time == q.time && p.code != q.code ::
      NormalizeCode(p.code).Some? && NormalizeCode(p.code) == NormalizeCode(q.code) ==> p.quote == q.quote
  }

  /** The first bar that opens at the time. */
  function Earliest(bars: seq<HistoricalBar>, t: int): Option<HistoricalBar> {
    if bars == [] then None
    else
      var before, last := Earliest(bars[..|bars| - 1], t), bars[|bars| - 1];
      if before.Some? then before else if last.openedAt == t then Some(last) else None
  }

  lemma {:induction false} EarliestAppend(a: seq<HistoricalBar>, b: seq<HistoricalBar>, t: int)
    ensures Earliest(a + b, t) == if Earliest(a, t).Some? then Earliest(a, t) else Earliest(b, t)
  {
    if b == [] {
      assert a + b == a;
    } else {
      EarliestAppend(a, b[..|b| - 1], t);
      assert (a + b)[..|a + b| - 1] == a + b[..|b| - 1];
    }
  }

  /** What is kept of bars for one time is the first of them. */
  lemma {:induction false} FreshIsEarliest(w: Option<int>, bars: seq<HistoricalBar>, a: HistoricalBar)
    requires a in Fresh(w, bars)
    ensures Earliest(bars, a.openedAt) == Some(a)
  {
    var init := bars[..|bars| - 1];
    if a in Fresh(w, init) {
      FreshIsEarliest(w, init, a);
    } else {
      FreshBounds(w, init);
      NoneEarlier(init, a.openedAt);
    }
  }

  lemma {:induction false} NoneEarlier(bars: seq<HistoricalBar>, t: int)
    ensures Earliest(bars, t).None? <==> forall b :: b in bars ==> b.openedAt != t
  {
    if bars == [] {
    } else {
      var init, last := bars[..|bars| - 1], bars[|bars| - 1];
      NoneEarlier(init, t);
      assert forall b :: b in bars <==> b in init || b == last;
    }
  }

  function FirstOf(prices: seq<StockPrice>, code: string, t: int): Option<HistoricalBar> {
    Earliest(BarsOf(prices, code), t)
  }

  lemma FirstAppend(a: seq<StockPrice>, b: seq<StockPrice>, code: string, t: int)
    ensures FirstOf(a + b, code, t) == if FirstOf(a, code, t).Some? then FirstOf(a, code, t) else FirstOf(b, code, t)
  {
    BarsOfAppend(a, b, code);
    EarliestAppend(BarsOf(a, code), BarsOf(b, code), t);
  }

  lemma FirstOfOne(p: StockPrice, code: string, t: int)
    ensures FirstOf([p], code, t) ==
            if IsFor(p, code) && p.time == t then Some(HistoricalBar(code, t, p.quote)) else None
  {
    BarsOfSnoc([], p, code);
    assert [] + [p] == [p];
    if IsFor(p, code) {
      EarliestAppend([], [HistoricalBar(code, p.time, p.quote)], t);
    }
  }

  ghost predicate Agree(x: StockPrice, y: StockPrice, code: string, t: int) {
    var a, b := FirstOf([x], code, t), FirstOf([y], code, t);
    a.None? || b.None? || a == b
  }

  /** Two neighbours may change places unless they bring different bars for one time. */
  lemma SwapKeepsFirst(x: StockPrice, y: StockPrice, rest: seq<StockPrice>, code: string, t: int)
    requires Agree(x, y, code, t)
    ensures FirstOf([y] + ([x] + rest), code, t) == FirstOf([x] + ([y] + rest), code, t)
  {
    hide FirstOf;
    FirstAppend([x], rest, code, t);
    FirstAppend([y], rest, code, t);
    FirstAppend([x], [y] + rest, code, t);
    FirstAppend([y], [x] + rest, code, t);
  }

  /** What sorting moves past each other brings no different bars for one time. */
  lemma NoClash(x: StockPrice, y: StockPrice, prices: seq<StockPrice>, code: string, t: int)
    requires Consistent(prices) && x in prices && y in prices && !PriceLeq(x, y)
    ensures Agree(x, y, code, t)
  {
    FirstOfOne(x, code, t);
    FirstOfOne(y, code, t);
    PriceOrder();
    assert PriceLeq(x, x);
    hide FirstOf, LexLeq, NormalizeCode;
  }

  lemma {:induction false} InsertKeepsFirst(x: StockPrice, ys: seq<StockPrice>, code: string, t: int)
    requires Consistent([x] + ys)
    ensures FirstOf(Insert(x, ys, PriceLeq), code, t) == FirstOf([x] + ys, code, t)
  {
    hide FirstOf, PriceLeq, Consistent;
    if ys == [] || PriceLeq(x, ys[0]) {
    } else {
      var y, rest := ys[0], ys[1..];
      assert ys == [y] + rest;
      ConsistentPart([x] + ys, [x] + rest);
      InsertKeepsFirst(x, rest, code, t);
      FirstAppend([y], Insert(x, rest, PriceLeq), code, t);
      FirstAppend([y], [x] + rest, code, t);
      NoClash(x, y, [x] + ys, code, t);
      SwapKeepsFirst(x, y, rest, code, t);
    }
  }

  lemma ConsistentPart(prices: seq<StockPrice>, part: seq<StockPrice>)
    requires Consistent(prices) && forall p :: p in part ==> p in prices
    ensures Consistent(part)
  {
  }

  /** Sorting keeps which bar of a code comes first for a time. */
  lemma {:induction false} SortKeepsFirst(prices: seq<StockPrice>, code: string, t: int)
    requires Consistent(prices)
    ensures FirstOf(Sort(prices, PriceLeq), code, t) == FirstOf(prices, code, t)
  {
    if prices == [] {
    } else {
      var x, rest := prices[0], prices[1..];
      assert prices == [x] + rest && forall p :: p in rest ==> p in prices;
      SortKeepsFirst(rest, code, t);
      SortMembers(rest, PriceLeq);
      var sorted := Sort(rest, PriceLeq);
      assert forall p :: p in [x] + sorted ==> p in prices;
      InsertKeepsFirst(x, sorted, code, t);
      FirstAppend([x], sorted, code, t);
      FirstAppend([x], rest, code, t);
      hide FirstOf, Consistent;
    }
  }

  lemma {:induction false} ResortedKeepsFirst(batches: seq<seq<StockPrice>>, code: string, t: int)
    requires Consistent(Flatten(batches))
    ensures FirstOf(Resorted(batches), code, t) == FirstOf(Flatten(batches), code, t)
  {
    if batches == [] {
    } else {
      var init, last := batches[..|batches| - 1], batches[|batches| - 1];
      ResortedKeepsFirst(init, code, t);
      SortKeepsFirst(last, code, t);
      FirstAppend(Flatten(init), last, code, t);
      FirstAppend(Resorted(init), Sort(last, PriceLeq), code, t);
      hide FirstOf;
    }
  }

  lemma FreshByTimes(w: Option<int>, x: seq<HistoricalBar>, y: seq<HistoricalBar>)
    requires forall b :: b in x <==> b in y
    requires forall t :: Earliest(x, t) == Earliest(y, t)
    requires TimesOrdered(y)
    ensures Fresh(w, x) == Fresh(w, y) <==> Covers(w, Fresh(w, x), x)
  {
    FreshIsStrict(w, x);
    FreshIsStrict(w, y);
    FreshCovers(w, y);
    if Covers(w, Fresh(w, x), x) {
      forall b
        ensures b in Fresh(w, x) <==> b in Fresh(w, y)
      {
        if b in Fresh(w, x) {
          SameFirst(w, x, y, b);
        }
        if b in Fresh(w, y) {
          SameFirst(w, y, x, b);
        }
      }
      SameElementsSameSequence(Fresh(w, x), Fresh(w, y), OpensBefore);
    }
  }

  lemma SameFirst(w: Option<int>, x: seq<HistoricalBar>, y: seq<HistoricalBar>, b: HistoricalBar)
    requires b in Fresh(w, x) && b in y && !Seen(w, b.openedAt) && Covers(w, Fresh(w, y), y)
    requires forall t :: Earliest(x, t) == Earliest(y, t)
    ensures b in Fresh(w, y)
  {
    var a :| a in Fresh(w, y) && a.openedAt == b.openedAt;
    FreshIsEarliest(w, x, b);
    FreshIsEarliest(w, y, a);
  }

  /** The bars taken over several calls are those one call takes, exactly when none is late. */
  lemma SameBarsTaken(w: Option<int>, batches: seq<seq<StockPrice>>, code: string)
    requires Consistent(Flatten(batches))
    ensures
      Fresh(w, BarsOf(Resorted(batches), code)) == Fresh(w, BarsOf(Sort(Flatten(batches), PriceLeq), code))
      <==> NoneLate(w, batches, code)
  {
    SameBars(batches, code);
    BarsOfSorted(Flatten(batches), code);
    forall t
      ensures Earliest(BarsOf(Resorted(batches), code), t) ==
              Earliest(BarsOf(Sort(Flatten(batches), PriceLeq), code), t)
    {
      ResortedKeepsFirst(batches, code, t);
      SortKeepsFirst(Flatten(batches), code, t);
    }
    CoveredExactly(w, batches, code);
    FreshByTimes(w, BarsOf(Resorted(batches), code), BarsOf(Sort(Flatten(batches), PriceLeq), code));
  }

  lemma AloneTakes<S, P>(st: Strategy<S, P>, cells: Cells<S>, code: string, a: seq<StockPrice>, b: seq<StockPrice>)
    requires
      var w := CellOf(cells, code).last;
      Fresh(w, BarsOf(a, code)) == Fresh(w, BarsOf(b, code))
    ensures Alone(st, cells, code, a) == Alone(st, cells, code, b)
  {
    SkippedBarsLeaveNoTrace(st, CellRun(CellOf(cells, code), [], None), BarsOf(a, code));
    SkippedBarsLeaveNoTrace(st, CellRun(CellOf(cells, code), [], None), BarsOf(b, code));
  }

  lemma {:induction false} SamePrices(batches: seq<seq<StockPrice>>)
    ensures multiset(Resorted(batches)) == multiset(Flatten(batches))
  {
    if batches == [] {
    } else {
      SamePrices(batches[..|batches| - 1]);
    }
  }

  lemma SameCodesValid(batches: seq<seq<StockPrice>>)
    ensures CodesValid(Resorted(batches)) <==> CodesValid(Sort(Flatten(batches), PriceLeq))
  {
    SamePrices(batches);
    SortMembers(Flatten(batches), PriceLeq);
    forall p
      ensures p in Resorted(batches) <==> p in Flatten(batches)
    {
      assert p in Resorted(batches) <==> p in multiset(Resorted(batches));
      assert p in Flatten(batches) <==> p in multiset(Flatten(batches));
    }
  }

  /**
   Cutting a stream into calls, bars sent again included: when no bar comes
   late, the calls all return exactly when one call on everything does, and
   then every code has the same strategy state, history, watermark and signals.
   */
  lemma BatchingIndependence<S, P>(st: Strategy<S, P>, cells: Cells<S>, batches: seq<seq<StockPrice>>)
    requires Consistent(Flatten(batches))
    requires forall code :: NoneLate(CellOf(cells, code).last, batches, code)
    ensures
      var parts, whole := Successive(st, cells, batches), ProcessRun(st, cells, Flatten(batches));
      && (parts.error.None? <==> whole.error.None?)
      && (whole.error.None? ==> forall code ::
            && CellOf(parts.cells, code) == CellOf(whole.cells, code)
            && PayloadsOf(parts.signals, code) == PayloadsOf(whole.signals, code))
  {
    var a, b := Resorted(batches), Sort(Flatten(batches), PriceLeq);
    SuccessiveIsOneFeed(st, cells, batches);
    SameCodesValid(batches);
    forall code
      ensures Alone(st, cells, code, a) == Alone(st, cells, code, b)
    {
      SameBarsTaken(CellOf(cells, code).last, batches, code);
      AloneTakes(st, cells, code, a, b);
    }
    ReturnsExactly(st, cells, a);
    ReturnsExactly(st, cells, b);
    if Feed(st, cells, b).error.None? {
      forall code
        ensures CellOf(Feed(st, cells, a).cells, code) == CellOf(Feed(st, cells, b).cells, code)
        ensures PayloadsOf(Feed(st, cells, a).signals, code) == PayloadsOf(Feed(st, cells, b).signals, code)
      {
        Isolation(st, cells, a, code);
        Isolation(st, cells, b, code);
      }
    }
  }

  /**
   When both return, a code's history is the same over several calls as in one
   call exactly when none of its bars is late: a late bar is dropped for good.
   */
  lemma BatchingExactly<S, P>(st: Strategy<S, P>, cells: Cells<S>, batches: seq<seq<StockPrice>>, code: string)
    requires Consistent(Flatten(batches))
    requires Successive(st, cells, batches).error.None?
    requires ProcessRun(st, cells, Flatten(batches)).error.None?
    ensures
      var parts, whole := Successive(st, cells, batches), ProcessRun(st, cells, Flatten(batches));
      CellOf(parts.cells, code).bars == CellOf(whole.cells, code).bars
      <==> NoneLate(CellOf(cells, code).last, batches, code)
  {
    SuccessiveIsOneFeed(st, cells, batches);
    HistoryGrows(st, cells, Resorted(batches), code);
    HistoryGrows(st, cells, Sort(Flatten(batches), PriceLeq), code);
    var w := CellOf(cells, code).last;
    SameBarsTaken(w, batches, code);
    SameExtension(CellOf(cells, code).bars, Fresh(w, BarsOf(Resorted(batches), code)),
                  Fresh(w, BarsOf(Sort(Flatten(batches), PriceLeq), code)));
  }

  lemma SameExtension(a: seq<HistoricalBar>, x: seq<HistoricalBar>, y: seq<HistoricalBar>)
    ensures a + x == a + y <==> x == y
  {
    assert x == (a + x)[|a|..];
    assert y == (a + y)[|a|..];
  }

  /** A call that returns extends each history by exactly the bars it did not skip. */
  lemma HistoryGrows<S, P>(st: Strategy<S, P>, cells: Cells<S>, prices: seq<StockPrice>, code: string)
    requires Feed(st, cells, prices).error.None?
    ensures CellOf(Feed(st, cells, prices).cells, code).bars ==
            CellOf(cells, code).bars + Fresh(CellOf(cells, code).last, BarsOf(prices, code))
    ensures CellOf(Feed(st, cells, prices).cells, code).last ==
            Newest(CellOf(cells, code).last, Fresh(CellOf(cells, code).last, BarsOf(prices, code)))
  {
    Isolation(st, cells, prices, code);
    SkippedBarsLeaveNoTrace(st, CellRun(CellOf(cells, code), [], None), BarsOf(prices, code));
  }

  /** A call emits the signals of its prices one after the other: what it emits on some of them it emits first. */
  lemma {:induction false} SignalsGrow<S, P>(st: Strategy<S, P>, cells: Cells<S>, prices: seq<StockPrice>, k: nat)
    requires k <= |prices|
    ensures Feed(st, cells, prices[..k]).signals <= Feed(st, cells, prices).signals
  {
    if k == |prices| {
      assert prices[..k] == prices;
    } else {
      var init := prices[..|prices| - 1];
      SignalsGrow(st, cells, init, k);
      assert init[..k] == prices[..k];
      hide ApplyBar, Tagged;
    }
  }

  // ---- A late bar ----

  /** A strategy that never raises and never signals. */
  function Quiet(): Strategy<int, int> {
    Strategy(code => Returned(0), (s, bars) => (s, Returned([])))
  }

  function QuietCell(bars: seq<HistoricalBar>): Cell<int> {
    if bars == [] then Cell(None, [], None) else Cell(Some(0), bars, Some(bars[|bars| - 1].openedAt))
  }

  /** One price fed to a code whose history is in order: taken if it is newer, skipped if not. */
  lemma QuietStep(r: Run<int, int>, code: string, bars: seq<HistoricalBar>, p: StockPrice)
    requires r.error.None? && CellOf(r.cells, code) == QuietCell(bars) && NormalizeCode(p.code) == Some(code)
    requires TimesOrdered(bars)
    ensures
      var next, bar := FeedPrice(Quiet(), r, p), HistoricalBar(code, p.time, p.quote);
      && next.error.None?
      && CellOf(next.cells, code) ==
         QuietCell(if bars != [] && p.time <= bars[|bars| - 1].openedAt then bars else bars + [bar])
  {
    if bars == [] || bars[|bars| - 1].openedAt < p.time {
      assert FrameAccepted(bars + [HistoricalBar(code, p.time, p.quote)]);
    }
  }

  /** A bar and then an earlier one: in two calls the second is dropped, one call takes both. */
  lemma LateBarIsDropped(newer: StockPrice, late: StockPrice, code: string)
    requires newer.code == late.code == code && NormalizeCode(code) == Some(code) && late.time < newer.time
    ensures
      var parts := Successive(Quiet(), map[], [[newer], [late]]);
      var whole := ProcessRun(Quiet(), map[], [newer, late]);
      && parts.error.None? && whole.error.None?
      && CellOf(parts.cells, code).bars == [HistoricalBar(code, newer.time, newer.quote)]
      && CellOf(whole.cells, code).bars ==
         [HistoricalBar(code, late.time, late.quote), HistoricalBar(code, newer.time, newer.quote)]
  {
    hide FeedFrom, Quiet, NormalizeCode, CellOf;
    SuccessiveIsOneFeed(Quiet(), map[], [[newer], [late]]);
    ResortedTwo(newer, late);
    SortTwo(newer, late);
    QuietTwo(newer, late, code);
    QuietTwo(late, newer, code);
  }

  lemma ResortedTwo(p: StockPrice, q: StockPrice)
    ensures Resorted([[p], [q]]) == [p, q]
  {
    assert [[p], [q]][..1] == [[p]] && [[p]][..0] == [];
    assert Sort([p], PriceLeq) == [p] && Sort([q], PriceLeq) == [q];
    hide Sort;
    assert Resorted([[p]]) == [p] && [p] + [q] == [p, q];
  }

  lemma SortTwo(newer: StockPrice, late: StockPrice)
    requires late.time < newer.time
    ensures Sort([newer, late], PriceLeq) == [late, newer]
  {
    assert [newer, late][1..] == [late] && Sort([late], PriceLeq) == [late];
    assert !PriceLeq(newer, late) && Insert(newer, [], PriceLeq) == [newer];
    assert Insert(newer, [late], PriceLeq) == [late] + [newer];
  }

  lemma FeedTwo<S, P>(st: Strategy<S, P>, r: Run<S, P>, p: StockPrice, q: StockPrice)
    ensures FeedFrom(st, r, [p, q]) == FeedPrice(st, FeedPrice(st, r, p), q)
  {
    hide FeedPrice;
    assert [p, q][..1] == [p] && [p][..0] == [];
    assert FeedFrom(st, r, [p]) == FeedPrice(st, r, p);
  }

  lemma QuietTwo(p: StockPrice, q: StockPrice, code: string)
    requires p.code == q.code == code && NormalizeCode(code) == Some(code) && p.time != q.time
    ensures
      var r := Feed(Quiet(), map[], [p, q]);
      var a, b := HistoricalBar(code, p.time, p.quote), HistoricalBar(code, q.time, q.quote);
      r.error.None? && CellOf(r.cells, code).bars == if q.time <= p.time then [a] else [a, b]
  {
    hide FeedPrice, FeedFrom, Quiet, NormalizeCode, CellOf;
    var a := HistoricalBar(code, p.time, p.quote);
    NothingYet(code);
    FeedTwo(Quiet(), Idle(map[]), p, q);
    QuietStep(Idle(map[]), code, [], p);
    assert [] + [a] == [a];
    QuietStep(FeedPrice(Quiet(), Idle(map[]), p), code, [a], q);
  }

  lemma NothingYet(code: string)
    ensures CellOf<int>(map[], code) == QuietCell([])
  {
  }

  // ---- A bar that breaks ----

  /**
   A bar on which the strategy raises stays in the history although the watermark does not
   move, so a bar sent again after that is there twice.
   */
  lemma RetriedBarIsTwice<S, P>(st: Strategy<S, P>, r: CellRun<S, P>, bar: HistoricalBar)
    requires r.error.None? && FeedBar(st, r, bar).error.Some?
    ensures
      var broken := FeedBar(st, r, bar);
      && broken.cell.bars == r.cell.bars + [bar] && broken.cell.last == r.cell.last && broken.payloads == r.payloads
      && var again := FeedBar(st, broken.(error := None), bar);
      && again.cell.bars == r.cell.bars + [bar, bar]
      && again.cell.last == if again.error.None? then Some(bar.openedAt) else r.cell.last
  {
    assert r.cell.bars + [bar] + [bar] == r.cell.bars + [bar, bar];
  }

  // ---- Reset ----

  predicate IsFor(p: StockPrice, code: string) {
    NormalizeCode(p.code) == Some(code)
  }

  function Only(prices: seq<StockPrice>, code: string): seq<StockPrice> {
    Keep(prices, p => IsFor(p, code))
  }

  lemma OnlySnoc(prices: seq<StockPrice>, p: StockPrice, code: string)
    ensures Only(prices + [p], code) == if IsFor(p, code) then Only(prices, code) + [p] else Only(prices, code)
  {
    KeepAppend(prices, [p], q => IsFor(q, code));
    KeepCons(p, [], q => IsFor(q, code));
    assert [p] + [] == [p];
  }

  lemma {:induction false} OnlyKeepsBars(prices: seq<StockPrice>, code: string)
    ensures BarsOf(Only(prices, code), code) == BarsOf(prices, code)
  {
    if prices == [] {
    } else {
      var init, last := prices[..|prices| - 1], prices[|prices| - 1];
      hide Only, BarsOf, NormalizeCode;
      assert prices == init + [last];
      OnlyKeepsBars(init, code);
      OnlySnoc(init, last, code);
      BarsOfSnoc(init, last, code);
      BarsOfSnoc(Only(init, code), last, code);
    }
  }

  lemma OnlyItsBars(prices: seq<StockPrice>, code: string, other: string)
    requires other != code
    ensures BarsOf(Only(prices, code), other) == []
  {
    if BarsOf(Only(prices, code), other) != [] {
      var b := BarsOf(Only(prices, code), other)[0];
      BarsOfMember(Only(prices, code), other, b);
      var p :| p in Only(prices, code) && Delivers(p, b);
      KeepMember(prices, p => IsFor(p, code), p);
      assert false;
    }
  }

  /** How many prices a call handles, the one it may break on included. */
  function Handled<S, P>(st: Strategy<S, P>, cells: Cells<S>, prices: seq<StockPrice>): (k: nat)
    ensures k <= |prices|
  {
    if prices == [] then 0
    else
      var init := prices[..|prices| - 1];
      if Feed(st, cells, init).error.Some? then Handled(st, cells, init) else |prices|
  }

  /** The prices a call handles, in its order. */
  function HandledBy<S, P>(st: Strategy<S, P>, cells: Cells<S>, prices: seq<StockPrice>): seq<StockPrice> {
    var ordered := Sort(prices, PriceLeq);
    ordered[..Handled(st, cells, ordered)]
  }

  lemma BrokenStays<S, P>(st: Strategy<S, P>, r: Run<S, P>, p: StockPrice)
    requires r.error.Some?
    ensures FeedPrice(st, r, p) == r
  {
  }

  lemma {:induction false} HandledIsFed<S, P>(st: Strategy<S, P>, cells: Cells<S>, prices: seq<StockPrice>)
    ensures
      var r, k := Feed(st, cells, prices), Handled(st, cells, prices);
      && r == Feed(st, cells, prices[..k])
      && (k > 0 ==> Feed(st, cells, prices[..k - 1]).error.None?)
      && (r.error.None? ==> k == |prices|)
  {
    hide FeedPrice;
    if prices == [] {
    } else {
      var init, last := prices[..|prices| - 1], prices[|prices| - 1];
      var k := Handled(st, cells, init);
      HandledIsFed(st, cells, init);
      assert init[..k] == prices[..k];
      assert k > 0 ==> init[..k - 1] == prices[..k - 1];
      assert prices[..|prices|] == prices;
      if Feed(st, cells, init).error.Some? {
        BrokenStays(st, Feed(st, cells, init), last);
      }
    }
  }

  /** Isolation up to where a call breaks: every code is as if fed alone what was handled. */
  lemma IsolationToTheBreak<S, P>(st: Strategy<S, P>, cells: Cells<S>, prices: seq<StockPrice>, code: string)
    ensures
      var r := Feed(st, cells, prices);
      var alone := Alone(st, cells, code, prices[..Handled(st, cells, prices)]);
      CellOf(r.cells, code) == alone.cell && PayloadsOf(r.signals, code) == alone.payloads
  {
    hide FeedPrice, FeedBar;
    HandledIsFed(st, cells, prices);
    var fed := prices[..Handled(st, cells, prices)];
    if fed != [] {
      var init, last := fed[..|fed| - 1], fed[|fed| - 1];
      assert init == prices[..|fed| - 1];
      Isolation(st, cells, init, code);
      FeedPriceIsolated(st, Feed(st, cells, init), last, code, Alone(st, cells, code, init));
      AlonePrefix(st, cells, code, fed);
      BarsOfSnoc([], last, code);
      assert [] + [last] == [last];
      hide Handled, FeedCell, PayloadsOf, CellOf;
    }
  }

  /** The text a call raises: that of a bad code, or what the code of the breaking price raises when fed alone. */
  lemma BreaksWith<S, P>(st: Strategy<S, P>, cells: Cells<S>, prices: seq<StockPrice>)
    requires Feed(st, cells, prices).error.Some?
    ensures
      var k := Handled(st, cells, prices);
      && 0 < k <= |prices|
      && var code := NormalizeCode(prices[k - 1].code);
      Feed(st, cells, prices).error ==
      if code.None? then Some(BAD_CODE) else Alone(st, cells, code.value, prices[..k]).error
  {
    hide FeedPrice, FeedBar;
    HandledIsFed(st, cells, prices);
    var fed := prices[..Handled(st, cells, prices)];
    if fed == [] {
      assert false;
    } else {
      var init, last := fed[..|fed| - 1], fed[|fed| - 1];
      assert init == prices[..|fed| - 1];
      var code := if NormalizeCode(last.code).Some? then NormalizeCode(last.code).value else "";
      Isolation(st, cells, init, code);
      FeedPriceIsolated(st, Feed(st, cells, init), last, code, Alone(st, cells, code, init));
      AlonePrefix(st, cells, code, fed);
      BarsOfSnoc([], last, code);
      assert [] + [last] == [last];
      hide Handled, FeedCell, PayloadsOf, CellOf;
    }
  }

  /** A new engine given only one code's prices handles all of them that a shared call handled. */
  lemma OnlyItsShare<S, P>(st: Strategy<S, P>, cells: Cells<S>, code: string, fed: seq<StockPrice>)
    requires code !in cells
    requires fed != [] ==> Feed(st, cells, fed[..|fed| - 1]).error.None?
    ensures Handled(st, map[], Only(fed, code)) == |Only(fed, code)|
  {
    hide FeedFrom, FeedCell, PayloadsOf, BarsOf, NormalizeCode;
    if fed != [] {
      var init, last := fed[..|fed| - 1], fed[|fed| - 1];
      Isolation(st, cells, init, code);
      OnlyReturns(st, init, code);
      OnlySnoc(init, last, code);
      assert fed == init + [last];
      if IsFor(last, code) {
        assert Only(fed, code)[..|Only(fed, code)| - 1] == Only(init, code);
      } else if Only(init, code) != [] {
        HandledIsFed(st, map[], Only(init, code));
      }
    }
  }

  /**
   After a code is reset, a call leaves it as a new engine would, given only that
   code's prices, as far as the call got if another code breaks it.
   */
  lemma ResetIsFresh<S, P>(st: Strategy<S, P>, cells: Cells<S>, code: string, prices: seq<StockPrice>)
    ensures
      var reset, fed := ProcessRun(st, cells - {code}, prices), HandledBy(st, cells - {code}, prices);
      var alone := ProcessRun(st, map[], Only(fed, code));
      && CellOf(reset.cells, code) == CellOf(alone.cells, code)
      && PayloadsOf(reset.signals, code) == PayloadsOf(alone.signals, code)
      && (reset.error.None? ==> alone.error.None? && fed == Sort(prices, PriceLeq))
  {
    hide Sort, FeedFrom, FeedCell, PayloadsOf, BarsOf, Only, Handled;
    var rest, ordered, fed := cells - {code}, Sort(prices, PriceLeq), HandledBy(st, cells - {code}, prices);
    HandledIsFed(st, rest, ordered);
    IsolationToTheBreak(st, rest, ordered, code);
    OnlyKeepsBars(fed, code);
    assert fed != [] ==> fed[..|fed| - 1] == ordered[..|fed| - 1];
    OnlyItsShare(st, rest, code, fed);
    SortedShare(prices, |fed|, code);
    IsolationToTheBreak(st, map[], Only(fed, code), code);
    assert Only(fed, code)[..|Only(fed, code)|] == Only(fed, code);
    if ProcessRun(st, rest, prices).error.None? {
      assert ordered[..|ordered|] == ordered;
      Isolation(st, rest, ordered, code);
      OnlyReturns(st, ordered, code);
    }
  }

  /** What was handled of a code is in the order a call on it alone handles it. */
  lemma SortedShare(prices: seq<StockPrice>, k: nat, code: string)
    requires k <= |Sort(prices, PriceLeq)|
    ensures Sort(Only(Sort(prices, PriceLeq)[..k], code), PriceLeq) == Only(Sort(prices, PriceLeq)[..k], code)
  {
    var fed := Sort(prices, PriceLeq)[..k];
    PriceOrder();
    SortOrdered(prices, PriceLeq);
    SortFixesOrdered(fed, PriceLeq);
    KeepSort(fed, PriceLeq, p => IsFor(p, code));
  }

  lemma OnlyReturns<S, P>(st: Strategy<S, P>, prices: seq<StockPrice>, code: string)
    requires Alone(st, map[], code, prices).error.None?
    ensures Feed(st, map[], Only(prices, code)).error.None?
  {
    OnlyKeepsBars(prices, code);
    forall other
      ensures Alone(st, map[], other, Only(prices, code)).error.None?
    {
      if other != code {
        OnlyItsBars(prices, code, other);
      }
    }
    forall p | p in Only(prices, code)
      ensures NormalizeCode(p.code).Some?
    {
      KeepMember(prices, p => IsFor(p, code), p);
    }
    ReturnsIf(st, map[], Only(prices, code));
  }

  /**
   Resetting a code changes nothing for any other: with and without the reset the
   other is as if fed alone what the call handled, which is all if the call returns.
   */
  lemma ResetLeavesOthers<S, P>(
    st: Strategy<S, P>, cells: Cells<S>, code: string, other: string, prices: seq<StockPrice>)
    requires other != code
    ensures
      var reset, kept := ProcessRun(st, cells - {code}, prices), ProcessRun(st, cells, prices);
      var x := Alone(st, cells, other, HandledBy(st, cells - {code}, prices));
      var y := Alone(st, cells, other, HandledBy(st, cells, prices));
      && CellOf(reset.cells, other) == x.cell && PayloadsOf(reset.signals, other) == x.payloads
      && CellOf(kept.cells, other) == y.cell && PayloadsOf(kept.signals, other) == y.payloads
      && (reset.error.None? && kept.error.None? ==> x == y)
  {
    hide Sort, FeedFrom, FeedCell, PayloadsOf, BarsOf;
    assert CellOf(cells - {code}, other) == CellOf(cells, other);
    HandledIsFed(st, cells - {code}, Sort(prices, PriceLeq));
    HandledIsFed(st, cells, Sort(prices, PriceLeq));
    IsolationToTheBreak(st, cells - {code}, Sort(prices, PriceLeq), other);
    IsolationToTheBreak(st, cells, Sort(prices, PriceLeq), other);
  }
}
