/** What a call counts: the bars that joined a history, the others, and the decision drawn from them. */
module SignalEngineCounts {
  import opened Wrappers
  import opened Sorting
  import opened MarketBars
  import opened SignalEngine
  import opened SignalEngineTheorems
  import opened StrategyPlay

  /** The new bars of the codes together. */
  function TotalTaken<S>(cells: Cells<S>, prices: seq<StockPrice>, codes: seq<string>): nat {
    if codes == [] then 0
    else TotalTaken(cells, prices, codes[..|codes| - 1]) + |Taken(cells, prices, codes[|codes| - 1])|
  }

  /** The lengths of the codes' histories together. */
  function TotalHistory<S>(cells: Cells<S>, codes: seq<string>): nat {
    if codes == [] then 0
    else TotalHistory(cells, codes[..|codes| - 1]) + |CellOf(cells, codes[|codes| - 1]).bars|
  }

  /** The codes are different and include that of every price. */
  ghost predicate Lists(codes: seq<string>, prices: seq<StockPrice>) {
    NoDuplicates(codes) &&
    forall p :: p in prices && NormalizeCode(p.code).Some? ==> NormalizeCode(p.code).value in codes
  }

  lemma {:induction false} SameHistories<S>(before: Cells<S>, after: Cells<S>, codes: seq<string>)
    requires forall c :: c in codes ==> |CellOf(after, c).bars| == |CellOf(before, c).bars|
    ensures TotalHistory(after, codes) == TotalHistory(before, codes)
  {
    hide CellOf;
    if codes == [] {
    } else {
      assert forall c :: c in codes[..|codes| - 1] ==> c in codes;
      SameHistories(before, after, codes[..|codes| - 1]);
    }
  }

  lemma {:induction false} OneHistoryGrows<S>(before: Cells<S>, after: Cells<S>, codes: seq<string>, code: string)
    requires NoDuplicates(codes) && code in codes
    requires forall c :: |CellOf(after, c).bars| == |CellOf(before, c).bars| + if c == code then 1 else 0
    ensures TotalHistory(after, codes) == TotalHistory(before, codes) + 1
  {
    hide CellOf;
    var init, last := codes[..|codes| - 1], codes[|codes| - 1];
    if last == code {
      assert forall c :: c in init ==> c != code;
      SameHistories(before, after, init);
    } else {
      assert forall c :: c in codes <==> c in init || c == last;
      OneHistoryGrows(before, after, init, code);
    }
  }

  /** One price that is handled without error either joins its code's history or is skipped. */
  lemma PriceCounts<S, P>(st: Strategy<S, P>, r: Run<S, P>, p: StockPrice, codes: seq<string>)
    requires r.error.None? && FeedPrice(st, r, p).error.None? && Lists(codes, [p])
    ensures
      var next := FeedPrice(st, r, p);
      && next.processed + TotalHistory(r.cells, codes) == r.processed + TotalHistory(next.cells, codes)
      && next.processed + next.skipped == r.processed + r.skipped + 1
  {
    var next, code := FeedPrice(st, r, p), NormalizeCode(p.code).value;
    assert p in [p];
    if Seen(CellOf(r.cells, code).last, p.time) {
      SameHistories(r.cells, next.cells, codes);
    } else {
      OneHistoryGrows(r.cells, next.cells, codes, code);
    }
  }

  lemma {:induction false} ProcessedIsGrowth<S, P>(
    st: Strategy<S, P>, cells: Cells<S>, prices: seq<StockPrice>, codes: seq<string>)
    requires Feed(st, cells, prices).error.None? && Lists(codes, prices)
    ensures
      var r := Feed(st, cells, prices);
      && TotalHistory(r.cells, codes) == TotalHistory(cells, codes) + r.processed
      && r.processed + r.skipped == |prices|
  {
    hide FeedPrice, TotalHistory, NormalizeCode;
    if prices == [] {
    } else {
      var init, last := prices[..|prices| - 1], prices[|prices| - 1];
      assert forall p :: p in init || p in [last] ==> p in prices;
      StopsAtError(st, Feed(st, cells, init), last);
      ProcessedIsGrowth(st, cells, init, codes);
      PriceCounts(st, Feed(st, cells, init), last, codes);
    }
  }

  lemma StopsAtError<S, P>(st: Strategy<S, P>, r: Run<S, P>, p: StockPrice)
    ensures r.error.Some? ==> FeedPrice(st, r, p).error.Some?
  {
  }

  lemma {:induction false} GrowthIsTaken<S, P>(
    st: Strategy<S, P>, cells: Cells<S>, prices: seq<StockPrice>, codes: seq<string>)
    requires ProcessRun(st, cells, prices).error.None?
    ensures TotalHistory(ProcessRun(st, cells, prices).cells, codes) ==
            TotalHistory(cells, codes) + TotalTaken(cells, prices, codes)
  {
    hide CellOf, FeedFrom, Fresh, BarsOf;
    if codes == [] {
    } else {
      GrowthIsTaken(st, cells, prices, codes[..|codes| - 1]);
      HistoryGrows(st, cells, Sort(prices, PriceLeq), codes[|codes| - 1]);
    }
  }

  lemma {:induction false} NothingTaken<S>(cells: Cells<S>, prices: seq<StockPrice>, codes: seq<string>)
    ensures TotalTaken(cells, prices, codes) == 0 <==>
            forall code :: code in codes ==> Taken(cells, prices, code) == []
  {
    hide Taken;
    if codes == [] {
    } else {
      var init, last := codes[..|codes| - 1], codes[|codes| - 1];
      NothingTaken(cells, prices, init);
      assert forall code :: code in codes <==> code in init || code == last;
    }
  }

  lemma TakenIsListed<S>(cells: Cells<S>, prices: seq<StockPrice>, codes: seq<string>, code: string)
    requires Lists(codes, prices) && Taken(cells, prices, code) != []
    ensures code in codes
  {
    var ordered := Sort(prices, PriceLeq);
    var b := Taken(cells, prices, code)[0];
    FreshIsStrict(CellOf(cells, code).last, BarsOf(ordered, code));
    BarsOfMember(ordered, code, b);
    SortMembers(prices, PriceLeq);
  }

  /**
   A call that returns has processed the new bars of its codes, each once, and skipped
   every other price; it reports no new bar if and only if no code has one, and signals
   if and only if there are some.
   */
  lemma CallCounts<S, P>(st: Strategy<S, P>, cells: Cells<S>, prices: seq<StockPrice>, codes: seq<string>)
    requires ProcessRun(st, cells, prices).error.None? && Lists(codes, prices)
    ensures
      var r := ProcessRun(st, cells, prices);
      var result, taken := Summarize(r, |prices|), TotalTaken(cells, prices, codes);
      && result.inputCount == |prices| && result.processedCount == taken && result.skippedCount == |prices| - taken
      && result.signals == r.signals && result.signalCount == |r.signals|
      && (result.decision.NoNewBar? <==> forall code :: Taken(cells, prices, code) == [])
      && (result.decision.SignalsGenerated? <==> result.signals != [])
  {
    var ordered := Sort(prices, PriceLeq);
    SortMembers(prices, PriceLeq);
    ProcessedIsGrowth(st, cells, ordered, codes);
    GrowthIsTaken(st, cells, prices, codes);
    NothingTaken(cells, prices, codes);
    FeedCounts(st, cells, ordered);
    forall code
      ensures Taken(cells, prices, code) != [] ==> code in codes
    {
      if Taken(cells, prices, code) != [] {
        TakenIsListed(cells, prices, codes, code);
      }
    }
    hide FeedFrom, Taken, TotalTaken, TotalHistory;
  }

  lemma OneBarOf(p: StockPrice, code: string)
    requires NormalizeCode(p.code) == Some(code)
    ensures BarsOf(Sort([p], PriceLeq), code) == [HistoricalBar(code, p.time, p.quote)]
  {
    hide NormalizeCode;
    assert Sort([p], PriceLeq) == [p];
    BarsOfSnoc([], p, code);
    assert [] + [p] == [p] && BarsOf([], code) == [];
  }

  lemma FreshOfOne(w: Option<int>, bar: HistoricalBar)
    ensures Fresh(w, [bar]) == if w.Some? && bar.openedAt <= w.value then [] else [bar]
  {
    assert [bar][..0] == [] && Fresh(w, []) == [];
  }

  lemma OneTaken<S>(cells: Cells<S>, p: StockPrice, code: string)
    requires NormalizeCode(p.code) == Some(code)
    ensures
      var last := CellOf(cells, code).last;
      |Taken(cells, [p], code)| == if last.Some? && p.time <= last.value then 0 else 1
  {
    hide NormalizeCode, CellOf, Fresh, BarsOf, Sort;
    OneBarOf(p, code);
    FreshOfOne(CellOf(cells, code).last, HistoricalBar(code, p.time, p.quote));
  }

  lemma TotalOfOne<S>(cells: Cells<S>, prices: seq<StockPrice>, code: string)
    ensures TotalTaken(cells, prices, [code]) == |Taken(cells, prices, code)|
  {
    hide Taken;
    assert [code][..0] == [] && TotalTaken(cells, prices, []) == 0;
  }

  /** A bar sent alone is processed if and only if it is newer than its code's watermark, and skipped otherwise. */
  lemma RepeatIsSkipped<S, P>(st: Strategy<S, P>, cells: Cells<S>, p: StockPrice, code: string)
    requires NormalizeCode(p.code) == Some(code) && ProcessRun(st, cells, [p]).error.None?
    ensures
      var result, last := Summarize(ProcessRun(st, cells, [p]), 1), CellOf(cells, code).last;
      if last.Some? && p.time <= last.value
      then result.decision.NoNewBar? && result.processedCount == 0 && result.skippedCount == 1
      else !result.decision.NoNewBar? && result.processedCount == 1 && result.skippedCount == 0
  {
    hide ProcessRun, TotalTaken, Taken, NormalizeCode;
    CallCounts(st, cells, [p], [code]);
    TotalOfOne(cells, [p], code);
    OneTaken(cells, p, code);
  }
}
