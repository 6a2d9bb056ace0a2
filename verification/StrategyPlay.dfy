/**
 The signal engine against a plain reference: a code's strategy is played over the
 growing prefixes of its history, one evaluation per new bar.
 */
module StrategyPlay {
  import opened Wrappers
  import opened MarketBars
  import opened Sorting
  import opened SignalEngine
  import opened SignalEngineTheorems

  /** The strategy after the bars `taken`, shown one by one on top of `seen`, and all it emitted, or what it raised. */
  function Play<S, P>(
    st: Strategy<S, P>, code: string, s: Option<S>, seen: seq<HistoricalBar>, taken: seq<HistoricalBar>)
    : Outcome<(Option<S>, seq<P>), string>
  {
    if taken == [] then Returned((s, []))
    else
      match Play(st, code, s, seen, taken[..|taken| - 1])
      case Raised(text) => Raised(text)
      case Returned((before, emitted)) =>
        var strategy := if before.Some? then Returned(before.value) else st.create(code);
        if strategy.Raised? then Raised(strategy.fault)
        else
          var (after, verdict) := st.evaluate(strategy.value, seen + taken);
          if verdict.Raised? then Raised(verdict.fault) else Returned((Some(after), emitted + verdict.value))
  }

  /** A history in time order, all of it handled. */
  ghost predicate Settled<S>(cell: Cell<S>) {
    TimesOrdered(cell.bars) && forall b :: b in cell.bars ==> Seen(cell.last, b.openedAt)
  }

  ghost predicate Follows(w: Option<int>, code: string, taken: seq<HistoricalBar>) {
    && StrictlyOrdered(taken, OpensBefore)
    && forall b :: b in taken ==> b.code == code && !Seen(w, b.openedAt)
  }

  lemma FrameHolds<S>(cell: Cell<S>, taken: seq<HistoricalBar>, code: string)
    requires Settled(cell) && Follows(cell.last, code, taken) && taken != []
    ensures FrameAccepted(cell.bars + taken)
  {
    var all := cell.bars + taken;
    forall i | 0 <= i < |all|
      ensures all[i].openedAt <= all[|all| - 1].openedAt
    {
      if i < |cell.bars| {
        assert cell.bars[i] in cell.bars && taken[|taken| - 1] in taken;
      } else if i < |all| - 1 {
        assert OpensBefore(taken[i - |cell.bars|], taken[|taken| - 1]);
      }
    }
  }

  /**
   What one evaluation of a bar leaves: an error if the strategy cannot be created, if a bar
   of the history opens later, or if the strategy raises.
   */
  lemma OneEvaluation<S, P>(st: Strategy<S, P>, r: CellRun<S, P>, bar: HistoricalBar)
    requires r.error.None? && !Seen(r.cell.last, bar.openedAt)
    ensures
      var next := FeedBar(st, r, bar);
      var strategy := if r.cell.strategy.Some? then Returned(r.cell.strategy.value) else st.create(bar.code);
      var all := r.cell.bars + [bar];
      if strategy.Raised? then next == CellRun(Cell(None, all, r.cell.last), r.payloads, Some(strategy.fault))
      else if exists b :: b in r.cell.bars && b.openedAt > bar.openedAt then
        next == CellRun(Cell(Some(strategy.value), all, r.cell.last), r.payloads, Some(FUTURE_BAR))
      else
        var (after, verdict) := st.evaluate(strategy.value, all);
        if verdict.Raised? then next == CellRun(Cell(Some(after), all, r.cell.last), r.payloads, Some(verdict.fault))
        else
          var cell := Cell(Some(after), r.cell.bars + [bar], Some(bar.openedAt));
          next == CellRun(cell, r.payloads + verdict.value, None)
  {
    FrameMeaning(r.cell.bars, bar);
    hide FrameAccepted;
  }

  lemma FrameMeaning(bars: seq<HistoricalBar>, bar: HistoricalBar)
    ensures FrameAccepted(bars + [bar]) <==> forall b :: b in bars ==> b.openedAt <= bar.openedAt
  {
    var all := bars + [bar];
    assert forall i :: 0 <= i < |bars| ==> all[i] == bars[i];
    if FrameAccepted(all) {
      forall b | b in bars
        ensures b.openedAt <= bar.openedAt
      {
        var i :| 0 <= i < |bars| && bars[i] == b;
        assert all[i] == b;
      }
    }
  }

  lemma FollowsBefore(w: Option<int>, code: string, taken: seq<HistoricalBar>)
    requires Follows(w, code, taken) && taken != []
    ensures
      var init, last := taken[..|taken| - 1], taken[|taken| - 1];
      Follows(w, code, init) && last.code == code &&
      !Seen(if init == [] then w else Some(init[|init| - 1].openedAt), last.openedAt)
  {
    var init, last := taken[..|taken| - 1], taken[|taken| - 1];
    assert forall b :: b in init ==> b in taken;
    assert last in taken;
    assert init != [] ==> OpensBefore(init[|init| - 1], last);
  }

  /** Feeding new bars to a settled cell is playing its strategy, error for error. */
  lemma {:induction false} FeedIsPlay<S, P>(st: Strategy<S, P>, cell: Cell<S>, code: string, taken: seq<HistoricalBar>)
    requires Settled(cell) && Follows(cell.last, code, taken)
    ensures
      var r := FeedCell(st, CellRun(cell, [], None), taken);
      var played := Play(st, code, cell.strategy, cell.bars, taken);
      && (r.error == if played.Raised? then Some(played.fault) else None)
      && (r.error.None? ==>
            && played == Returned((r.cell.strategy, r.payloads))
            && r.cell.bars == cell.bars + taken
            && r.cell.last == if taken == [] then cell.last else Some(taken[|taken| - 1].openedAt))
  {
    if taken == [] {
      assert cell.bars + taken == cell.bars;
    } else {
      hide FeedBar, FrameAccepted, Settled, Follows, Seen;
      var init, last := taken[..|taken| - 1], taken[|taken| - 1];
      FollowsBefore(cell.last, code, taken);
      FeedIsPlay(st, cell, code, init);
      var r := FeedCell(st, CellRun(cell, [], None), init);
      if r.error.None? {
        assert r.cell.bars + [last] == cell.bars + taken;
        FrameHolds(cell, taken, code);
        FrameMeaning(r.cell.bars, last);
        OneEvaluation(st, r, last);
      } else {
        StaysBroken(st, r, last);
      }
    }
  }

  lemma StaysBroken<S, P>(st: Strategy<S, P>, r: CellRun<S, P>, bar: HistoricalBar)
    requires r.error.Some?
    ensures FeedBar(st, r, bar) == r
  {
  }

  lemma FreshFollows<S>(cell: Cell<S>, prices: seq<StockPrice>, code: string)
    ensures Follows(cell.last, code, Fresh(cell.last, BarsOf(prices, code)))
  {
    var bars := BarsOf(prices, code);
    FreshIsStrict(cell.last, bars);
    forall b | b in Fresh(cell.last, bars)
      ensures b.code == code
    {
      BarsOfMember(prices, code, b);
    }
  }

  /** One code's part of a call, as the reference sees it. */
  lemma AloneIsPlay<S, P>(st: Strategy<S, P>, cells: Cells<S>, prices: seq<StockPrice>, code: string)
    requires Settled(CellOf(cells, code))
    ensures
      var cell, alone := CellOf(cells, code), Alone(st, cells, code, prices);
      var taken := Fresh(cell.last, BarsOf(prices, code));
      var played := Play(st, code, cell.strategy, cell.bars, taken);
      && (alone.error == if played.Raised? then Some(played.fault) else None)
      && (alone.error.None? ==>
            && played == Returned((alone.cell.strategy, alone.payloads))
            && alone.cell.bars == cell.bars + taken
            && Settled(alone.cell))
  {
    var cell := CellOf(cells, code);
    var taken := Fresh(cell.last, BarsOf(prices, code));
    SkippedBarsLeaveNoTrace(st, CellRun(cell, [], None), BarsOf(prices, code));
    FreshFollows(cell, prices, code);
    FeedIsPlay(st, cell, code, taken);
    if Alone(st, cells, code, prices).error.None? {
      SettledGrows(cell, Alone(st, cells, code, prices).cell, code, taken);
    }
  }

  lemma SettledGrows<S>(cell: Cell<S>, after: Cell<S>, code: string, taken: seq<HistoricalBar>)
    requires Settled(cell) && Follows(cell.last, code, taken)
    requires after.bars == cell.bars + taken
    requires after.last == if taken == [] then cell.last else Some(taken[|taken| - 1].openedAt)
    ensures Settled(after)
  {
    if taken == [] {
      assert after.bars == cell.bars;
    } else {
      var newest := taken[|taken| - 1];
      assert newest in taken;
      assert forall k :: 0 <= k < |taken| - 1 ==> OpensBefore(taken[k], newest);
      JoinedInOrder(cell, code, taken);
    }
  }

  lemma JoinedInOrder<S>(cell: Cell<S>, code: string, taken: seq<HistoricalBar>)
    requires Settled(cell) && Follows(cell.last, code, taken)
    ensures TimesOrdered(cell.bars + taken)
  {
    forall i, j | 0 <= i < |cell.bars| && 0 <= j < |taken|
      ensures cell.bars[i].openedAt <= taken[j].openedAt
    {
      assert cell.bars[i] in cell.bars && taken[j] in taken;
    }
    assert forall i, j :: 0 <= i < j < |taken| ==> OpensBefore(taken[i], taken[j]);
  }

  ghost predicate AllSettled<S>(cells: Cells<S>) {
    forall code :: Settled(CellOf(cells, code))
  }

  /** The code's new bars in a call. */
  function Taken<S>(cells: Cells<S>, prices: seq<StockPrice>, code: string): seq<HistoricalBar> {
    Fresh(CellOf(cells, code).last, BarsOf(Sort(prices, PriceLeq), code))
  }

  function Played<S, P>(st: Strategy<S, P>, cells: Cells<S>, prices: seq<StockPrice>, code: string)
    : Outcome<(Option<S>, seq<P>), string>
  {
    var cell := CellOf(cells, code);
    Play(st, code, cell.strategy, cell.bars, Taken(cells, prices, code))
  }

  /**
   A call returns exactly when every code is valid and no code's strategy raises
   while it is played over its new bars; then every code has the state and signals
   of that play, its new bars at the end of its history, and is settled again.
   */
  lemma CallPlaysStrategies<S, P>(st: Strategy<S, P>, cells: Cells<S>, prices: seq<StockPrice>)
    requires AllSettled(cells)
    ensures
      var r := ProcessRun(st, cells, prices);
      && (r.error.None? <==>
            CodesValid(Sort(prices, PriceLeq)) && forall code :: Played(st, cells, prices, code).Returned?)
      && (r.error.None? ==>
            && AllSettled(r.cells)
            && forall code ::
                && CellOf(r.cells, code).bars == CellOf(cells, code).bars + Taken(cells, prices, code)
                && Played(st, cells, prices, code) ==
                   Returned((CellOf(r.cells, code).strategy, PayloadsOf(r.signals, code))))
  {
    var ordered := Sort(prices, PriceLeq);
    var r := ProcessRun(st, cells, prices);
    ReturnsExactly(st, cells, ordered);
    forall code
      ensures Alone(st, cells, code, ordered).error.None? <==> Played(st, cells, prices, code).Returned?
    {
      AloneIsPlay(st, cells, ordered, code);
    }
    if r.error.None? {
      forall code
        ensures Settled(CellOf(r.cells, code))
        ensures CellOf(r.cells, code).bars == CellOf(cells, code).bars + Taken(cells, prices, code)
        ensures Played(st, cells, prices, code) ==
                Returned((CellOf(r.cells, code).strategy, PayloadsOf(r.signals, code)))
      {
        Isolation(st, cells, ordered, code);
        AloneIsPlay(st, cells, ordered, code);
      }
    }
  }

  /** A call that raises gives the text of a bad code, or what playing the breaking price's code has raised. */
  lemma CallRaisesWhatAPlayRaises<S, P>(st: Strategy<S, P>, cells: Cells<S>, prices: seq<StockPrice>)
    requires AllSettled(cells) && ProcessRun(st, cells, prices).error.Some?
    ensures
      var fed, r := HandledBy(st, cells, prices), ProcessRun(st, cells, prices);
      && fed != []
      && var code := NormalizeCode(fed[|fed| - 1].code);
      if code.None? then r.error == Some(BAD_CODE)
      else
        var cell := CellOf(cells, code.value);
        var played := Play(st, code.value, cell.strategy, cell.bars, Fresh(cell.last, BarsOf(fed, code.value)));
        played.Raised? && r.error == Some(played.fault)
  {
    var ordered, fed := Sort(prices, PriceLeq), HandledBy(st, cells, prices);
    BreaksWith(st, cells, ordered);
    var code := NormalizeCode(fed[|fed| - 1].code);
    if code.Some? {
      AloneIsPlay(st, cells, fed, code.value);
    }
    hide Sort, FeedFrom, FeedCell, Handled, Play, Fresh, BarsOf;
  }
}
