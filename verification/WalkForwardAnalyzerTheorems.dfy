/** Pooled figures stay within the bounds of their parts, and the summary counts every completed window once. */
module WalkForwardAnalyzerTheorems {
  import opened Wrappers
  import opened Sorting
  import opened WalkForwardResults
  import opened WalkForwardAnalyzer

  ghost predicate AllAccepted(items: seq<Backtest>) {
    forall i :: i in items ==> i.Accepted()
  }

  // ---- Bounds ----

  predicate AtLeast(value: real, bound: real, weight: real) {
    bound * weight <= value
  }

  predicate AtMost(value: real, bound: real, weight: real) {
    value <= bound * weight
  }

  /** What bounds every part from below, in proportion to its weight, bounds the whole. */
  lemma {:induction false} TotalAbove(
    items: seq<Backtest>, bound: real, value: Metrics -> real, weight: Metrics -> real)
    requires forall i :: i in items ==> AtLeast(value(i.metrics), bound, weight(i.metrics))
    ensures bound * Total(items, weight) <= Total(items, value)
  {
    if items == [] {
    } else {
      var init, last := items[..|items| - 1], items[|items| - 1];
      assert forall i :: i in init ==> i in items;
      TotalAbove(init, bound, value, weight);
      assert last in items;
      Distribute(bound, Total(init, weight), weight(last.metrics));
    }
  }

  lemma {:induction false} TotalBelow(
    items: seq<Backtest>, bound: real, value: Metrics -> real, weight: Metrics -> real)
    requires forall i :: i in items ==> AtMost(value(i.metrics), bound, weight(i.metrics))
    ensures Total(items, value) <= bound * Total(items, weight)
  {
    if items == [] {
    } else {
      var init, last := items[..|items| - 1], items[|items| - 1];
      assert forall i :: i in init ==> i in items;
      TotalBelow(init, bound, value, weight);
      assert last in items;
      Distribute(bound, Total(init, weight), weight(last.metrics));
    }
  }

  function AsReal(f: Metrics -> nat): Metrics -> real {
    (m: Metrics) => f(m) as real
  }

  lemma {:induction false} CountIsTotal(items: seq<Backtest>, f: Metrics -> nat)
    ensures Count(items, f) as real == Total(items, AsReal(f))
  {
    if items == [] {
    } else {
      CountIsTotal(items[..|items| - 1], f);
    }
  }

  lemma Distribute(a: real, x: real, y: real)
    ensures a * (x + y) == a * x + a * y
  {
  }

  lemma DivideBound(a: real, w: real, bound: real)
    requires w > 0.0
    ensures bound * w <= a <==> bound <= a / w
    ensures a <= bound * w <==> a / w <= bound
  {
    var q := a / w;
    assert q * w == a;
    if bound <= q {
      assert (q - bound) * w >= 0.0;
    } else {
      assert (bound - q) * w > 0.0;
    }
  }

  function WinRate(m: Metrics): real
    requires m.trades > 0
  {
    m.wins as real / m.trades as real
  }

  function ProfitFactor(m: Metrics): real
    requires m.grossLoss > 0.0
  {
    m.grossProfit / m.grossLoss
  }

  /** Bounds on the ratios of the parts bound the ratio of the sums. */
  lemma RatioBoundedBelow(items: seq<Backtest>, lo: real, value: Metrics -> real, weight: Metrics -> real)
    requires Total(items, weight) > 0.0
    requires forall i :: i in items ==> AtLeast(value(i.metrics), lo, weight(i.metrics))
    ensures lo <= Total(items, value) / Total(items, weight)
  {
    TotalAbove(items, lo, value, weight);
    DivideBound(Total(items, value), Total(items, weight), lo);
  }

  lemma RatioBoundedAbove(items: seq<Backtest>, hi: real, value: Metrics -> real, weight: Metrics -> real)
    requires Total(items, weight) > 0.0
    requires forall i :: i in items ==> AtMost(value(i.metrics), hi, weight(i.metrics))
    ensures Total(items, value) / Total(items, weight) <= hi
  {
    TotalBelow(items, hi, value, weight);
    DivideBound(Total(items, value), Total(items, weight), hi);
  }

  lemma PartInProportion(value: real, weight: real, lo: real, hi: real)
    requires weight >= 0.0 && (weight == 0.0 ==> value == 0.0)
    requires weight > 0.0 ==> lo <= value / weight <= hi
    ensures AtLeast(value, lo, weight) && AtMost(value, hi, weight)
  {
    if weight > 0.0 {
      DivideBound(value, weight, lo);
      DivideBound(value, weight, hi);
    }
  }

  lemma WinsInProportion(m: Metrics, lo: real, hi: real)
    requires m.Accepted() && (m.trades > 0 ==> lo <= WinRate(m) <= hi)
    ensures AtLeast(AsReal(Wins)(m), lo, AsReal(Trades)(m)) && AtMost(AsReal(Wins)(m), hi, AsReal(Trades)(m))
  {
    PartInProportion(AsReal(Wins)(m), AsReal(Trades)(m), lo, hi);
  }

  /** The pooled win rate respects every bound on the win rates of the windows that traded. */
  lemma WinRateBounded(items: seq<Backtest>, lo: real, hi: real)
    requires AllAccepted(items) && Pool(items).trades > 0
    requires forall i :: i in items && i.metrics.trades > 0 ==> lo <= WinRate(i.metrics) <= hi
    ensures Pool(items).winRate.Some? && lo <= Pool(items).winRate.value <= hi
  {
    hide AtLeast, AtMost;
    CountIsTotal(items, Wins);
    CountIsTotal(items, Trades);
    forall i | i in items
      ensures AtLeast(AsReal(Wins)(i.metrics), lo, AsReal(Trades)(i.metrics))
      ensures AtMost(AsReal(Wins)(i.metrics), hi, AsReal(Trades)(i.metrics))
    {
      assert i.Accepted();
      WinsInProportion(i.metrics, lo, hi);
    }
    RatioBoundedBelow(items, lo, AsReal(Wins), AsReal(Trades));
    RatioBoundedAbove(items, hi, AsReal(Wins), AsReal(Trades));
  }

  lemma ProfitInProportion(m: Metrics, lo: real)
    requires m.Accepted() && (m.grossLoss > 0.0 ==> lo <= ProfitFactor(m))
    ensures AtLeast(m.grossProfit, lo, m.grossLoss)
  {
    if m.grossLoss > 0.0 {
      DivideBound(m.grossProfit, m.grossLoss, lo);
    }
  }

  /** A lower bound on the profit factors of the windows with losses bounds the pooled one. */
  lemma ProfitFactorBoundedBelow(items: seq<Backtest>, lo: real)
    requires AllAccepted(items) && Pool(items).grossLoss > 0.0
    requires forall i :: i in items && i.metrics.grossLoss > 0.0 ==> lo <= ProfitFactor(i.metrics)
    ensures Pool(items).profitFactor.Some? && lo <= Pool(items).profitFactor.value
  {
    hide AtLeast, ProfitFactor;
    forall i | i in items
      ensures AtLeast(GrossProfit(i.metrics), lo, GrossLoss(i.metrics))
    {
      assert i.Accepted();
      ProfitInProportion(i.metrics, lo);
    }
    RatioBoundedBelow(items, lo, GrossProfit, GrossLoss);
  }

  /** The profit of a window without losses, which has no factor of its own. */
  function LossFreeProfit(m: Metrics): real {
    if m.grossLoss == 0.0 then m.grossProfit else 0.0
  }

  /** How much more a window with losses could have earned before its factor exceeded the bound. */
  function Slack(hi: real): Metrics -> real {
    (m: Metrics) => if m.grossLoss == 0.0 then 0.0 else hi * m.grossLoss - m.grossProfit
  }

  lemma {:induction false} SlackBalance(items: seq<Backtest>, hi: real)
    ensures hi * Total(items, GrossLoss) - Total(items, GrossProfit) ==
            Total(items, Slack(hi)) - Total(items, LossFreeProfit)
  {
    if items == [] {
    } else {
      var init, last := items[..|items| - 1], items[|items| - 1];
      SlackBalance(init, hi);
      Distribute(hi, Total(init, GrossLoss), last.metrics.grossLoss);
    }
  }

  /**
   The pooled factor stays within a bound exactly when the loss-free profit fits into the
   slack of the other windows.
   */
  lemma ProfitFactorBoundedExactly(items: seq<Backtest>, hi: real)
    requires Pool(items).grossLoss > 0.0
    ensures Pool(items).profitFactor.Some?
    ensures Pool(items).profitFactor.value <= hi <==> Total(items, LossFreeProfit) <= Total(items, Slack(hi))
  {
    FactorOfPool(items);
    hide Pool, Total, Slack, LossFreeProfit;
    SlackBalance(items, hi);
    DivideBound(Total(items, GrossProfit), Total(items, GrossLoss), hi);
  }

  lemma FactorOfPool(items: seq<Backtest>)
    ensures Pool(items).grossLoss == Total(items, GrossLoss)
    ensures Pool(items).grossLoss > 0.0 ==>
              Pool(items).profitFactor == Some(Total(items, GrossProfit) / Total(items, GrossLoss))
  {
    hide Total, Count, WorstDrawdown;
  }

  /**
   In particular, a bound on the factors of the windows with losses carries over when no
   window profits without loss.
   */
  lemma ProfitFactorBoundedAbove(items: seq<Backtest>, hi: real)
    requires AllAccepted(items) && Pool(items).grossLoss > 0.0
    requires forall i :: i in items ==> i.metrics.grossLoss > 0.0 || i.metrics.grossProfit == 0.0
    requires forall i :: i in items && i.metrics.grossLoss > 0.0 ==> ProfitFactor(i.metrics) <= hi
    ensures Pool(items).profitFactor.Some? && Pool(items).profitFactor.value <= hi
  {
    hide Pool, Total, Slack, LossFreeProfit, ProfitFactor;
    ProfitFactorBoundedExactly(items, hi);
    forall i | i in items
      ensures 0.0 <= Slack(hi)(i.metrics) && LossFreeProfit(i.metrics) == 0.0
    {
      assert i.metrics.Accepted();
      SlackNotNegative(i.metrics, hi);
    }
    TotalSign(items, Slack(hi), LossFreeProfit);
  }

  lemma SlackNotNegative(m: Metrics, hi: real)
    requires m.Accepted() && (m.grossLoss > 0.0 || m.grossProfit == 0.0)
    requires m.grossLoss > 0.0 ==> ProfitFactor(m) <= hi
    ensures 0.0 <= Slack(hi)(m) && LossFreeProfit(m) == 0.0
  {
    if m.grossLoss > 0.0 {
      DivideBound(m.grossProfit, m.grossLoss, hi);
    }
  }

  lemma {:induction false} TotalSign(items: seq<Backtest>, f: Metrics -> real, g: Metrics -> real)
    requires forall i :: i in items ==> 0.0 <= f(i.metrics) && g(i.metrics) == 0.0
    ensures Total(items, g) == 0.0 <= Total(items, f)
  {
    if items == [] {
    } else {
      var init, last := items[..|items| - 1], items[|items| - 1];
      assert forall i :: i in init ==> i in items;
      TotalSign(init, f, g);
      assert last in items;
    }
  }

  /** A window with a profit and no loss raises the pooled factor above whatever it was. */
  lemma ProfitWithoutLossRaisesTheFactor(items: seq<Backtest>, b: Backtest)
    requires AllAccepted(items) && b.Accepted() && Pool(items).grossLoss > 0.0
    requires b.metrics.grossLoss == 0.0 && b.metrics.grossProfit > 0.0
    ensures
      var before, after := Pool(items).profitFactor, Pool(items + [b]).profitFactor;
      before.Some? && after.Some? && before.value < after.value
  {
    assert (items + [b])[..|items + [b]| - 1] == items;
    var profit, loss := Total(items, GrossProfit), Total(items, GrossLoss);
    DivideBound(profit + b.metrics.grossProfit, loss, profit / loss);
    assert profit / loss * loss == profit;
  }

  // ---- Concatenation ----

  lemma {:induction false} CountAppend(a: seq<Backtest>, b: seq<Backtest>, f: Metrics -> nat)
    ensures Count(a + b, f) == Count(a, f) + Count(b, f)
  {
    if b == [] {
      assert a + b == a;
    } else {
      CountAppend(a, b[..|b| - 1], f);
      assert (a + b)[..|a + b| - 1] == a + b[..|b| - 1];
    }
  }

  lemma {:induction false} TotalAppend(a: seq<Backtest>, b: seq<Backtest>, f: Metrics -> real)
    ensures Total(a + b, f) == Total(a, f) + Total(b, f)
  {
    if b == [] {
      assert a + b == a;
    } else {
      TotalAppend(a, b[..|b| - 1], f);
      assert (a + b)[..|a + b| - 1] == a + b[..|b| - 1];
    }
  }

  lemma {:induction false} WorstAppend(a: seq<Backtest>, b: seq<Backtest>)
    ensures WorstDrawdown(a + b) == Larger(WorstDrawdown(a), WorstDrawdown(b))
  {
    if b == [] {
      assert a + b == a;
    } else {
      WorstAppend(a, b[..|b| - 1]);
      assert (a + b)[..|a + b| - 1] == a + b[..|b| - 1];
    }
  }

  /** What pooling a concatenation gives is determined by pooling its parts. */
  function Merge(a: Aggregate, b: Aggregate): Aggregate {
    var trades, wins := a.trades + b.trades, a.wins + b.wins;
    var profit, loss, net := a.grossProfit + b.grossProfit, a.grossLoss + b.grossLoss, a.net + b.net;
    Aggregate(a.results + b.results, trades, wins, a.losses + b.losses, a.flats + b.flats, profit, loss, net,
              Ratio(wins as real, trades as real), Ratio(profit, loss), Ratio(net, trades as real),
              Ratio(net, (a.results + b.results) as real), Larger(a.maximumDrawdown, b.maximumDrawdown))
  }

  lemma PoolOfConcatenation(a: seq<Backtest>, b: seq<Backtest>)
    ensures Pool(a + b) == Merge(Pool(a), Pool(b))
  {
    hide Count, Total, WorstDrawdown, Ratio;
    CountAppend(a, b, Trades);
    CountAppend(a, b, Wins);
    CountAppend(a, b, Losses);
    CountAppend(a, b, Flats);
    TotalAppend(a, b, GrossProfit);
    TotalAppend(a, b, GrossLoss);
    TotalAppend(a, b, Net);
    WorstAppend(a, b);
  }

  lemma CountOne(b: Backtest, f: Metrics -> nat)
    ensures Count([b], f) == f(b.metrics)
  {
    var one := [b];
    assert one[..|one| - 1] == [];
  }

  lemma TotalOne(b: Backtest, f: Metrics -> real)
    ensures Total([b], f) == f(b.metrics)
  {
    var one := [b];
    assert one[..|one| - 1] == [];
  }

  /** Pooling one backtest gives its own figures. */
  lemma PoolOfOne(b: Backtest)
    ensures
      var m, p := b.metrics, Pool([b]);
      && p.results == 1
      && p.trades == m.trades && p.wins == m.wins && p.losses == m.losses && p.flats == m.flats
      && p.grossProfit == m.grossProfit && p.grossLoss == m.grossLoss
      && p.net == m.net && p.averageNet == Some(m.net)
      && p.winRate == (if m.trades == 0 then None else Some(m.wins as real / m.trades as real))
      && p.profitFactor == (if m.grossLoss == 0.0 then None else Some(m.grossProfit / m.grossLoss))
      && p.expectancy == (if m.trades == 0 then None else Some(m.net / m.trades as real))
      && p.maximumDrawdown == b.drawdown
  {
    CountOne(b, Trades);
    CountOne(b, Wins);
    CountOne(b, Losses);
    CountOne(b, Flats);
    TotalOne(b, GrossProfit);
    TotalOne(b, GrossLoss);
    TotalOne(b, Net);
    var one := [b];
    assert one[..|one| - 1] == [] && WorstDrawdown([]) == None;
    assert b.metrics.net / 1.0 == b.metrics.net;
  }

  lemma FactorOfThree(a: Backtest, b: Backtest, c: Backtest)
    ensures Pool([a, b, c]).profitFactor ==
            Ratio(a.metrics.grossProfit + b.metrics.grossProfit + c.metrics.grossProfit,
                  a.metrics.grossLoss + b.metrics.grossLoss + c.metrics.grossLoss)
  {
    assert [a, b, c] == [a] + [b] + [c];
    TotalAppend([a] + [b], [c], GrossProfit);
    TotalAppend([a], [b], GrossProfit);
    TotalAppend([a] + [b], [c], GrossLoss);
    TotalAppend([a], [b], GrossLoss);
    TotalOne(a, GrossProfit);
    TotalOne(b, GrossProfit);
    TotalOne(c, GrossProfit);
    TotalOne(a, GrossLoss);
    TotalOne(b, GrossLoss);
    TotalOne(c, GrossLoss);
    hide Total, Count;
  }

  /** One trade, won or lost, with its amounts. */
  function Traded(won: bool, profit: real, loss: real): Backtest {
    Backtest(Metrics(1, if won then 1 else 0, if won then 0 else 1, 0, profit, loss, profit - loss, None, None), None)
  }

  /**
   In any unit of money: windows with the factors 1 and 2 and a loss-free one; pooled, the
   factor is six and a half.
   */
  lemma PoolExceedsEveryFactor(unit: real) returns (a: Backtest, b: Backtest, c: Backtest)
    requires unit > 0.0
    ensures a.Accepted() && b.Accepted() && c.Accepted()
    ensures a.metrics.grossLoss > 0.0 && ProfitFactor(a.metrics) == 1.0
    ensures b.metrics.grossLoss > 0.0 && ProfitFactor(b.metrics) == 2.0
    ensures c.metrics.grossLoss == 0.0
    ensures Pool([a, b, c]).profitFactor == Some(6.5)
  {
    a, b, c := Traded(false, unit, unit), Traded(false, 2.0 * unit, unit), Traded(true, 10.0 * unit, 0.0);
    hide Pool;
    FactorOfThree(a, b, c);
    Quotient(unit, unit, 1.0);
    Quotient(2.0 * unit, unit, 2.0);
    Quotient(13.0 * unit, 2.0 * unit, 6.5);
  }

  lemma Quotient(x: real, y: real, q: real)
    requires y > 0.0 && q * y == x
    ensures x / y == q
  {
    DivideBound(x, y, q);
  }

  /** The averages times what they are averaged over are the totals. */
  lemma AveragesTimesCounts(items: seq<Backtest>)
    ensures
      var p := Pool(items);
      && (p.trades > 0 <==> p.expectancy.Some?) && (p.trades > 0 <==> p.winRate.Some?)
      && (items != [] <==> p.averageNet.Some?)
      && (p.expectancy.Some? ==> p.expectancy.value * (p.trades as real) == p.net)
      && (p.winRate.Some? ==> p.winRate.value * (p.trades as real) == p.wins as real)
      && (p.averageNet.Some? ==> p.averageNet.value * (p.results as real) == p.net)
  {
    RatioTimes(Count(items, Wins) as real, Count(items, Trades) as real);
    RatioTimes(Total(items, Net), Count(items, Trades) as real);
    RatioTimes(Total(items, Net), |items| as real);
    hide Ratio;
  }

  lemma RatioTimes(a: real, b: real)
    ensures b == 0.0 <==> Ratio(a, b).None?
    ensures b != 0.0 ==> Ratio(a, b).value * b == a
  {
  }

  // ---- Acceptance ----

  lemma {:induction false} CountsSplit(items: seq<Backtest>)
    requires AllAccepted(items)
    ensures Count(items, Wins) + Count(items, Losses) + Count(items, Flats) == Count(items, Trades)
    ensures 0.0 <= Total(items, GrossProfit) && 0.0 <= Total(items, GrossLoss)
  {
    if items == [] {
    } else {
      assert forall i :: i in items[..|items| - 1] ==> i in items;
      CountsSplit(items[..|items| - 1]);
      assert items[|items| - 1] in items;
    }
  }

  lemma {:induction false} WorstDrawdownIsMaximum(items: seq<Backtest>)
    ensures
      match WorstDrawdown(items)
      case None => forall i :: i in items ==> i.drawdown.None?
      case Some(d) =>
        && (exists i :: i in items && i.drawdown == Some(d))
        && forall i :: i in items && i.drawdown.Some? ==> i.drawdown.value <= d
  {
    if items == [] {
    } else {
      var init, last := items[..|items| - 1], items[|items| - 1];
      WorstDrawdownIsMaximum(init);
      assert forall i :: i in items <==> i in init || i == last;
    }
  }

  /** Pooling accepted backtests always passes the aggregate's checks. */
  lemma PoolAccepted(items: seq<Backtest>)
    requires AllAccepted(items)
    ensures Pool(items).Accepted() && Pool(items).results == |items|
  {
    CountsSplit(items);
    WorstDrawdownIsMaximum(items);
    var wins, trades := Count(items, Wins), Count(items, Trades);
    if trades > 0 {
      DivideBound(wins as real, trades as real, 0.0);
      DivideBound(wins as real, trades as real, 1.0);
    }
    if Total(items, GrossLoss) > 0.0 {
      DivideBound(Total(items, GrossProfit), Total(items, GrossLoss), 0.0);
    }
  }

  ghost predicate ResultsAccepted(results: seq<WindowResult>) {
    forall r :: r in results && r.WindowCompleted? ==>
      r.validation.Accepted() && (r.best.RunCompleted? ==> r.best.output.Accepted())
  }

  lemma {:induction false} ItemsOfResults(results: seq<WindowResult>)
    requires ResultsAccepted(results)
    ensures AllAccepted(TrainingItems(results)) && AllAccepted(ValidationItems(results))
    ensures |ValidationItems(results)| == |ChosenIds(results)| == CompletedCount(results)
  {
    if results == [] {
    } else {
      var init, last := results[..|results| - 1], results[|results| - 1];
      assert forall r :: r in init ==> r in results;
      ItemsOfResults(init);
      assert last in results;
    }
  }

  lemma {:induction false} ProfitableAtMost(items: seq<Backtest>)
    ensures Count(items, Profitable) <= |items|
  {
    if items == [] {
    } else {
      ProfitableAtMost(items[..|items| - 1]);
    }
  }

  lemma ProfitableRate(items: seq<Backtest>)
    ensures Count(items, Profitable) <= |items|
    ensures IsFraction(Ratio(Count(items, Profitable) as real, |items| as real))
  {
    ProfitableAtMost(items);
    var n, d := Count(items, Profitable) as real, |items| as real;
    if d > 0.0 {
      DivideBound(n, d, 0.0);
      DivideBound(n, d, 1.0);
    }
  }

  /**
   The summary of accepted results passes every constructor's checks, and pools one
   validation per completed window.
   */
  lemma SummaryAccepted(results: seq<WindowResult>)
    requires ResultsAccepted(results)
    ensures
      var s := CreateSummary(results);
      && s.Accepted() && s.training.Accepted() && s.validation.Accepted()
      && s.validation.results == s.completed
      && Selections(s.frequencies) == s.completed
  {
    hide Pool, Frequencies, Ratio, Count, Selections, StrictlyOrdered, ValidationItems, TrainingItems, ChosenIds;
    var validated := ValidationItems(results);
    CompletedAndFailed(results);
    ItemsOfResults(results);
    PoolAccepted(validated);
    PoolAccepted(TrainingItems(results));
    ProfitableRate(validated);
    FrequenciesExact(ChosenIds(results));
  }

  // ---- The summary's counts, read off the results ----

  predicate IsCompleted(r: WindowResult) {
    r.WindowCompleted?
  }

  predicate IsFailed(r: WindowResult) {
    r.WindowFailed?
  }

  predicate MadeMoney(r: WindowResult) {
    r.WindowCompleted? && r.validation.metrics.net > 0.0
  }

  function Chose(id: string): WindowResult -> bool {
    (r: WindowResult) => r.WindowCompleted? && r.best.parameter.id == id
  }

  lemma {:induction false} CountsByPosition(results: seq<WindowResult>)
    ensures CompletedCount(results) == |Where(results, IsCompleted)|
    ensures FailedCount(results) == |Where(results, IsFailed)|
    ensures Count(ValidationItems(results), Profitable) == |Where(results, MadeMoney)|
    ensures |ValidationItems(results)| == |Where(results, IsCompleted)|
  {
    hide Where;
    if results == [] {
      WhereNone(IsCompleted);
      WhereNone(IsFailed);
      WhereNone(MadeMoney);
    } else {
      var init, last := results[..|results| - 1], results[|results| - 1];
      assert results == init + [last];
      CountsByPosition(init);
      WhereSnoc(init, last, IsCompleted);
      WhereSnoc(init, last, IsFailed);
      WhereSnoc(init, last, MadeMoney);
      if last.WindowCompleted? {
        CountAppend(ValidationItems(init), [last.validation], Profitable);
        CountOne(last.validation, Profitable);
      } else {
        assert ValidationItems(results) == ValidationItems(init) + [] == ValidationItems(init);
      }
      hide Count;
    }
  }

  lemma {:induction false} ChoicesByPosition(results: seq<WindowResult>, id: string)
    ensures multiset(ChosenIds(results))[id] == |Where(results, Chose(id))|
  {
    hide Where;
    if results == [] {
      WhereNone(Chose(id));
    } else {
      var init, last := results[..|results| - 1], results[|results| - 1];
      assert results == init + [last];
      ChoicesByPosition(init, id);
      WhereSnoc(init, last, Chose(id));
    }
  }

  /**
   The summary counts the windows, those completed, failed and with a profitable validation;
   the profitable rate is their share of the completed ones, and missing only without any;
   and it lists each parameter chosen with the number of windows that chose it, the most
   frequent first and ties by id.
   */
  lemma SummaryCounts(results: seq<WindowResult>)
    ensures
      var s, fs := CreateSummary(results), CreateSummary(results).frequencies;
      && s.windows == |results|
      && s.completed == |Where(results, IsCompleted)| && s.failed == |Where(results, IsFailed)|
      && s.profitable == |Where(results, MadeMoney)|
      && (s.profitableRate.None? <==> s.completed == 0)
      && (s.profitableRate.Some? ==> s.profitableRate.value * (s.completed as real) == s.profitable as real)
      && (forall f :: f in fs <==> f.count > 0 && f.count == |Where(results, Chose(f.parameterId))|)
      && forall i, j :: 0 <= i < j < |fs| ==>
          || fs[i].count > fs[j].count
          || (fs[i].count == fs[j].count && fs[i].parameterId != fs[j].parameterId
              && LexLeq(fs[i].parameterId, fs[j].parameterId))
  {
    CountsByPosition(results);
    var ids := ChosenIds(results);
    FrequenciesExact(ids);
    RatioTimes(CreateSummary(results).profitable as real, CreateSummary(results).completed as real);
    hide Where, Pool, Frequencies, Count, Selections, ValidationItems, TrainingItems, ChosenIds, LexLeq, Ratio;
    forall f: Frequency
      ensures f.parameterId in ids && f.count == multiset(ids)[f.parameterId] <==>
              f.count > 0 && f.count == |Where(results, Chose(f.parameterId))|
    {
      ChoicesByPosition(results, f.parameterId);
    }
  }

  lemma {:induction false} TrainingAppend(a: seq<WindowResult>, b: seq<WindowResult>)
    ensures TrainingItems(a + b) == TrainingItems(a) + TrainingItems(b)
  {
    hide TrainingItems;
    if b == [] {
      TrainingAppendNothing();
      assert a + b == a;
    } else {
      var init, last := b[..|b| - 1], b[|b| - 1];
      TrainingAppend(a, init);
      TrainingAppendOneMore(a + init, last);
      TrainingAppendOneMore(init, last);
      assert init + [last] == b && (a + init) + [last] == a + b;
      var x, y, z := TrainingItems(a), TrainingItems(init), TrainingItems([last]);
      assert (x + y) + z == x + (y + z);
    }
  }

  lemma TrainingAppendNothing()
    ensures TrainingItems([]) == []
  {
  }

  lemma TrainingAppendOneMore(a: seq<WindowResult>, last: WindowResult)
    ensures TrainingItems(a + [last]) == TrainingItems(a) + TrainingItems([last])
  {
    var all, one := a + [last], [last];
    assert all[..|all| - 1] == a && one[..|one| - 1] == [];
    assert TrainingItems([]) == [];
  }

  lemma {:induction false} ValidationAppend(a: seq<WindowResult>, b: seq<WindowResult>)
    ensures ValidationItems(a + b) == ValidationItems(a) + ValidationItems(b)
  {
    hide ValidationItems;
    if b == [] {
      ValidationAppendNothing();
      assert a + b == a;
    } else {
      var init, last := b[..|b| - 1], b[|b| - 1];
      ValidationAppend(a, init);
      ValidationAppendOneMore(a + init, last);
      ValidationAppendOneMore(init, last);
      assert init + [last] == b && (a + init) + [last] == a + b;
      var x, y, z := ValidationItems(a), ValidationItems(init), ValidationItems([last]);
      assert (x + y) + z == x + (y + z);
    }
  }

  lemma ValidationAppendNothing()
    ensures ValidationItems([]) == []
  {
  }

  lemma ValidationAppendOneMore(a: seq<WindowResult>, last: WindowResult)
    ensures ValidationItems(a + [last]) == ValidationItems(a) + ValidationItems([last])
  {
    var all, one := a + [last], [last];
    assert all[..|all| - 1] == a && one[..|one| - 1] == [];
    assert ValidationItems([]) == [];
  }

  lemma {:induction false} ResultCountsAppend(a: seq<WindowResult>, b: seq<WindowResult>)
    ensures CompletedCount(a + b) == CompletedCount(a) + CompletedCount(b)
    ensures FailedCount(a + b) == FailedCount(a) + FailedCount(b)
  {
    if b == [] {
      assert a + b == a;
    } else {
      ResultCountsAppend(a, b[..|b| - 1]);
      assert (a + b)[..|a + b| - 1] == a + b[..|b| - 1];
    }
  }

  /** A summary adds up window by window: the counts, and the pools of the training and of the validation runs. */
  lemma SummaryOfConcatenation(a: seq<WindowResult>, b: seq<WindowResult>)
    ensures
      var x, y, s := CreateSummary(a), CreateSummary(b), CreateSummary(a + b);
      && s.windows == x.windows + y.windows
      && s.completed == x.completed + y.completed
      && s.failed == x.failed + y.failed
      && s.profitable == x.profitable + y.profitable
      && s.training == Merge(x.training, y.training)
      && s.validation == Merge(x.validation, y.validation)
  {
    TrainingAppend(a, b);
    ValidationAppend(a, b);
    ResultCountsAppend(a, b);
    PoolOfConcatenation(TrainingItems(a), TrainingItems(b));
    PoolOfConcatenation(ValidationItems(a), ValidationItems(b));
    CountAppend(ValidationItems(a), ValidationItems(b), Profitable);
    hide Pool, Merge, Frequencies, Ratio;
  }

  lemma ItemsOfOne(r: WindowResult)
    ensures TrainingItems([r]) == if r.WindowCompleted? && r.best.RunCompleted? then [r.best.output] else []
    ensures ValidationItems([r]) == if r.WindowCompleted? then [r.validation] else []
    ensures CompletedCount([r]) == (if r.WindowCompleted? then 1 else 0) && FailedCount([r]) == 1 - CompletedCount([r])
  {
    var one := [r];
    assert one[..|one| - 1] == [];
    assert TrainingItems([]) == [] && ValidationItems([]) == [];
  }

  /** The summary of one completed window pools its selected training run and its validation; a failed one adds none. */
  lemma SummaryOfOne(r: WindowResult)
    ensures
      var s := CreateSummary([r]);
      if r.WindowCompleted? then
        && (s.windows, s.completed, s.failed) == (1, 1, 0)
        && s.profitable == (if r.validation.metrics.net > 0.0 then 1 else 0)
        && s.training == Pool(if r.best.RunCompleted? then [r.best.output] else [])
        && s.validation == Pool([r.validation])
      else
        && (s.windows, s.completed, s.failed) == (1, 0, 1) && s.profitable == 0
        && s.training == Pool([]) && s.validation == Pool([])
  {
    ItemsOfOne(r);
    if r.WindowCompleted? {
      CountOne(r.validation, Profitable);
    }
    hide Pool, Frequencies, Ratio, TrainingItems, ValidationItems, CompletedCount, FailedCount;
  }

  /** Pooling nothing gives zeros and no rates. */
  lemma PoolOfNone()
    ensures Pool([]) == Aggregate(0, 0, 0, 0, 0, 0.0, 0.0, 0.0, None, None, None, None, None)
  {
  }

  // ---- Parameter frequencies ----

  function Selections(fs: seq<Frequency>): int {
    if fs == [] then 0 else fs[0].count + Selections(fs[1..])
  }

  lemma {:induction false} SelectionsAppend(a: seq<Frequency>, b: seq<Frequency>)
    ensures Selections(a + b) == Selections(a) + Selections(b)
  {
    if a == [] {
      assert a + b == b;
    } else {
      SelectionsAppend(a[1..], b);
      assert (a + b)[1..] == a[1..] + b;
    }
  }

  lemma {:induction false} InsertSelections(x: Frequency, fs: seq<Frequency>)
    ensures Selections(Insert(x, fs, FrequencyLeq)) == x.count + Selections(fs)
  {
    if fs != [] && !FrequencyLeq(x, fs[0]) {
      InsertSelections(x, fs[1..]);
      assert Insert(x, fs, FrequencyLeq)[1..] == Insert(x, fs[1..], FrequencyLeq);
    } else {
      assert ([x] + fs)[1..] == fs;
    }
  }

  lemma {:induction false} SortSelections(fs: seq<Frequency>)
    ensures Selections(Sort(fs, FrequencyLeq)) == Selections(fs)
  {
    if fs == [] {
    } else {
      SortSelections(fs[1..]);
      InsertSelections(fs[0], Sort(fs[1..], FrequencyLeq));
    }
  }

  /** Counting one more occurrence raises the sum by one, or not at all if the id is not listed. */
  lemma {:induction false} CountedBump(distinct: seq<string>, ids: seq<string>, x: string)
    requires NoDuplicates(distinct)
    ensures Selections(Counted(distinct, ids + [x])) ==
            Selections(Counted(distinct, ids)) + if x in distinct then 1 else 0
  {
    if distinct == [] {
    } else {
      CountedBump(distinct[1..], ids, x);
      assert Counted(distinct, ids)[1..] == Counted(distinct[1..], ids);
      assert Counted(distinct, ids + [x])[1..] == Counted(distinct[1..], ids + [x]);
      assert x in distinct <==> x == distinct[0] || x in distinct[1..];
    }
  }

  lemma {:induction false} CountedSum(ids: seq<string>)
    ensures Selections(Counted(Distinct(ids), ids)) == |ids|
  {
    if ids == [] {
    } else {
      var init, x := ids[..|ids| - 1], ids[|ids| - 1];
      var distinct := Distinct(init);
      assert ids == init + [x];
      CountedSum(init);
      DistinctMeaning(init);
      CountedBump(distinct, init, x);
      if x !in init {
        assert Counted(distinct + [x], ids) == Counted(distinct, ids) + [Frequency(x, 1)];
        SelectionsAppend(Counted(distinct, ids), [Frequency(x, 1)]);
      }
    }
  }

  lemma FrequencyOrder()
    ensures TotalPreorder(FrequencyLeq)
  {
    LexIsTotalOrder();
  }

  /**
   The frequencies list every chosen parameter once with the number of times it was
   chosen, most frequent first and ties by id, and together they count every choice.
   */
  lemma FrequenciesExact(ids: seq<string>)
    ensures
      var fs := Frequencies(ids);
      && (forall f :: f in fs <==> f.parameterId in ids && f.count == multiset(ids)[f.parameterId])
      && StrictlyOrdered(fs, FrequencyLeq)
      && (forall i, j :: 0 <= i < j < |fs| ==> fs[i].parameterId != fs[j].parameterId)
      && (forall f :: f in fs ==> f.count > 0)
      && Selections(fs) == |ids|
  {
    var distinct := Distinct(ids);
    var counted := Counted(distinct, ids);
    var fs := Frequencies(ids);
    CountedSum(ids);
    SortSelections(counted);
    DistinctMeaning(ids);
    SortMembers(counted, FrequencyLeq);
    SortNoDuplicates(counted, FrequencyLeq);
    CountedMembers(distinct, ids);
    FrequencyOrder();
    SortOrdered(counted, FrequencyLeq);
    hide Distinct, Counted, Sort, Frequencies, Selections, LexLeq;
    DifferentIds(fs, ids);
  }

  /** Frequencies that are all different and read off the same ids name each id once. */
  lemma DifferentIds(fs: seq<Frequency>, ids: seq<string>)
    requires NoDuplicates(fs) && Ordered(fs, FrequencyLeq)
    requires forall f :: f in fs ==> f.parameterId in ids && f.count == multiset(ids)[f.parameterId]
    ensures StrictlyOrdered(fs, FrequencyLeq)
    ensures forall i, j :: 0 <= i < j < |fs| ==> fs[i].parameterId != fs[j].parameterId
    ensures forall f :: f in fs ==> f.count > 0
  {
    LexIsTotalOrder();
    hide LexLeq;
    forall i, j | 0 <= i < j < |fs|
      ensures fs[i].parameterId != fs[j].parameterId
      ensures FrequencyLeq(fs[i], fs[j]) && !FrequencyLeq(fs[j], fs[i])
    {
      assert fs[i] in fs && fs[j] in fs;
    }
  }

  lemma CountedMembers(distinct: seq<string>, ids: seq<string>)
    requires NoDuplicates(distinct)
    ensures NoDuplicates(Counted(distinct, ids))
    ensures forall f :: f in Counted(distinct, ids) <==>
              f.parameterId in distinct && f.count == multiset(ids)[f.parameterId]
  {
    var counted := Counted(distinct, ids);
    forall f: Frequency | f.parameterId in distinct && f.count == multiset(ids)[f.parameterId]
      ensures f in counted
    {
      var i :| 0 <= i < |distinct| && distinct[i] == f.parameterId;
      assert counted[i] == f;
    }
  }
}
