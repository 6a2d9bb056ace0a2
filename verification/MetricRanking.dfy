/** Ranking optimisation runs by one metric. */
module MetricRanking {
  import opened Wrappers
  import opened Sorting
  import opened WalkForwardResults

  datatype Metric = NetProfit | ProfitFactor | WinRate | MaxDrawdown

  predicate IsCompleted(run: Run) {
    run.RunCompleted?
  }

  function Value(metric: Metric, run: Run): Option<real> {
    if run.RunFailed? then None
    else match metric
      case NetProfit => Some(run.output.metrics.net)
      case ProfitFactor => run.output.metrics.profitFactor
      case WinRate => run.output.metrics.winRate
      case MaxDrawdown => run.output.drawdown
  }

  /**
   What the sort key minimises; a missing cost comes last. For every metric but the
   drawdown the key is `value or -inf`, so a value of zero counts as missing.
   */
  function Cost(metric: Metric, run: Run): Option<real> {
    var value := Value(metric, run);
    if metric.MaxDrawdown? then value
    else if value.None? || value.value == 0.0 then None
    else Some(-value.value)
  }

  predicate Cheaper(a: Option<real>, b: Option<real>) {
    a.Some? && (b.None? || a.value < b.value)
  }

  /** Ties go to the smaller id for the drawdown, and to the larger id for the reversed sorts. */
  predicate RunLeq(metric: Metric, a: Run, b: Run) {
    var x, y := Cost(metric, a), Cost(metric, b);
    || Cheaper(x, y)
    || (x == y && if metric.MaxDrawdown? then LexLeq(a.parameter.id, b.parameter.id)
                  else LexLeq(b.parameter.id, a.parameter.id))
  }

  function Order(metric: Metric): (Run, Run) -> bool {
    (a: Run, b: Run) => RunLeq(metric, a, b)
  }

  function RankRuns(runs: seq<Run>, metric: Metric): seq<Run> {
    Sort(Keep(runs, IsCompleted), Order(metric))
  }

  /** The first of the ranking. */
  function BestRun(runs: seq<Run>, metric: Metric): Option<Run> {
    var ranked := RankRuns(runs, metric);
    if ranked == [] then None else Some(ranked[0])
  }

  lemma OrderIsTotal(metric: Metric)
    ensures TotalPreorder(Order(metric))
  {
    LexIsTotalOrder();
  }

  /** The best run is a completed one that no completed run beats; there is none only without completed runs. */
  lemma BestRunIsLeast(runs: seq<Run>, metric: Metric)
    ensures
      match BestRun(runs, metric)
      case None => forall r :: r in runs ==> r.RunFailed?
      case Some(best) =>
        && best in runs && best.RunCompleted?
        && forall r :: r in runs && r.RunCompleted? ==> RunLeq(metric, best, r)
  {
    var completed := Keep(runs, IsCompleted);
    var ranked := RankRuns(runs, metric);
    OrderIsTotal(metric);
    SortOrdered(completed, Order(metric));
    SortMembers(completed, Order(metric));
    forall r
      ensures r in ranked <==> r in runs && r.RunCompleted?
    {
      KeepMember(runs, IsCompleted, r);
    }
    LexIsTotalOrder();
    forall r | r in ranked
      ensures RunLeq(metric, ranked[0], r)
    {
      var i :| 0 <= i < |ranked| && ranked[i] == r;
      if i > 0 {
        assert Order(metric)(ranked[0], ranked[i]);
      }
    }
  }

  ghost predicate Largest(runs: seq<Run>, metric: Metric, best: Run) {
    Value(metric, best).Some? &&
    forall r :: r in runs && Value(metric, r).Some? ==> Value(metric, r).value <= Value(metric, best).value
  }

  /** A metric that is positive for some run selects the run where it is largest. */
  lemma PositiveSelectsLargest(runs: seq<Run>, metric: Metric)
    requires !metric.MaxDrawdown?
    requires exists r :: r in runs && Value(metric, r).Some? && Value(metric, r).value > 0.0
    ensures BestRun(runs, metric).Some? && Largest(runs, metric, BestRun(runs, metric).value)
  {
    BestRunIsLeast(runs, metric);
    var positive :| positive in runs && Value(metric, positive).Some? && Value(metric, positive).value > 0.0;
    var best := BestRun(runs, metric).value;
    assert RunLeq(metric, best, positive);
    forall r | r in runs && Value(metric, r).Some?
      ensures Value(metric, r).value <= Value(metric, best).value
    {
      assert RunLeq(metric, best, r);
    }
  }

  ghost predicate DistinctRuns(runs: seq<Run>) {
    forall r, o :: r in runs && o in runs && r.parameter.id == o.parameter.id ==> r == o
  }

  /** The completed run with the largest id. */
  ghost predicate LastById(runs: seq<Run>, r: Run) {
    r in runs && r.RunCompleted? && forall o :: o in runs && o.RunCompleted? ==> LexLeq(o.parameter.id, r.parameter.id)
  }

  /**
   A metric that is never negative, profit factor or win rate, selects a run where it
   is largest exactly when it is positive somewhere, or else when the completed run
   with the largest id reports it: values of zero rank like missing ones.
   */
  lemma SelectsLargestExactly(runs: seq<Run>, metric: Metric)
    requires metric.ProfitFactor? || metric.WinRate?
    requires DistinctRuns(runs) && exists r :: r in runs && r.RunCompleted?
    requires forall r :: r in runs && r.RunCompleted? ==> r.output.metrics.Accepted()
    ensures BestRun(runs, metric).Some?
    ensures Largest(runs, metric, BestRun(runs, metric).value) <==>
            || (exists r :: r in runs && Value(metric, r).Some? && Value(metric, r).value > 0.0)
            || exists r :: LastById(runs, r) && Value(metric, r).Some?
  {
    BestRunIsLeast(runs, metric);
    var best := BestRun(runs, metric).value;
    if r :| r in runs && Value(metric, r).Some? && Value(metric, r).value > 0.0 {
      PositiveSelectsLargest(runs, metric);
    } else {
      BestIsLastById(runs, metric, best);
      forall r | LastById(runs, r)
        ensures r == best
      {
        LexTotal(r.parameter.id, best.parameter.id);
      }
      hide BestRun;
    }
  }

  lemma BestIsLastById(runs: seq<Run>, metric: Metric, best: Run)
    requires metric.ProfitFactor? || metric.WinRate?
    requires forall r :: r in runs && r.RunCompleted? ==> r.output.metrics.Accepted()
    requires forall r :: r in runs && Value(metric, r).Some? ==> Value(metric, r).value <= 0.0
    requires best in runs && best.RunCompleted?
    requires forall r :: r in runs && r.RunCompleted? ==> RunLeq(metric, best, r)
    ensures LastById(runs, best)
    ensures forall r :: r in runs && Value(metric, r).Some? ==> Value(metric, r).value == 0.0
  {
    forall r | r in runs && r.RunCompleted?
      ensures Cost(metric, r).None? && LexLeq(r.parameter.id, best.parameter.id)
    {
      assert RunLeq(metric, best, r);
    }
  }

  // ---- What is selected, read off the backtests ----

  type Figure = Backtest -> Option<real>

  function NetOf(o: Backtest): Option<real> {
    Some(o.metrics.net)
  }

  function FactorOf(o: Backtest): Option<real> {
    o.metrics.profitFactor
  }

  function WinRateOf(o: Backtest): Option<real> {
    o.metrics.winRate
  }

  function DrawdownOf(o: Backtest): Option<real> {
    o.drawdown
  }

  /** The completed run reports the figure. */
  predicate Reports(r: Run, figure: Figure) {
    r.RunCompleted? && figure(r.output).Some?
  }

  ghost predicate IsLargest(runs: seq<Run>, figure: Figure, best: Run) {
    Reports(best, figure) &&
    forall r :: r in runs && Reports(r, figure) ==> figure(r.output).value <= figure(best.output).value
  }

  ghost predicate IsSmallest(runs: seq<Run>, figure: Figure, best: Run) {
    Reports(best, figure) &&
    forall r :: r in runs && Reports(r, figure) ==> figure(best.output).value <= figure(r.output).value
  }

  ghost predicate SomeFigure(runs: seq<Run>, figure: Figure, p: real -> bool) {
    exists r :: r in runs && Reports(r, figure) && p(figure(r.output).value)
  }

  /** Of the completed runs with the figure of the best one it has the largest id. */
  ghost predicate LargestIdOfTies(runs: seq<Run>, figure: Figure, best: Run) {
    forall r :: r in runs && r.RunCompleted? && best.RunCompleted? && figure(r.output) == figure(best.output) ==>
      LexLeq(r.parameter.id, best.parameter.id)
  }

  /** Of the completed runs with the figure of the best one it has the smallest id. */
  ghost predicate SmallestIdOfTies(runs: seq<Run>, figure: Figure, best: Run) {
    forall r :: r in runs && r.RunCompleted? && best.RunCompleted? && figure(r.output) == figure(best.output) ==>
      LexLeq(best.parameter.id, r.parameter.id)
  }

  /**
   A figure that is never negative: the run is one where it is largest exactly when it is
   positive somewhere, or else when the completed run with the largest id reports it.
   */
  ghost predicate ChosenByRatio(runs: seq<Run>, figure: Figure, best: Run) {
    && best in runs && best.RunCompleted?
    && (IsLargest(runs, figure, best) <==>
          || SomeFigure(runs, figure, x => x > 0.0)
          || exists r :: LastById(runs, r) && Reports(r, figure))
    && LargestIdOfTies(runs, figure, best)
  }

  /**
   The run is the most profitable one unless nothing is profitable, something breaks even
   and something loses: a net profit of exactly zero ranks below every loss.
   */
  ghost predicate ChosenByNet(runs: seq<Run>, best: Run) {
    && best in runs && best.RunCompleted?
    && (IsLargest(runs, NetOf, best) <==>
          || SomeFigure(runs, NetOf, x => x > 0.0)
          || !SomeFigure(runs, NetOf, x => x == 0.0)
          || !SomeFigure(runs, NetOf, x => x < 0.0))
    && LargestIdOfTies(runs, NetOf, best)
  }

  /** The run reports the smallest drawdown of all, if any run reports one. */
  ghost predicate ChosenByDrawdown(runs: seq<Run>, best: Run) {
    && best in runs && best.RunCompleted?
    && ((exists r :: r in runs && Reports(r, DrawdownOf)) ==> IsSmallest(runs, DrawdownOf, best))
    && SmallestIdOfTies(runs, DrawdownOf, best)
  }

  ghost predicate Rankable(runs: seq<Run>) {
    && DistinctRuns(runs) && (exists r :: r in runs && r.RunCompleted?)
    && forall r :: r in runs && r.RunCompleted? ==> r.output.metrics.Accepted()
  }

  lemma WinRateSelects(runs: seq<Run>)
    requires Rankable(runs)
    ensures BestRun(runs, WinRate).Some? && ChosenByRatio(runs, WinRateOf, BestRun(runs, WinRate).value)
  {
    BestRunIsLeast(runs, WinRate);
    SelectsLargestExactly(runs, WinRate);
    RatioByFigure(runs, WinRate, WinRateOf, BestRun(runs, WinRate).value);
  }

  lemma ProfitFactorSelects(runs: seq<Run>)
    requires Rankable(runs)
    ensures BestRun(runs, ProfitFactor).Some? && ChosenByRatio(runs, FactorOf, BestRun(runs, ProfitFactor).value)
  {
    BestRunIsLeast(runs, ProfitFactor);
    SelectsLargestExactly(runs, ProfitFactor);
    RatioByFigure(runs, ProfitFactor, FactorOf, BestRun(runs, ProfitFactor).value);
  }

  lemma RatioByFigure(runs: seq<Run>, metric: Metric, figure: Figure, best: Run)
    requires metric.ProfitFactor? || metric.WinRate?
    requires forall r: Run :: r.RunCompleted? ==> Value(metric, r) == figure(r.output)
    requires best in runs && best.RunCompleted?
    requires forall r :: r in runs && r.RunCompleted? ==> RunLeq(metric, best, r)
    requires Largest(runs, metric, best) <==>
             || (exists r :: r in runs && Value(metric, r).Some? && Value(metric, r).value > 0.0)
             || exists r :: LastById(runs, r) && Value(metric, r).Some?
    ensures ChosenByRatio(runs, figure, best)
  {
    hide LastById;
    assert forall r: Run :: Value(metric, r).Some? <==> Reports(r, figure);
    forall r | r in runs && r.RunCompleted? && figure(r.output) == figure(best.output)
      ensures LexLeq(r.parameter.id, best.parameter.id)
    {
      assert RunLeq(metric, best, r);
    }
    if r :| r in runs && Value(metric, r).Some? && Value(metric, r).value > 0.0 {
      assert Reports(r, figure);
    }
  }

  lemma NetProfitSelects(runs: seq<Run>)
    requires exists r :: r in runs && r.RunCompleted?
    ensures BestRun(runs, NetProfit).Some? && ChosenByNet(runs, BestRun(runs, NetProfit).value)
  {
    BestRunIsLeast(runs, NetProfit);
    if r :| r in runs && r.RunCompleted? && r.output.metrics.net > 0.0 {
      assert Value(NetProfit, r) == Some(r.output.metrics.net);
      PositiveSelectsLargest(runs, NetProfit);
    }
    hide BestRun;
    NetByFigure(runs, BestRun(runs, NetProfit).value);
  }

  lemma NetByFigure(runs: seq<Run>, best: Run)
    requires best in runs && best.RunCompleted?
    requires forall r :: r in runs && r.RunCompleted? ==> RunLeq(NetProfit, best, r)
    requires (exists r :: r in runs && r.RunCompleted? && r.output.metrics.net > 0.0) ==> Largest(runs, NetProfit, best)
    ensures ChosenByNet(runs, best)
  {
    hide LexLeq;
    forall r | r in runs && r.RunCompleted?
      ensures NetOf(r.output) == NetOf(best.output) ==> LexLeq(r.parameter.id, best.parameter.id)
      ensures best.output.metrics.net == 0.0 ==> r.output.metrics.net == 0.0
      ensures best.output.metrics.net != 0.0 ==>
                r.output.metrics.net <= best.output.metrics.net || r.output.metrics.net == 0.0
    {
      assert RunLeq(NetProfit, best, r);
    }
    hide RunLeq;
    assert Reports(best, NetOf);
  }

  lemma DrawdownSelects(runs: seq<Run>)
    requires exists r :: r in runs && r.RunCompleted?
    ensures BestRun(runs, MaxDrawdown).Some? && ChosenByDrawdown(runs, BestRun(runs, MaxDrawdown).value)
  {
    BestRunIsLeast(runs, MaxDrawdown);
    var best := BestRun(runs, MaxDrawdown).value;
    hide LexLeq, BestRun;
    forall r | r in runs && r.RunCompleted?
      ensures Reports(r, DrawdownOf) ==>
                Reports(best, DrawdownOf) && best.output.drawdown.value <= r.output.drawdown.value
      ensures r.output.drawdown == best.output.drawdown ==> LexLeq(best.parameter.id, r.parameter.id)
    {
      assert RunLeq(MaxDrawdown, best, r);
    }
  }

  // ---- Where ranking does not select the largest ----

  /** A run with one losing trade. */
  function Losing(id: string): Run {
    RunCompleted(Parameter(id, None, None, 0),
                 Backtest(Metrics(1, 0, 1, 0, 0.0, 1.0, -1.0, Some(0.0), Some(0.0)), None))
  }

  /** A run with one trade that breaks even; without losses it has no profit factor. */
  function BreakingEven(id: string): Run {
    RunCompleted(Parameter(id, None, None, 0), Backtest(Metrics(1, 0, 0, 1, 0.0, 0.0, 0.0, Some(0.0), None), None))
  }

  lemma BestOfTwo(a: Run, b: Run, metric: Metric)
    requires a.RunCompleted? && b.RunCompleted?
    ensures RunLeq(metric, a, b) && !RunLeq(metric, b, a) ==> BestRun([a, b], metric) == Some(a)
    ensures RunLeq(metric, b, a) && !RunLeq(metric, a, b) ==> BestRun([a, b], metric) == Some(b)
  {
    BestRunIsLeast([a, b], metric);
    assert a in [a, b] && b in [a, b];
    hide BestRun, RunLeq;
  }

  /** Of a losing run and one that breaks even, net profit selects the losing one. */
  lemma LossIsSelected(losing: string, even: string)
    ensures
      var runs := [Losing(losing), BreakingEven(even)];
      BestRun(runs, NetProfit) == Some(Losing(losing)) && !IsLargest(runs, NetOf, Losing(losing))
  {
    BestOfTwo(Losing(losing), BreakingEven(even), NetProfit);
    assert BreakingEven(even) in [Losing(losing), BreakingEven(even)] && Reports(BreakingEven(even), NetOf);
  }

  /** Of a run with a profit factor of zero and one without any, the profit factor selects the one without. */
  lemma MissingFactorIsSelected()
    ensures
      var runs := [Losing("a"), BreakingEven("b")];
      BestRun(runs, ProfitFactor) == Some(BreakingEven("b")) && !IsLargest(runs, FactorOf, BreakingEven("b"))
  {
    assert !LexLeq("b", "a") && LexLeq("a", "b");
    BestOfTwo(Losing("a"), BreakingEven("b"), ProfitFactor);
  }
}
