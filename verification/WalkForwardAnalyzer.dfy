/** Summarising the results of walk-forward windows: pooled performance and the parameters chosen. */
module WalkForwardAnalyzer {
  import opened Wrappers
  import opened Sorting
  import opened WalkForwardResults

  datatype Aggregate = Aggregate(
    results: nat, trades: nat, wins: nat, losses: nat, flats: nat,
    grossProfit: real, grossLoss: real, net: real,
    winRate: Option<real>, profitFactor: Option<real>, expectancy: Option<real>,
    averageNet: Option<real>, maximumDrawdown: Option<real>)
  {
    /** The checks the aggregate's constructor makes. */
    predicate Accepted() {
      && wins + losses + flats == trades
      && 0.0 <= grossProfit && 0.0 <= grossLoss
      && IsFraction(winRate)
      && (profitFactor.Some? ==> 0.0 <= profitFactor.value)
      && IsFraction(maximumDrawdown)
    }
  }

  datatype Frequency = Frequency(parameterId: string, count: int)

  datatype Summary = Summary(
    windows: nat, completed: nat, failed: nat, profitable: nat, profitableRate: Option<real>,
    training: Aggregate, validation: Aggregate, frequencies: seq<Frequency>)
  {
    /** The checks the summary's constructor makes. */
    ghost predicate Accepted() {
      && completed + failed == windows
      && profitable <= completed
      && IsFraction(profitableRate)
      && (forall i, j :: 0 <= i < j < |frequencies| ==> frequencies[i].parameterId != frequencies[j].parameterId)
    }
  }

  // ---- Pooling ----

  function Trades(m: Metrics): nat { m.trades }
  function Wins(m: Metrics): nat { m.wins }
  function Losses(m: Metrics): nat { m.losses }
  function Flats(m: Metrics): nat { m.flats }
  function Profitable(m: Metrics): nat { if m.net > 0.0 then 1 else 0 }
  function GrossProfit(m: Metrics): real { m.grossProfit }
  function GrossLoss(m: Metrics): real { m.grossLoss }
  function Net(m: Metrics): real { m.net }

  /** `sum(f(metrics) for metrics in items)`, for counts and for amounts. */
  function Count(items: seq<Backtest>, f: Metrics -> nat): nat {
    if items == [] then 0 else Count(items[..|items| - 1], f) + f(items[|items| - 1].metrics)
  }

  function Total(items: seq<Backtest>, f: Metrics -> real): real {
    if items == [] then 0.0 else Total(items[..|items| - 1], f) + f(items[|items| - 1].metrics)
  }

  function Larger(a: Option<real>, b: Option<real>): Option<real> {
    if a.None? then b else if b.None? then a else Some(if a.value < b.value then b.value else a.value)
  }

  function WorstDrawdown(items: seq<Backtest>): Option<real> {
    if items == [] then None
    else Larger(WorstDrawdown(items[..|items| - 1]), items[|items| - 1].drawdown)
  }

  function Ratio(a: real, b: real): Option<real> {
    if b == 0.0 then None else Some(a / b)
  }

  function Pool(items: seq<Backtest>): Aggregate {
    var trades, wins := Count(items, Trades), Count(items, Wins);
    var profit, loss, net := Total(items, GrossProfit), Total(items, GrossLoss), Total(items, Net);
    Aggregate(|items|, trades, wins, Count(items, Losses), Count(items, Flats), profit, loss, net,
              Ratio(wins as real, trades as real), Ratio(profit, loss), Ratio(net, trades as real),
              Ratio(net, |items| as real), WorstDrawdown(items))
  }

  // ---- The summary ----

  /** The backtests of the runs chosen on the training days of the completed windows. */
  function TrainingItems(results: seq<WindowResult>): seq<Backtest> {
    if results == [] then []
    else
      var last := results[|results| - 1];
      TrainingItems(results[..|results| - 1]) +
      if last.WindowCompleted? && last.best.RunCompleted? then [last.best.output] else []
  }

  function ValidationItems(results: seq<WindowResult>): seq<Backtest> {
    if results == [] then []
    else
      var last := results[|results| - 1];
      ValidationItems(results[..|results| - 1]) + if last.WindowCompleted? then [last.validation] else []
  }

  /** The parameters chosen by the completed windows. */
  function ChosenIds(results: seq<WindowResult>): seq<string> {
    if results == [] then []
    else
      var last := results[|results| - 1];
      ChosenIds(results[..|results| - 1]) + if last.WindowCompleted? then [last.best.parameter.id] else []
  }

  /** Most frequent first, ties by id. */
  predicate FrequencyLeq(a: Frequency, b: Frequency) {
    a.count > b.count || (a.count == b.count && LexLeq(a.parameterId, b.parameterId))
  }

  function Counted(distinct: seq<string>, ids: seq<string>): seq<Frequency> {
    seq(|distinct|, i requires 0 <= i < |distinct| => Frequency(distinct[i], multiset(ids)[distinct[i]]))
  }

  function Frequencies(ids: seq<string>): seq<Frequency> {
    Sort(Counted(Distinct(ids), ids), FrequencyLeq)
  }

  function CreateSummary(results: seq<WindowResult>): Summary {
    var validated := ValidationItems(results);
    var profitable := Count(validated, Profitable);
    Summary(|results|, CompletedCount(results), FailedCount(results), profitable,
            Ratio(profitable as real, |validated| as real),
            Pool(TrainingItems(results)), Pool(validated), Frequencies(ChosenIds(results)))
  }
}
