/** What walk-forward optimisation produces: trial runs on training days, and one result per window. */
module WalkForwardResults {
  import opened Wrappers
  import opened Text
  import opened WalkForwardWindows

  predicate IsFraction(x: Option<real>) {
    x.Some? ==> 0.0 <= x.value <= 1.0
  }

  /** A backtest's performance metrics, as far as ranking and pooling look at them. */
  datatype Metrics = Metrics(
    trades: nat, wins: nat, losses: nat, flats: nat, grossProfit: real, grossLoss: real, net: real,
    winRate: Option<real>, profitFactor: Option<real>)
  {
    /** The checks the metrics' constructor makes. */
    predicate Accepted() {
      && wins + losses + flats == trades
      && 0.0 <= grossProfit && 0.0 <= grossLoss
      && IsFraction(winRate)
      && (profitFactor.Some? ==> 0.0 <= profitFactor.value)
    }
  }

  /** A backtest's metrics, with the drawdown of its equity curve if there is one. */
  datatype Backtest = Backtest(metrics: Metrics, drawdown: Option<real>) {
    predicate Accepted() {
      metrics.Accepted() && IsFraction(drawdown)
    }
  }

  datatype Parameter = Parameter(
    id: string, stopLoss: Option<real>, takeProfit: Option<real>, openingRangeEnd: int)

  /** One parameter tried on the training days. */
  datatype Run =
    | RunCompleted(parameter: Parameter, output: Backtest)
    | RunFailed(parameter: Parameter, error: string)

  datatype WindowResult =
    | WindowCompleted(window: Window, runs: seq<Run>, best: Run, applied: Parameter, validation: Backtest)
    | WindowFailed(window: Window, error: string)
  {
    /** The checks the result's constructor makes. */
    predicate Accepted() {
      match this
      case WindowCompleted(_, _, best, applied, _) => best.parameter == applied
      case WindowFailed(_, error) => !Blank(error)
    }
  }

  function CompletedCount(results: seq<WindowResult>): nat {
    if results == [] then 0
    else CompletedCount(results[..|results| - 1]) + if results[|results| - 1].WindowCompleted? then 1 else 0
  }

  function FailedCount(results: seq<WindowResult>): nat {
    if results == [] then 0
    else FailedCount(results[..|results| - 1]) + if results[|results| - 1].WindowFailed? then 1 else 0
  }

  lemma {:induction false} CompletedAndFailed(results: seq<WindowResult>)
    ensures CompletedCount(results) + FailedCount(results) == |results|
  {
    if results == [] {
    } else {
      CompletedAndFailed(results[..|results| - 1]);
    }
  }
}
