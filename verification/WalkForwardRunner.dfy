/** Walk-forward optimisation: on every window optimise, select, and validate what was selected. */
module WalkForwardRunner {
  import opened Wrappers
  import opened Text
  import opened WalkForwardWindows
  import opened WalkForwardResults
  import opened OptimizationRanking
  import opened MetricRanking

  /** A backtest of one parameter over one series; the source's executors are callables that may raise. */
  type Executor = (Series, Parameter) -> Outcome<Backtest, string>

  /** Scoring the trial runs of a window for the composite ranking. */
  type Report = seq<Run> -> Outcome<seq<Score<Run>>, string>

  datatype Method = Composite | ByMetric(metric: Metric)

  /** All that a window's outcome depends on besides the window. */
  datatype Setup = Setup(
    train: Executor, validate: Executor, report: Report, grid: seq<Parameter>, method_: Method)

  const NO_METHOD := "ranking_method must be given"
  const UNKNOWN_METHOD := "unknown ranking_method"
  const RUN_NEEDS_MESSAGE := "a failed run needs an error message"
  const RESULT_NEEDS_MESSAGE := "a failed result needs an error message"
  const NO_COMPLETED_RUN := "no training run completed"

  function ParseMethod(text: string): Outcome<Method, string> {
    var name := Lower(Strip(text));
    if name == "" then Raised(NO_METHOD)
    else if name == "composite" then Returned(Composite)
    else if name == "net_profit" then Returned(ByMetric(NetProfit))
    else if name == "profit_factor" then Returned(ByMetric(ProfitFactor))
    else if name == "win_rate" then Returned(ByMetric(WinRate))
    else if name == "max_drawdown" then Returned(ByMetric(MaxDrawdown))
    else Raised(UNKNOWN_METHOD)
  }

  /** One trial: an executor that raises gives a failed run, whose constructor wants a message. */
  function Trial(train: Executor, series: Series, p: Parameter): Outcome<Run, string> {
    match train(series, p)
    case Returned(output) => Returned(RunCompleted(p, output))
    case Raised(e) => if Blank(e) then Raised(RUN_NEEDS_MESSAGE) else Returned(RunFailed(p, e))
  }

  function Trials(train: Executor, series: Series, grid: seq<Parameter>): Outcome<seq<Run>, string> {
    if grid == [] then Returned([])
    else
      match Trials(train, series, grid[..|grid| - 1])
      case Raised(e) => Raised(e)
      case Returned(runs) =>
        match Trial(train, series, grid[|grid| - 1])
        case Raised(e) => Raised(e)
        case Returned(run) => Returned(runs + [run])
  }

  function Select(report: Report, m: Method, runs: seq<Run>): Outcome<Option<Run>, string> {
    match m
    case ByMetric(metric) => Returned(BestRun(runs, metric))
    case Composite =>
      match report(runs)
      case Raised(e) => Raised(e)
      case Returned(scores) =>
        var ranking := Rank(scores, Some(1)).value;
        Returned(if ranking == [] then None else Some(ranking[0].item.run))
  }

  /** What training on a series leads to: the trial runs and the one to validate. */
  function Train(s: Setup, training: Series): Outcome<(seq<Run>, Run), string> {
    match Trials(s.train, training, s.grid)
    case Raised(e) => Raised(e)
    case Returned(runs) =>
      match Select(s.report, s.method_, runs)
      case Raised(e) => Raised(e)
      case Returned(None) => Raised(NO_COMPLETED_RUN)
      case Returned(Some(best)) => Returned((runs, best))
  }

  function WindowOutcome(s: Setup, w: Window): Outcome<WindowResult, string> {
    match Train(s, w.training)
    case Raised(e) => Raised(e)
    case Returned((runs, best)) =>
      match s.validate(w.validation, best.parameter)
      case Raised(e) => Raised(e)
      case Returned(output) => Returned(WindowCompleted(w, runs, best, best.parameter, output))
  }

  /** A window's entry in the results: an error is recorded, or raised again, or raised for want of a message. */
  function Entry(s: Setup, w: Window, continueOnError: bool): Outcome<WindowResult, string> {
    match WindowOutcome(s, w)
    case Returned(r) => Returned(r)
    case Raised(e) =>
      if !continueOnError then Raised(e)
      else if Blank(e) then Raised(RESULT_NEEDS_MESSAGE)
      else Returned(WindowFailed(w, e))
  }

  function Walk(s: Setup, windows: seq<Window>, continueOnError: bool): Outcome<seq<WindowResult>, string> {
    if windows == [] then Returned([])
    else
      match Walk(s, windows[..|windows| - 1], continueOnError)
      case Raised(e) => Raised(e)
      case Returned(results) =>
        match Entry(s, windows[|windows| - 1], continueOnError)
        case Raised(e) => Raised(e)
        case Returned(r) => Returned(results + [r])
  }

  datatype Call = Call(series: Series, parameter: Parameter)

  /** The validation a window asks for, if training selects a run. */
  function Validation(s: Setup, w: Window): seq<Call> {
    match Train(s, w.training)
    case Raised(_) => []
    case Returned((_, best)) => [Call(w.validation, best.parameter)]
  }

  /** The validations of a whole walk; it stops at the window that raises. */
  function Validations(s: Setup, windows: seq<Window>, continueOnError: bool): seq<Call> {
    if windows == [] then []
    else
      var init := windows[..|windows| - 1];
      Validations(s, init, continueOnError) +
      if Walk(s, init, continueOnError).Raised? then [] else Validation(s, windows[|windows| - 1])
  }

  class WalkForwardRunner {
    const train: Executor
    const validate: Executor
    /** Every validation asked for so far. */
    var validated: seq<Call>

    constructor (train: Executor, validate: Executor)
      ensures this.train == train && this.validate == validate && validated == []
    {
      this.train, this.validate := train, validate;
      validated := [];
    }

    method Run(plan: Plan, grid: seq<Parameter>, rankingMethod: string, report: Report, continueOnError: bool)
      returns (r: Outcome<seq<WindowResult>, string>)
      modifies this
      ensures
        match ParseMethod(rankingMethod)
        case Raised(e) => r == Raised(e) && validated == old(validated)
        case Returned(m) =>
          var s := Setup(train, validate, report, grid, m);
          && r == Walk(s, plan.windows, continueOnError)
          && validated == old(validated) + Validations(s, plan.windows, continueOnError)
    {
      var parsed := ParseMethod(rankingMethod);
      if parsed.Raised? {
        return Raised(parsed.fault);
      }
      var s := Setup(train, validate, report, grid, parsed.value);
      r := RunWindows(s, plan.windows, continueOnError);
    }

    /** The loop over the plan's windows. */
    method RunWindows(s: Setup, windows: seq<Window>, continueOnError: bool)
      returns (r: Outcome<seq<WindowResult>, string>)
      requires s.train == train && s.validate == validate
      modifies this
      ensures r == Walk(s, windows, continueOnError)
      ensures validated == old(validated) + Validations(s, windows, continueOnError)
    {
      hide Entry, Validation, Walk, Validations;
      NothingWalked(s, windows, continueOnError);
      var results := [];
      var i := 0;
      while i < |windows|
        invariant 0 <= i <= |windows|
        invariant Walk(s, windows[..i], continueOnError) == Returned(results)
        invariant validated == old(validated) + Validations(s, windows[..i], continueOnError)
      {
        WalkOneMore(s, windows, i, continueOnError);
        var entry := RunEntry(s, windows[i], continueOnError);
        if entry.Raised? {
          WalkStays(s, windows, i + 1, continueOnError);
          return Raised(entry.fault);
        }
        results := results + [entry.value];
        i := i + 1;
      }
      assert windows[..i] == windows;
      r := Returned(results);
    }

    /** One window inside the loop's try and except. */
    method RunEntry(s: Setup, w: Window, continueOnError: bool) returns (r: Outcome<WindowResult, string>)
      requires s.train == train && s.validate == validate
      modifies this
      ensures r == Entry(s, w, continueOnError)
      ensures validated == old(validated) + Validation(s, w)
    {
      r := RunWindow(w, s);
      if r.Raised? && continueOnError {
        if Blank(r.fault) {
          return Raised(RESULT_NEEDS_MESSAGE);
        }
        r := Returned(WindowFailed(w, r.fault));
      }
    }

    /** One window: optimise and select on the training series, then validate. */
    method RunWindow(w: Window, s: Setup) returns (r: Outcome<WindowResult, string>)
      requires s.train == train && s.validate == validate
      modifies this
      ensures r == WindowOutcome(s, w)
      ensures validated == old(validated) + Validation(s, w)
    {
      var trials := Optimise(w.training, s.grid);
      if trials.Raised? {
        return Raised(trials.fault);
      }
      var selected := Select(s.report, s.method_, trials.value);
      if selected.Raised? {
        return Raised(selected.fault);
      }
      if selected.value.None? {
        return Raised(NO_COMPLETED_RUN);
      }
      var best := selected.value.value;
      validated := validated + [Call(w.validation, best.parameter)];
      var output := validate(w.validation, best.parameter);
      if output.Raised? {
        return Raised(output.fault);
      }
      r := Returned(WindowCompleted(w, trials.value, best, best.parameter, output.value));
    }

    /** The optimisation runner: every parameter of the grid in order. */
    method Optimise(training: Series, grid: seq<Parameter>) returns (r: Outcome<seq<Run>, string>)
      ensures r == Trials(train, training, grid)
    {
      var runs := [];
      var i := 0;
      while i < |grid|
        invariant 0 <= i <= |grid|
        invariant Trials(train, training, grid[..i]) == Returned(runs)
      {
        assert grid[..i + 1][..i] == grid[..i];
        var output := train(training, grid[i]);
        if output.Raised? && Blank(output.fault) {
          TrialsStay(train, training, grid, i + 1);
          return Raised(RUN_NEEDS_MESSAGE);
        }
        var run := if output.Returned? then RunCompleted(grid[i], output.value) else RunFailed(grid[i], output.fault);
        runs := runs + [run];
        i := i + 1;
      }
      assert grid[..i] == grid;
      r := Returned(runs);
    }
  }

  lemma NothingWalked(s: Setup, windows: seq<Window>, continueOnError: bool)
    ensures Walk(s, windows[..0], continueOnError) == Returned([])
    ensures Validations(s, windows[..0], continueOnError) == []
  {
  }

  /** One more window, after a walk that has not raised. */
  lemma WalkOneMore(s: Setup, windows: seq<Window>, i: nat, continueOnError: bool)
    requires i < |windows| && Walk(s, windows[..i], continueOnError).Returned?
    ensures
      var entry := Entry(s, windows[i], continueOnError);
      Walk(s, windows[..i + 1], continueOnError) ==
      if entry.Raised? then Raised(entry.fault)
      else Returned(Walk(s, windows[..i], continueOnError).value + [entry.value])
    ensures Validations(s, windows[..i + 1], continueOnError) ==
            Validations(s, windows[..i], continueOnError) + Validation(s, windows[i])
  {
    hide Entry, Validation;
    var upTo := windows[..i + 1];
    assert upTo[..|upTo| - 1] == windows[..i] && upTo[|upTo| - 1] == windows[i];
  }

  /** Once raised, an error ends the loop: what comes after it changes nothing. */
  lemma {:induction false} TrialsStay(train: Executor, training: Series, grid: seq<Parameter>, k: nat)
    requires k <= |grid| && Trials(train, training, grid[..k]).Raised?
    ensures Trials(train, training, grid) == Trials(train, training, grid[..k])
  {
    if k == |grid| {
      assert grid[..k] == grid;
    } else {
      assert grid[..|grid| - 1][..k] == grid[..k];
      TrialsStay(train, training, grid[..|grid| - 1], k);
    }
  }

  lemma {:induction false} WalkStays(s: Setup, windows: seq<Window>, k: nat, continueOnError: bool)
    requires k <= |windows| && Walk(s, windows[..k], continueOnError).Raised?
    ensures Walk(s, windows, continueOnError) == Walk(s, windows[..k], continueOnError)
    ensures Validations(s, windows, continueOnError) == Validations(s, windows[..k], continueOnError)
  {
    if k == |windows| {
      assert windows[..k] == windows;
    } else {
      assert windows[..|windows| - 1][..k] == windows[..k];
      WalkStays(s, windows[..|windows| - 1], k, continueOnError);
    }
  }
}
