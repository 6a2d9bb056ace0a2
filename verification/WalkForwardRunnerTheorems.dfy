/**
 Whole walk-forward runs: results line up with the plan, every window stands alone,
 validation happens once per selection, and selection never sees a validation bar.
 */
module WalkForwardRunnerTheorems {
  import opened Wrappers
  import opened Text
  import opened Sorting
  import opened WalkForwardWindows
  import opened WalkForwardResults
  import opened OptimizationRanking
  import opened MetricRanking
  import opened WalkForwardRunner

  // ---- One entry per window, independent of the others ----

  lemma {:induction false} WalkEntries(s: Setup, windows: seq<Window>, continueOnError: bool)
    ensures
      match Walk(s, windows, continueOnError)
      case Returned(results) =>
        && |results| == |windows|
        && forall i :: 0 <= i < |windows| ==> Entry(s, windows[i], continueOnError) == Returned(results[i])
      case Raised(e) =>
        exists i :: 0 <= i < |windows| && Entry(s, windows[i], continueOnError) == Raised(e)
          && forall j :: 0 <= j < i ==> Entry(s, windows[j], continueOnError).Returned?
  {
    hide Entry;
    if windows == [] {
    } else {
      var init := windows[..|windows| - 1];
      WalkEntries(s, init, continueOnError);
      if Walk(s, init, continueOnError).Raised? {
        var e := Walk(s, init, continueOnError).fault;
        var i :| 0 <= i < |init| && Entry(s, init[i], continueOnError) == Raised(e)
          && forall j :: 0 <= j < i ==> Entry(s, init[j], continueOnError).Returned?;
        assert Entry(s, windows[i], continueOnError) == Raised(e);
        forall j | 0 <= j < i
          ensures Entry(s, windows[j], continueOnError).Returned?
        {
          assert windows[j] == init[j];
        }
      } else {
        forall j | 0 <= j < |init|
          ensures Entry(s, windows[j], continueOnError) == Returned(Walk(s, init, continueOnError).value[j])
        {
          assert windows[j] == init[j];
        }
      }
    }
  }

  lemma SingleWalk(s: Setup, w: Window, continueOnError: bool)
    ensures Walk(s, [w], continueOnError) ==
            match Entry(s, w, continueOnError) { case Returned(r) => Returned([r]) case Raised(e) => Raised(e) }
  {
    var single := [w];
    assert single[..|single| - 1] == [];
    var entry := Entry(s, w, continueOnError);
    assert entry.Returned? ==> [] + [entry.value] == [entry.value];
  }

  /**
   A run that returns has one accepted result per window, in the plan's order, each equal
   to running its window alone.
   */
  lemma ResultsLineUp(s: Setup, windows: seq<Window>, continueOnError: bool)
    requires Walk(s, windows, continueOnError).Returned?
    ensures
      var results := Walk(s, windows, continueOnError).value;
      && |results| == |windows|
      && CompletedCount(results) + FailedCount(results) == |windows|
      && forall i :: 0 <= i < |windows| ==>
          && results[i].window == windows[i]
          && results[i].Accepted()
          && Walk(s, [windows[i]], continueOnError) == Returned([results[i]])
  {
    WalkEntries(s, windows, continueOnError);
    var results := Walk(s, windows, continueOnError).value;
    CompletedAndFailed(results);
    forall i | 0 <= i < |windows|
      ensures results[i].window == windows[i] && results[i].Accepted()
      ensures Walk(s, [windows[i]], continueOnError) == Returned([results[i]])
    {
      SingleWalk(s, windows[i], continueOnError);
      EntryAccepted(s, windows[i], continueOnError);
    }
  }

  lemma EntryAccepted(s: Setup, w: Window, continueOnError: bool)
    requires Entry(s, w, continueOnError).Returned?
    ensures Entry(s, w, continueOnError).value.window == w && Entry(s, w, continueOnError).value.Accepted()
  {
  }

  /**
   When errors are to be recorded, the run raises exactly when some window's error
   has no text; otherwise exactly when some window has an error.
   */
  lemma {:induction false} RunRaisesExactly(s: Setup, windows: seq<Window>, continueOnError: bool)
    ensures Walk(s, windows, continueOnError).Raised? <==>
            exists w :: w in windows && WindowOutcome(s, w).Raised?
                        && (continueOnError ==> Blank(WindowOutcome(s, w).fault))
  {
    WalkEntries(s, windows, continueOnError);
    forall w
      ensures Entry(s, w, continueOnError).Raised? <==>
              WindowOutcome(s, w).Raised? && (continueOnError ==> Blank(WindowOutcome(s, w).fault))
    {
    }
    hide Entry, Walk, WindowOutcome;
    if w :| w in windows && Entry(s, w, continueOnError).Raised? {
      var i :| 0 <= i < |windows| && windows[i] == w;
    }
  }

  /** The window that ends a run: the first whose error cannot be recorded. */
  ghost predicate EndsAt(s: Setup, windows: seq<Window>, continueOnError: bool, i: int) {
    && 0 <= i < |windows| && Unrecorded(s, windows[i], continueOnError)
    && forall j :: 0 <= j < i ==> !Unrecorded(s, windows[j], continueOnError)
  }

  /** The window has an error that is not to be recorded, or has no text to record. */
  predicate Unrecorded(s: Setup, w: Window, continueOnError: bool) {
    WindowOutcome(s, w).Raised? && (continueOnError ==> Blank(WindowOutcome(s, w).fault))
  }

  /** What a run raises is the error of the window that ends it, or that this one has no text. */
  lemma RunRaisesText(s: Setup, windows: seq<Window>, continueOnError: bool) returns (i: int)
    requires Walk(s, windows, continueOnError).Raised?
    ensures EndsAt(s, windows, continueOnError, i)
    ensures Walk(s, windows, continueOnError).fault ==
            if continueOnError then RESULT_NEEDS_MESSAGE else WindowOutcome(s, windows[i]).fault
  {
    WalkEntries(s, windows, continueOnError);
    var e := Walk(s, windows, continueOnError).fault;
    forall w
      ensures Entry(s, w, continueOnError).Raised? <==> Unrecorded(s, w, continueOnError)
    {
    }
    i :| 0 <= i < |windows| && Entry(s, windows[i], continueOnError) == Raised(e)
      && forall j :: 0 <= j < i ==> Entry(s, windows[j], continueOnError).Returned?;
    hide Walk, WindowOutcome;
  }

  /** A failed window carries its own error. */
  lemma FailedWindowCarriesItsError(s: Setup, windows: seq<Window>, continueOnError: bool, i: nat)
    requires Walk(s, windows, continueOnError).Returned? && i < |windows|
    ensures
      var results := Walk(s, windows, continueOnError).value;
      && |results| == |windows|
      && (results[i].WindowFailed? <==> WindowOutcome(s, windows[i]).Raised?)
      && (results[i].WindowFailed? ==> continueOnError && results[i].error == WindowOutcome(s, windows[i]).fault)
      && (results[i].WindowCompleted? ==> WindowOutcome(s, windows[i]) == Returned(results[i]))
  {
    WalkEntries(s, windows, continueOnError);
    OutcomeCompletes(s, windows[i]);
    hide Walk, WindowOutcome;
  }

  lemma OutcomeCompletes(s: Setup, w: Window)
    ensures WindowOutcome(s, w).Returned? ==> WindowOutcome(s, w).value.WindowCompleted?
  {
  }

  // ---- Training ----

  lemma {:induction false} TrialsExactly(train: Executor, series: Series, grid: seq<Parameter>)
    ensures
      match Trials(train, series, grid)
      case Raised(e) =>
        && e == RUN_NEEDS_MESSAGE
        && exists p :: p in grid && Trial(train, series, p).Raised?
      case Returned(runs) =>
        && |runs| == |grid|
        && forall i :: 0 <= i < |grid| ==> Trial(train, series, grid[i]) == Returned(runs[i])
  {
    if grid == [] {
    } else {
      var init := grid[..|grid| - 1];
      TrialsExactly(train, series, init);
      assert forall p :: p in init ==> p in grid;
      assert grid[|grid| - 1] in grid;
      assert forall i :: 0 <= i < |init| ==> init[i] == grid[i];
    }
  }

  ghost predicate SilentFailure(train: Executor, series: Series, grid: seq<Parameter>) {
    exists p :: p in grid && train(series, p).Raised? && Blank(train(series, p).fault)
  }

  /** The grid's runs on a series, one per parameter, failures included. */
  function TrialRuns(train: Executor, series: Series, grid: seq<Parameter>): seq<Run> {
    seq(|grid|, i requires 0 <= i < |grid| =>
      match train(series, grid[i])
      case Returned(output) => RunCompleted(grid[i], output)
      case Raised(e) => RunFailed(grid[i], e))
  }

  lemma TrialsAreRuns(train: Executor, series: Series, grid: seq<Parameter>)
    ensures Trials(train, series, grid).Raised? <==> SilentFailure(train, series, grid)
    ensures Trials(train, series, grid).Returned? ==>
              Trials(train, series, grid).value == TrialRuns(train, series, grid)
  {
    TrialsExactly(train, series, grid);
    hide Trials;
    if Trials(train, series, grid).Returned? {
      forall p | p in grid
        ensures Trial(train, series, p).Returned?
      {
        var i :| 0 <= i < |grid| && grid[i] == p;
      }
    }
  }

  /** The ranking has something to offer: a completed run, or for the composite ranking a score. */
  ghost predicate Offers(s: Setup, runs: seq<Run>) {
    match s.method_
    case ByMetric(_) => exists r :: r in runs && r.RunCompleted?
    case Composite => s.report(runs).Returned? && s.report(runs).value != []
  }

  /** The run is first in the ranking: no completed run, or no score, is ahead of it. */
  ghost predicate IsFirst(s: Setup, runs: seq<Run>, best: Run) {
    match s.method_
    case ByMetric(metric) =>
      && best in runs && best.RunCompleted?
      && forall r :: r in runs && r.RunCompleted? ==> RunLeq(metric, best, r)
    case Composite =>
      && s.report(runs).Returned?
      && exists top ::
          && top in s.report(runs).value && top.run == best
          && forall x :: x in s.report(runs).value ==> ScoreLeq(top, x)
  }

  lemma SelectsExactly(s: Setup, runs: seq<Run>)
    ensures
      var selected := Select(s.report, s.method_, runs);
      && (selected.Returned? && selected.value.Some? <==> Offers(s, runs))
      && (selected.Returned? && selected.value.Some? ==> IsFirst(s, runs, selected.value.value))
  {
    match s.method_
    case ByMetric(metric) => BestRunIsLeast(runs, metric);
    case Composite =>
      if s.report(runs).Returned? {
        TopIsLeast(s.report(runs).value);
      }
  }

  /**
   Training selects a run exactly when no parameter fails without a message and the
   ranking has something to offer; the selected run is first in the ranking of the
   grid's runs.
   */
  lemma TrainingSelectsExactly(s: Setup, series: Series)
    ensures
      var runs := TrialRuns(s.train, series, s.grid);
      && (Train(s, series).Returned? <==> !SilentFailure(s.train, series, s.grid) && Offers(s, runs))
      && (Train(s, series).Returned? ==>
            Train(s, series).value.0 == runs && IsFirst(s, runs, Train(s, series).value.1))
  {
    TrialsAreRuns(s.train, series, s.grid);
    SelectsExactly(s, TrialRuns(s.train, series, s.grid));
    hide Trials, TrialRuns, Select, Offers, IsFirst, SilentFailure;
  }

  /** Ranked by a metric, the selected run is a parameter of the grid with its own training result. */
  lemma SelectedByMetric(s: Setup, series: Series)
    requires s.method_.ByMetric? && Train(s, series).Returned?
    ensures
      var best := Train(s, series).value.1;
      && best.RunCompleted?
      && best.parameter in s.grid
      && s.train(series, best.parameter) == Returned(best.output)
      && forall p :: p in s.grid && s.train(series, p).Returned? ==>
          RunLeq(s.method_.metric, best, RunCompleted(p, s.train(series, p).value))
  {
    TrainingSelectsExactly(s, series);
    var runs, best := TrialRuns(s.train, series, s.grid), Train(s, series).value.1;
    hide Train, RunLeq;
    var k :| 0 <= k < |runs| && runs[k] == best;
    forall p | p in s.grid && s.train(series, p).Returned?
      ensures RunLeq(s.method_.metric, best, RunCompleted(p, s.train(series, p).value))
    {
      var i :| 0 <= i < |s.grid| && s.grid[i] == p;
      assert runs[i] in runs;
    }
  }

  // ---- Selection by the method's name ----

  /** What the name of a ranking method stands for. */
  ghost predicate ChosenByName(name: string, report: Report, runs: seq<Run>, best: Run) {
    || (name == "net_profit" && ChosenByNet(runs, best))
    || (name == "profit_factor" && ChosenByRatio(runs, FactorOf, best))
    || (name == "win_rate" && ChosenByRatio(runs, WinRateOf, best))
    || (name == "max_drawdown" && ChosenByDrawdown(runs, best))
    || (name == "composite" && ChosenByScore(report, runs, best))
  }

  /** The run has a score that no other score is ahead of. */
  ghost predicate ChosenByScore(report: Report, runs: seq<Run>, best: Run) {
    && report(runs).Returned?
    && exists top ::
        && top in report(runs).value && top.run == best
        && forall x :: x in report(runs).value ==> ScoreLeq(top, x)
  }

  /** A method is known by five names, up to surrounding space and case. */
  lemma MethodNames(text: string)
    ensures ParseMethod(text).Returned? <==>
            Lower(Strip(text)) in {"net_profit", "profit_factor", "win_rate", "max_drawdown", "composite"}
  {
    hide Strip, Lower;
  }

  /** The grid's parameters have different ids, and training reports only accepted metrics. */
  ghost predicate Trainable(train: Executor, series: Series, grid: seq<Parameter>) {
    && (forall p, q :: p in grid && q in grid && p.id == q.id ==> p == q)
    && forall p :: p in grid && train(series, p).Returned? ==> train(series, p).value.metrics.Accepted()
  }

  lemma TrialsAreRankable(train: Executor, series: Series, grid: seq<Parameter>)
    requires Trainable(train, series, grid)
    requires exists r :: r in TrialRuns(train, series, grid) && r.RunCompleted?
    ensures Rankable(TrialRuns(train, series, grid))
  {
    var runs := TrialRuns(train, series, grid);
    forall r | r in runs
      ensures r.parameter in grid
      ensures match train(series, r.parameter)
              case Returned(output) => r == RunCompleted(r.parameter, output)
              case Raised(e) => r == RunFailed(r.parameter, e)
    {
      var i :| 0 <= i < |runs| && runs[i] == r;
    }
  }

  /** Training under a method given by name selects what the name stands for, read off the backtests. */
  lemma TrainingSelectsByName(s: Setup, series: Series, method_: string)
    requires ParseMethod(method_) == Returned(s.method_) && Train(s, series).Returned?
    requires Trainable(s.train, series, s.grid)
    ensures
      var (runs, best) := Train(s, series).value;
      runs == TrialRuns(s.train, series, s.grid) && ChosenByName(Lower(Strip(method_)), s.report, runs, best)
  {
    TrainingSelectsExactly(s, series);
    var runs, best := TrialRuns(s.train, series, s.grid), Train(s, series).value.1;
    hide TrialRuns, Strip, Lower, RunLeq, Trials;
    match s.method_
    case Composite =>
    case ByMetric(metric) =>
      assert BestRun(runs, metric) == Some(best);
      TrialsAreRankable(s.train, series, s.grid);
      hide BestRun, Rankable, ChosenByRatio, ChosenByNet, ChosenByDrawdown;
      match metric {
        case NetProfit => NetProfitSelects(runs);
        case ProfitFactor => ProfitFactorSelects(runs);
        case WinRate => WinRateSelects(runs);
        case MaxDrawdown => DrawdownSelects(runs);
      }
  }

  /**
   In a run that returns, every window that completes has applied and validated the run
   that its method's name stands for among the grid's runs on that window's training days.
   */
  lemma RunSelectsByName(s: Setup, windows: seq<Window>, continueOnError: bool, method_: string, i: nat)
    requires ParseMethod(method_) == Returned(s.method_)
    requires Walk(s, windows, continueOnError).Returned? && i < |windows|
    requires Trainable(s.train, windows[i].training, s.grid)
    ensures
      var results := Walk(s, windows, continueOnError).value;
      && |results| == |windows|
      && (results[i].WindowCompleted? ==>
            && results[i].runs == TrialRuns(s.train, windows[i].training, s.grid)
            && ChosenByName(Lower(Strip(method_)), s.report, results[i].runs, results[i].best)
            && results[i].applied == results[i].best.parameter
            && s.validate(windows[i].validation, results[i].applied) == Returned(results[i].validation))
  {
    WalkEntries(s, windows, continueOnError);
    if Walk(s, windows, continueOnError).value[i].WindowCompleted? {
      CompletedShowsTraining(s, windows[i], continueOnError);
      hide Walk, Train, ChosenByName, TrialRuns, ParseMethod, Strip, Lower;
      TrainingSelectsByName(s, windows[i].training, method_);
    }
  }

  /** A window completes exactly when training selects a run and its validation returns. */
  lemma WindowCompletesExactly(s: Setup, w: Window)
    ensures WindowOutcome(s, w).Returned? <==>
            && !SilentFailure(s.train, w.training, s.grid)
            && Offers(s, TrialRuns(s.train, w.training, s.grid))
            && (Train(s, w.training).Returned? ==>
                s.validate(w.validation, Train(s, w.training).value.1.parameter).Returned?)
  {
    TrainingSelectsExactly(s, w.training);
    hide Train, Offers, SilentFailure, TrialRuns, IsFirst;
  }

  /** The error of a window: of its training runs, of the report, of the selection, or of the validation. */
  lemma WindowRaises(s: Setup, w: Window)
    requires WindowOutcome(s, w).Raised?
    ensures
      var text, runs := WindowOutcome(s, w).fault, TrialRuns(s.train, w.training, s.grid);
      if SilentFailure(s.train, w.training, s.grid) then text == RUN_NEEDS_MESSAGE
      else if s.method_.Composite? && s.report(runs).Raised? then text == s.report(runs).fault
      else if !Offers(s, runs) then text == NO_COMPLETED_RUN
      else
        && Train(s, w.training).Returned?
        && s.validate(w.validation, Train(s, w.training).value.1.parameter) == Raised(text)
  {
    var runs := TrialRuns(s.train, w.training, s.grid);
    TrialsExactly(s.train, w.training, s.grid);
    TrialsAreRuns(s.train, w.training, s.grid);
    SelectsExactly(s, runs);
    SelectRaises(s, runs);
    hide Trials, TrialRuns, Select, Offers, SilentFailure, IsFirst;
  }

  lemma SelectRaises(s: Setup, runs: seq<Run>)
    ensures
      var selected := Select(s.report, s.method_, runs);
      if s.method_.Composite? && s.report(runs).Raised? then selected == Raised(s.report(runs).fault)
      else selected.Returned?
  {
  }

  // ---- No leakage ----

  /** Two runs that train alike select alike, whatever their validation bars and validation results. */
  lemma SelectionSeesTrainingOnly(a: Setup, b: Setup, va: seq<Window>, vb: seq<Window>, continueOnError: bool)
    requires a.train == b.train && a.report == b.report && a.grid == b.grid && a.method_ == b.method_
    requires |va| == |vb| && forall i :: 0 <= i < |va| ==> va[i].training == vb[i].training
    requires Walk(a, va, continueOnError).Returned? && Walk(b, vb, continueOnError).Returned?
    ensures
      var ra, rb := Walk(a, va, continueOnError).value, Walk(b, vb, continueOnError).value;
      && |ra| == |rb| == |va|
      && forall i :: 0 <= i < |va| && ra[i].WindowCompleted? && rb[i].WindowCompleted? ==>
          ra[i].best == rb[i].best && ra[i].runs == rb[i].runs && ra[i].applied == rb[i].applied
  {
    WalkEntries(a, va, continueOnError);
    WalkEntries(b, vb, continueOnError);
    var ra, rb := Walk(a, va, continueOnError).value, Walk(b, vb, continueOnError).value;
    forall i | 0 <= i < |va| && ra[i].WindowCompleted? && rb[i].WindowCompleted?
      ensures ra[i].best == rb[i].best && ra[i].runs == rb[i].runs && ra[i].applied == rb[i].applied
    {
      SelectedAlike(a, b, va[i], vb[i], ra[i], rb[i], continueOnError);
    }
  }

  lemma SelectedAlike(
    a: Setup, b: Setup, v: Window, w: Window, x: WindowResult, y: WindowResult, continueOnError: bool)
    requires a.train == b.train && a.report == b.report && a.grid == b.grid && a.method_ == b.method_
    requires v.training == w.training
    requires Entry(a, v, continueOnError) == Returned(x) && Entry(b, w, continueOnError) == Returned(y)
    requires x.WindowCompleted? && y.WindowCompleted?
    ensures x.best == y.best && x.runs == y.runs && x.applied == y.applied
  {
    CompletedShowsTraining(a, v, continueOnError);
    CompletedShowsTraining(b, w, continueOnError);
    TrainingAlike(a, b, v.training);
  }

  lemma CompletedShowsTraining(s: Setup, w: Window, continueOnError: bool)
    requires Entry(s, w, continueOnError).Returned? && Entry(s, w, continueOnError).value.WindowCompleted?
    ensures
      var r := Entry(s, w, continueOnError).value;
      && Train(s, w.training) == Returned((r.runs, r.best)) && r.applied == r.best.parameter
      && s.validate(w.validation, r.applied) == Returned(r.validation)
  {
  }

  lemma TrainingAlike(a: Setup, b: Setup, training: Series)
    requires a.train == b.train && a.report == b.report && a.grid == b.grid && a.method_ == b.method_
    ensures Train(a, training) == Train(b, training)
  {
  }

  // ---- Validations ----

  predicate Selecting(s: Setup, w: Window) {
    Train(s, w.training).Returned?
  }

  /**
   A run that returns validates the selected parameter once for every window whose
   training selects one, in the plan's order, and nothing else.
   */
  lemma {:induction false} ValidatedOncePerSelection(s: Setup, windows: seq<Window>, continueOnError: bool)
    requires Walk(s, windows, continueOnError).Returned?
    ensures
      var selecting := Keep(windows, (w: Window) => Selecting(s, w));
      var calls := Validations(s, windows, continueOnError);
      && |calls| == |selecting|
      && forall i :: 0 <= i < |selecting| ==>
          Selecting(s, selecting[i]) &&
          calls[i] == Call(selecting[i].validation, Train(s, selecting[i].training).value.1.parameter)
  {
    hide Train, Keep, Entry;
    var selects := (w: Window) => Selecting(s, w);
    if windows == [] {
      KeepNothing(selects);
    } else {
      var init, last := windows[..|windows| - 1], windows[|windows| - 1];
      ValidatedOncePerSelection(s, init, continueOnError);
      KeepSnoc(init, last, selects);
      assert windows == init + [last];
      assert Validations(s, windows, continueOnError) == Validations(s, init, continueOnError) + Validation(s, last);
    }
  }

  // ---- A failure without a text ----

  /** A backtest without trades. */
  function NoTrades(): Backtest {
    Backtest(Metrics(0, 0, 0, 0, 0.0, 0.0, 0.0, None, None), None)
  }

  /** One parameter, whose training returns and whose validation raises without a text. */
  function MuteValidation(p: Parameter): Setup {
    Setup((series, q) => Returned(NoTrades()), (series, q) => Raised(""),
          runs => Returned([]), [p], ByMetric(NetProfit))
  }

  /** Although errors are to be recorded, a validation that fails without a text ends the run. */
  lemma BlankValidationRaises(p: Parameter, w: Window)
    ensures Walk(MuteValidation(p), [w], true).Raised?
  {
    var s := MuteValidation(p);
    var runs := TrialRuns(s.train, w.training, s.grid);
    TrainingSelectsExactly(s, w.training);
    assert runs == [RunCompleted(p, NoTrades())];
    assert !SilentFailure(s.train, w.training, s.grid) && RunCompleted(p, NoTrades()) in runs;
    assert WindowOutcome(s, w) == Raised("") && Blank("");
    RunRaisesExactly(s, [w], true);
    assert w in [w];
  }

  /** Two parameters, the first of which raises without a text in training. */
  function MuteTraining(mute: Parameter, p: Parameter): Setup {
    Setup((series, q) => if q == mute then Raised("") else Returned(NoTrades()), (series, q) => Returned(NoTrades()),
          runs => Returned([]), [mute, p], ByMetric(NetProfit))
  }

  /** One training run that fails without a text fails its window, although another parameter completed. */
  lemma BlankTrialFailsWindow(mute: Parameter, p: Parameter, w: Window)
    requires mute != p
    ensures
      var s := MuteTraining(mute, p);
      && Trial(s.train, w.training, p) == Returned(RunCompleted(p, NoTrades()))
      && Walk(s, [w], true).Returned? && Walk(s, [w], true).value[0].WindowFailed?
  {
    var s := MuteTraining(mute, p);
    assert s.grid[..1] == [mute] && Blank("");
    assert Trials(s.train, w.training, []) == Returned([]);
    assert Trials(s.train, w.training, [mute]) == Raised(RUN_NEEDS_MESSAGE);
    assert Train(s, w.training) == Raised(RUN_NEEDS_MESSAGE);
    NotBlank(RUN_NEEDS_MESSAGE);
    assert Entry(s, w, true) == Returned(WindowFailed(w, RUN_NEEDS_MESSAGE));
    hide Entry;
    assert Walk(s, [], true) == Returned([]);
  }
}
