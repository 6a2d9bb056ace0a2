/** Walk-forward optimisation: rolling windows of training and validation days. */
module WalkForwardWindows {
  import opened Wrappers
  import opened Sorting
  import opened MarketBars

  const DAY: int := 86_400_000_000

  function DateOf(bar: HistoricalBar): int {
    bar.openedAt / DAY
  }

  datatype Series = Series(code: string, timeframe: string, bars: seq<HistoricalBar>) {
    /** The checks the series' constructor makes: one code, strictly ordered in time. */
    ghost predicate Accepted() {
      && (forall b :: b in bars ==> b.code == code)
      && (forall i, j :: 0 <= i < j < |bars| ==> bars[i].openedAt < bars[j].openedAt)
    }
  }

  function Dates(bars: seq<HistoricalBar>): seq<int> {
    if bars == [] then [] else Dates(bars[..|bars| - 1]) + [DateOf(bars[|bars| - 1])]
  }

  /** The trading dates of the bars, ascending and without repetition. */
  function TradingDates(bars: seq<HistoricalBar>): seq<int> {
    Sort(Distinct(Dates(bars)), IntLeq)
  }

  function Slice(series: Series, dates: seq<int>): Series {
    series.(bars := Keep(series.bars, b => DateOf(b) in dates))
  }

  ghost predicate SpansDates(bars: seq<HistoricalBar>, first: int, last: int) {
    && (forall b :: b in bars ==> first <= DateOf(b) <= last)
    && (exists b :: b in bars && DateOf(b) == first)
    && (exists b :: b in bars && DateOf(b) == last)
  }

  datatype Window = Window(
    number: int, trainingStart: int, trainingEnd: int, validationStart: int, validationEnd: int,
    training: Series, validation: Series)
  {
    /** The checks the window's constructor makes. */
    ghost predicate Accepted() {
      && number > 0
      && trainingStart <= trainingEnd
      && validationStart <= validationEnd
      && trainingEnd < validationStart
      && training.code == validation.code
      && training.timeframe == validation.timeframe
      && training.bars != []
      && validation.bars != []
      && SpansDates(training.bars, trainingStart, trainingEnd)
      && SpansDates(validation.bars, validationStart, validationEnd)
    }

    /** The window's identifier is built from its number and dates. */
    function Id(): (int, int, int, int, int) {
      (number, trainingStart, trainingEnd, validationStart, validationEnd)
    }
  }

  datatype Plan = Plan(windows: seq<Window>, trainingDays: int, validationDays: int, stepDays: int) {
    /** The checks the plan's constructor makes. */
    ghost predicate Accepted() {
      && trainingDays > 0 && validationDays > 0 && stepDays > 0
      && (forall i :: 0 <= i < |windows| ==> windows[i].number == i + 1)
      && (forall i, j :: 0 <= i < j < |windows| ==> windows[i].Id() != windows[j].Id())
    }
  }

  const BAD_DAYS := "training and validation days must be greater than zero"
  const BAD_STEP := "the step must be greater than zero"

  /** The window of the consecutive dates from `start` on. */
  function WindowFrom(series: Series, dates: seq<int>, number: int, start: nat, training: int, validation: int): Window
    requires training > 0 && validation > 0 && start + training + validation <= |dates|
  {
    var trainingDates := dates[start..start + training];
    var validationDates := dates[start + training..start + training + validation];
    Window(number, trainingDates[0], trainingDates[training - 1],
           validationDates[0], validationDates[validation - 1],
           Slice(series, trainingDates), Slice(series, validationDates))
  }

  /** How many windows fit into the dates. */
  function WindowCount(dates: nat, training: int, validation: int, step: int): nat
    requires training > 0 && validation > 0 && step > 0
  {
    if dates < training + validation then 0 else (dates - training - validation) / step + 1
  }

  lemma {:induction false} ProductOrder(a: int, b: int, step: int)
    requires step > 0
    ensures a <= b ==> a * step <= b * step
    decreases b - a
  {
    if a >= b {
    } else {
      ProductOrder(a, b - 1, step);
      assert b * step == (b - 1) * step + step;
    }
  }

  lemma CountFits(dates: nat, training: int, validation: int, step: int, k: nat)
    requires training > 0 && validation > 0 && step > 0
    ensures k < WindowCount(dates, training, validation, step) <==> k * step + training + validation <= dates
  {
    var room := dates - training - validation;
    if room >= 0 {
      var q := room / step;
      assert room == q * step + room % step;
      ProductOrder(k, q, step);
      ProductOrder(q + 1, k, step);
    } else {
      ProductOrder(0, k, step);
    }
  }

  /** The k-th window starts k steps in. */
  function WindowAt(series: Series, training: int, validation: int, step: int, k: nat): Window
    requires training > 0 && validation > 0 && step > 0
    requires k < WindowCount(|TradingDates(series.bars)|, training, validation, step)
  {
    CountFits(|TradingDates(series.bars)|, training, validation, step, k);
    WindowFrom(series, TradingDates(series.bars), k + 1, k * step, training, validation)
  }

  /**
   What `CreatePlan` returns for good arguments: as many windows as fit, each where
   its number says.
   */
  ghost predicate PlanFor(plan: Plan, series: Series, training: int, validation: int, step: int)
    requires training > 0 && validation > 0 && step > 0
  {
    && plan.trainingDays == training && plan.validationDays == validation && plan.stepDays == step
    && |plan.windows| == WindowCount(|TradingDates(series.bars)|, training, validation, step)
    && forall k :: 0 <= k < |plan.windows| ==> plan.windows[k] == WindowAt(series, training, validation, step, k)
  }

  /** Such a plan passes its checks: its numbers run from 1, so its identifiers differ. */
  lemma NumberedPlan(plan: Plan, series: Series, training: int, validation: int, step: int)
    requires training > 0 && validation > 0 && step > 0 && PlanFor(plan, series, training, validation, step)
    ensures plan.Accepted()
  {
    hide WindowCount, TradingDates, Slice;
    forall k | 0 <= k < |plan.windows|
      ensures plan.windows[k].number == k + 1
    {
      assert plan.windows[k] == WindowAt(series, training, validation, step, k);
    }
  }

  class WalkForwardWindowService {
    constructor () {}

    method CreatePlan(series: Series, training: int, validation: int, stepDays: Option<int>)
      returns (r: Outcome<Plan, string>)
      ensures
        var step := if stepDays.None? then validation else stepDays.value;
        if training <= 0 || validation <= 0 then r == Raised(BAD_DAYS)
        else if step <= 0 then r == Raised(BAD_STEP)
        else
          r.Returned? && PlanFor(r.value, series, training, validation, step) && r.value.Accepted()
    {
      if training <= 0 || validation <= 0 {
        return Raised(BAD_DAYS);
      }
      var step := if stepDays.None? then validation else stepDays.value;
      if step <= 0 {
        return Raised(BAD_STEP);
      }
      var windows := Roll(series, training, validation, step);
      r := Returned(Plan(windows, training, validation, step));
      NumberedPlan(r.value, series, training, validation, step);
    }

    /** The loop that advances the window by one step at a time. */
    method Roll(series: Series, training: int, validation: int, step: int) returns (windows: seq<Window>)
      requires training > 0 && validation > 0 && step > 0
      ensures |windows| == WindowCount(|TradingDates(series.bars)|, training, validation, step)
      ensures forall k :: 0 <= k < |windows| ==> windows[k] == WindowAt(series, training, validation, step, k)
    {
      hide TradingDates, Slice, WindowFrom;
      var dates := TradingDates(series.bars);
      windows := [];
      var start := 0;
      while start + training + validation <= |dates|
        invariant start == |windows| * step
        invariant |windows| <= WindowCount(|dates|, training, validation, step)
        invariant forall k :: 0 <= k < |windows| ==> windows[k] == WindowAt(series, training, validation, step, k)
        decreases |dates| - start
      {
        CountFits(|dates|, training, validation, step, |windows|);
        windows := windows + [WindowFrom(series, dates, |windows| + 1, start, training, validation)];
        start := start + step;
      }
      CountFits(|dates|, training, validation, step, |windows|);
    }
  }
}
