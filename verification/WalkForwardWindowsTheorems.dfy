/**
 The windows of a plan: all of them pass their checks, hold the days asked for,
 never look ahead, and tile the dates.
 */
module WalkForwardWindowsTheorems {
  import opened Sorting
  import opened MarketBars
  import opened WalkForwardWindows

  // ---- Trading dates ----

  ghost predicate Increasing(dates: seq<int>) {
    forall i, j :: 0 <= i < j < |dates| ==> dates[i] < dates[j]
  }

  ghost predicate OnDate(bars: seq<HistoricalBar>, d: int) {
    exists b :: b in bars && DateOf(b) == d
  }

  lemma {:induction false} DatesMeaning(bars: seq<HistoricalBar>)
    ensures forall d :: d in Dates(bars) <==> OnDate(bars, d)
  {
    if bars == [] {
    } else {
      var init, last := bars[..|bars| - 1], bars[|bars| - 1];
      DatesMeaning(init);
      assert forall b :: b in bars <==> b in init || b == last;
      forall d
        ensures d in Dates(bars) <==> OnDate(bars, d)
      {
        if OnDate(init, d) {
          var b :| b in init && DateOf(b) == d;
          assert b in bars;
        }
      }
    }
  }

  lemma TradingDatesMeaning(bars: seq<HistoricalBar>)
    ensures Increasing(TradingDates(bars))
    ensures forall d :: d in TradingDates(bars) <==> OnDate(bars, d)
  {
    var dates := Distinct(Dates(bars));
    DatesMeaning(bars);
    DistinctMeaning(Dates(bars));
    SortOrdered(dates, IntLeq);
    SortNoDuplicates(dates, IntLeq);
    SortMembers(dates, IntLeq);
  }

  lemma {:induction false} SameDates(a: seq<int>, b: seq<int>)
    requires Increasing(a) && Increasing(b)
    requires forall i :: 0 <= i < |a| ==> a[i] in b
    requires forall i :: 0 <= i < |b| ==> b[i] in a
    ensures a == b
  {
    assert a != [] ==> a[0] in b;
    assert b != [] ==> b[0] in a;
    if a == [] || b == [] {
    } else {
      forall i | 0 <= i < |a| - 1
        ensures a[1..][i] in b[1..]
      {
        assert a[i + 1] in b;
      }
      forall i | 0 <= i < |b| - 1
        ensures b[1..][i] in a[1..]
      {
        assert b[i + 1] in a;
      }
      SameDates(a[1..], b[1..]);
    }
  }

  // ---- A run of consecutive dates is a run of consecutive bars ----

  ghost predicate DatesNeverFall(bars: seq<HistoricalBar>) {
    forall i, j :: 0 <= i < j < |bars| ==> DateOf(bars[i]) <= DateOf(bars[j])
  }

  lemma SeriesDates(series: Series)
    requires series.Accepted()
    ensures DatesNeverFall(series.bars)
  {
  }

  /** How many bars fall before the date. */
  function Cut(bars: seq<HistoricalBar>, d: int): (k: nat)
    ensures k <= |bars|
  {
    if bars == [] then 0 else Cut(bars[..|bars| - 1], d) + if DateOf(bars[|bars| - 1]) < d then 1 else 0
  }

  lemma {:induction false} CutSplits(bars: seq<HistoricalBar>, d: int)
    requires DatesNeverFall(bars)
    ensures forall i :: 0 <= i < |bars| ==> (i < Cut(bars, d) <==> DateOf(bars[i]) < d)
  {
    if bars == [] {
    } else {
      var init, last := bars[..|bars| - 1], bars[|bars| - 1];
      CutSplits(init, d);
      var k := Cut(init, d);
      assert k < |init| ==> d <= DateOf(init[k]) <= DateOf(last);
    }
  }

  lemma {:induction false} CutGrows(bars: seq<HistoricalBar>, d: int, e: int)
    requires d <= e
    ensures Cut(bars, d) <= Cut(bars, e)
  {
    if bars == [] {
    } else {
      CutGrows(bars[..|bars| - 1], d, e);
    }
  }

  /** The first date past the k first ones. */
  function Bound(dates: seq<int>, k: nat): int
    requires 0 < k <= |dates|
  {
    if k < |dates| then dates[k] else dates[k - 1] + 1
  }

  lemma InRange(dates: seq<int>, lo: nat, hi: nat, d: int)
    requires Increasing(dates) && lo < hi <= |dates| && d in dates
    ensures d in dates[lo..hi] <==> dates[lo] <= d < Bound(dates, hi)
  {
    var i :| 0 <= i < |dates| && dates[i] == d;
    if lo <= i < hi {
      assert dates[lo..hi][i - lo] == d;
    }
    if d in dates[lo..hi] {
      var j :| lo <= j < hi && dates[j] == d;
    }
  }

  /** The bars of the dates lo to hi are consecutive bars of the series. */
  lemma SliceIsRange(series: Series, lo: nat, hi: nat)
    requires series.Accepted() && lo < hi <= |TradingDates(series.bars)|
    ensures
      var dates := TradingDates(series.bars);
      var a, b := Cut(series.bars, dates[lo]), Cut(series.bars, Bound(dates, hi));
      a <= b && Slice(series, dates[lo..hi]).bars == series.bars[a..b]
  {
    hide TradingDates, Cut;
    var bars, dates := series.bars, TradingDates(series.bars);
    TradingDatesMeaning(bars);
    var first, past := dates[lo], Bound(dates, hi);
    SeriesDates(series);
    CutSplits(bars, first);
    CutSplits(bars, past);
    var a, b := Cut(bars, first), Cut(bars, past);
    CutGrows(bars, first, past);
    forall i | 0 <= i < |bars|
      ensures DateOf(bars[i]) in dates[lo..hi] <==> a <= i < b
    {
      assert bars[i] in bars && OnDate(bars, DateOf(bars[i]));
      InRange(dates, lo, hi, DateOf(bars[i]));
    }
    KeepRange(bars, x => DateOf(x) in dates[lo..hi], a, b);
  }

  lemma SliceMember(series: Series, dates: seq<int>, b: HistoricalBar)
    ensures b in Slice(series, dates).bars <==> b in series.bars && DateOf(b) in dates
  {
    KeepMember(series.bars, x => DateOf(x) in dates, b);
  }

  /** A slice by dates of the series holds exactly those dates. */
  lemma SliceOnDates(series: Series, dates: seq<int>)
    requires forall d :: d in dates ==> OnDate(series.bars, d)
    ensures forall d :: OnDate(Slice(series, dates).bars, d) <==> d in dates
    ensures forall b :: b in Slice(series, dates).bars ==> b in series.bars && DateOf(b) in dates
  {
    hide Slice;
    forall b
      ensures b in Slice(series, dates).bars <==> b in series.bars && DateOf(b) in dates
    {
      SliceMember(series, dates, b);
    }
    forall d | d in dates
      ensures OnDate(Slice(series, dates).bars, d)
    {
      var b :| b in series.bars && DateOf(b) == d;
      assert b in Slice(series, dates).bars;
    }
  }

  lemma RangeAccepted(series: Series, slice: Series, a: nat, b: nat)
    requires series.Accepted() && a <= b <= |series.bars| && slice == series.(bars := series.bars[a..b])
    ensures slice.Accepted()
  {
  }

  lemma DatesDetermined(bars: seq<HistoricalBar>, dates: seq<int>)
    requires Increasing(dates) && forall d :: OnDate(bars, d) <==> d in dates
    ensures TradingDates(bars) == dates
  {
    hide TradingDates, OnDate;
    TradingDatesMeaning(bars);
    var own := TradingDates(bars);
    forall i | 0 <= i < |own|
      ensures own[i] in dates
    {
      assert own[i] in own;
    }
    forall i | 0 <= i < |dates|
      ensures dates[i] in own
    {
      assert dates[i] in dates;
    }
    SameDates(own, dates);
  }

  lemma SliceAccepted(series: Series, lo: nat, hi: nat)
    requires series.Accepted() && lo < hi <= |TradingDates(series.bars)|
    ensures Slice(series, TradingDates(series.bars)[lo..hi]).Accepted()
  {
    var all := TradingDates(series.bars);
    var slice := Slice(series, all[lo..hi]);
    SliceIsRange(series, lo, hi);
    hide TradingDates, Keep, Cut, Bound;
    RangeAccepted(series, slice, Cut(series.bars, all[lo]), Cut(series.bars, Bound(all, hi)));
  }

  lemma SliceOnRange(series: Series, lo: nat, hi: nat)
    requires lo < hi <= |TradingDates(series.bars)|
    ensures
      var dates := TradingDates(series.bars)[lo..hi];
      Increasing(dates) && forall d :: OnDate(Slice(series, dates).bars, d) <==> d in dates
  {
    hide TradingDates, Slice, OnDate;
    TradingDatesMeaning(series.bars);
    var all := TradingDates(series.bars);
    assert forall d :: d in all[lo..hi] ==> d in all;
    SliceOnDates(series, all[lo..hi]);
  }

  /** A slice by consecutive trading dates is a well-formed series holding exactly those dates. */
  lemma SliceKeeps(series: Series, lo: nat, hi: nat)
    requires series.Accepted() && lo < hi <= |TradingDates(series.bars)|
    ensures
      var dates := TradingDates(series.bars)[lo..hi];
      var slice := Slice(series, dates);
      && slice.Accepted()
      && TradingDates(slice.bars) == dates
      && SpansDates(slice.bars, dates[0], dates[|dates| - 1])
  {
    hide TradingDates, Slice, OnDate, Increasing, SpansDates, Series.Accepted;
    var dates := TradingDates(series.bars)[lo..hi];
    var slice := Slice(series, dates);
    SliceAccepted(series, lo, hi);
    SliceOnRange(series, lo, hi);
    DatesDetermined(slice.bars, dates);
    SpansItsDates(slice.bars, dates);
  }

  lemma SpansItsDates(bars: seq<HistoricalBar>, dates: seq<int>)
    requires Increasing(dates) && dates != [] && forall d :: OnDate(bars, d) <==> d in dates
    ensures SpansDates(bars, dates[0], dates[|dates| - 1])
  {
    assert OnDate(bars, dates[0]) && OnDate(bars, dates[|dates| - 1]);
    forall b | b in bars
      ensures dates[0] <= DateOf(b) <= dates[|dates| - 1]
    {
      assert OnDate(bars, DateOf(b));
    }
  }

  // ---- The windows ----

  ghost predicate Planned(series: Series, training: int, validation: int, step: int, k: nat) {
    && series.Accepted() && training > 0 && validation > 0 && step > 0
    && k < WindowCount(|TradingDates(series.bars)|, training, validation, step)
  }

  /**
   Every window passes its constructor's checks and holds exactly the days asked
   for: its training and validation series carry exactly the k-th run of dates.
   */
  lemma WindowHoldsItsDays(series: Series, training: int, validation: int, step: int, k: nat)
    requires Planned(series, training, validation, step, k)
    ensures
      var w, dates := WindowAt(series, training, validation, step, k), TradingDates(series.bars);
      && 0 <= k * step && k * step + training + validation <= |dates|
      && w.number == k + 1
      && w.Accepted()
      && w.training.Accepted() && w.validation.Accepted()
      && TradingDates(w.training.bars) == dates[k * step..k * step + training]
      && TradingDates(w.validation.bars) == dates[k * step + training..k * step + training + validation]
  {
    hide TradingDates, Keep;
    var dates, start := TradingDates(series.bars), k * step;
    CountFits(|dates|, training, validation, step, k);
    TradingDatesMeaning(series.bars);
    SliceKeeps(series, start, start + training);
    SliceKeeps(series, start + training, start + training + validation);
    assert dates[start..start + training][training - 1] < dates[start + training..start + training + validation][0];
  }

  /**
   No look-ahead: the training bars followed by the validation bars are
   consecutive bars of the series, in order, so training ends before validation
   begins and nothing lies between them.
   */
  lemma NoLookAhead(series: Series, training: int, validation: int, step: int, k: nat)
    returns (a: nat, b: nat, c: nat)
    requires Planned(series, training, validation, step, k)
    ensures a < b < c <= |series.bars|
    ensures WindowAt(series, training, validation, step, k).training.bars == series.bars[a..b]
    ensures WindowAt(series, training, validation, step, k).validation.bars == series.bars[b..c]
    ensures forall t, v :: t in series.bars[a..b] && v in series.bars[b..c] ==> t.openedAt < v.openedAt
  {
    hide TradingDates, Slice, Cut;
    var dates, start := TradingDates(series.bars), k * step;
    CountFits(|dates|, training, validation, step, k);
    WindowHoldsItsDays(series, training, validation, step, k);
    SliceIsRange(series, start, start + training);
    SliceIsRange(series, start + training, start + training + validation);
    a := Cut(series.bars, dates[start]);
    b := Cut(series.bars, dates[start + training]);
    c := Cut(series.bars, Bound(dates, start + training + validation));
  }

  /** A created plan passes its checks, and so do its windows and their series. */
  lemma PlanAccepted(plan: Plan, series: Series, training: int, validation: int, step: int)
    requires training > 0 && validation > 0 && step > 0 && series.Accepted()
    requires PlanFor(plan, series, training, validation, step)
    ensures plan.Accepted()
    ensures forall w :: w in plan.windows ==> w.Accepted() && w.training.Accepted() && w.validation.Accepted()
  {
    hide TradingDates, WindowAt;
    NumberedPlan(plan, series, training, validation, step);
    forall k | 0 <= k < |plan.windows|
      ensures
        var w := plan.windows[k];
        w.Accepted() && w.training.Accepted() && w.validation.Accepted()
    {
      WindowHoldsItsDays(series, training, validation, step, k);
    }
  }

  // ---- Tiling ----

  /** With a step no shorter than validation, no date validates two windows. */
  lemma ValidationDisjoint(series: Series, training: int, validation: int, step: int, i: nat, j: nat, d: int)
    requires Planned(series, training, validation, step, i) && Planned(series, training, validation, step, j)
    requires step >= validation && i < j
    ensures !(d in TradingDates(WindowAt(series, training, validation, step, i).validation.bars)
              && d in TradingDates(WindowAt(series, training, validation, step, j).validation.bars))
  {
    hide TradingDates, WindowAt;
    WindowHoldsItsDays(series, training, validation, step, i);
    WindowHoldsItsDays(series, training, validation, step, j);
    TradingDatesMeaning(series.bars);
    StepsApart(i, j, step);
    hide Planned;
    var a, b := i * step + training, j * step + training;
    DisjointRanges(TradingDates(series.bars), a, a + validation, b, b + validation, d);
  }

  lemma StepsApart(i: nat, j: nat, step: int)
    requires i < j && step > 0
    ensures i * step + step <= j * step
  {
    ProductOrder(i + 1, j, step);
    assert (i + 1) * step == i * step + step;
  }

  lemma DisjointRanges(dates: seq<int>, a: nat, b: nat, c: nat, e: nat, d: int)
    requires Increasing(dates) && a <= b <= c <= e <= |dates|
    ensures !(d in dates[a..b] && d in dates[c..e])
  {
  }

  /**
   With the default step every date after the first training days validates
   exactly one window, but for a tail shorter than one validation block.
   */
  lemma ValidationTiles(series: Series, training: int, validation: int, d: nat)
    requires series.Accepted() && training > 0 && validation > 0
    requires training <= d < |TradingDates(series.bars)|
    ensures
      var n := WindowCount(|TradingDates(series.bars)|, training, validation, validation);
      var k := (d - training) / validation;
      var date := TradingDates(series.bars)[d];
      && |TradingDates(series.bars)| - (training + n * validation) < validation
      && (k < n <==> d < training + n * validation)
      && forall i :: 0 <= i < n ==>
          (date in TradingDates(WindowAt(series, training, validation, validation, i).validation.bars) <==> i == k)
  {
    hide TradingDates, WindowAt;
    var dates := TradingDates(series.bars);
    var n := WindowCount(|dates|, training, validation, validation);
    var k := (d - training) / validation;
    TradingDatesMeaning(series.bars);
    CountFits(|dates|, training, validation, validation, n);
    BlockOf(d - training, validation, n);
    forall i | 0 <= i < n
      ensures dates[d] in TradingDates(WindowAt(series, training, validation, validation, i).validation.bars) <==>
              i == k
    {
      WindowHoldsItsDays(series, training, validation, validation, i);
      BlockOf(d - training, validation, i);
      BlockOf(d - training, validation, i + 1);
      assert (i + 1) * validation == i * validation + validation;
      var lo := i * validation + training;
      if dates[d] in dates[lo..lo + validation] {
        var m :| lo <= m < lo + validation && dates[m] == dates[d];
        assert m == d;
      }
      if lo <= d < lo + validation {
        assert dates[lo..lo + validation][d - lo] == dates[d];
      }
    }
  }

  lemma BlockOf(x: nat, size: int, i: nat)
    requires size > 0
    ensures x / size < i <==> x < i * size
  {
    var q := x / size;
    assert x == q * size + x % size && (q + 1) * size == q * size + size;
    ProductOrder(q + 1, i, size);
    ProductOrder(i, q, size);
  }
}
