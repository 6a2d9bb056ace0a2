/** The one-pass history against its definitions: drawdown over all pairs of days, totals, and when it is refused. */
module DailyHistoryTheorems {
  import opened Wrappers
  import opened DailyHistory

  // ---- The points ----

  function PointAt(first: Option<real>, records: seq<Record>, i: int): Point
    requires 0 <= i < |records|
  {
    LastPoint(first, records[..i + 1])
  }

  lemma {:induction false} PointsMeaning(first: Option<real>, records: seq<Record>)
    ensures
      match History(first, records)
      case Returned(points) =>
        && |points| == |records|
        && forall i :: 0 <= i < |records| ==>
            PointAt(first, records, i).Accepted() && points[i] == PointAt(first, records, i)
      case Raised(_) =>
        exists i :: 0 <= i < |records| && !PointAt(first, records, i).Accepted()
  {
    hide LastPoint;
    if records == [] {
    } else {
      var init := records[..|records| - 1];
      PointsMeaning(first, init);
      assert records[..|init| + 1] == records;
      assert PointAt(first, records, |init|) == LastPoint(first, records);
      forall i | 0 <= i < |init|
        ensures PointAt(first, records, i) == PointAt(first, init, i)
      {
        assert init[..i + 1] == records[..i + 1];
      }
    }
  }

  ghost predicate Known(records: seq<Record>, i: int) {
    0 <= i < |records| && records[i].finalEquity.Some?
  }

  function Equity(records: seq<Record>, i: int): real
    requires Known(records, i)
  {
    records[i].finalEquity.value
  }

  /** The running peak is the largest equity so far. */
  lemma {:induction false} PeakIsMaximum(records: seq<Record>)
    ensures
      match Peak(records)
      case None => forall i :: !Known(records, i)
      case Some(p) =>
        && (exists i :: Known(records, i) && Equity(records, i) == p)
        && forall i :: Known(records, i) ==> Equity(records, i) <= p
  {
    if records == [] {
    } else {
      var init := records[..|records| - 1];
      PeakIsMaximum(init);
      assert forall i :: Known(init, i) ==> Known(records, i) && Equity(records, i) == Equity(init, i);
      assert forall i :: Known(records, i) && i < |init| ==> Known(init, i);
      assert Known(records, |init|) <==> records[|init|].finalEquity.Some?;
    }
  }

  // ---- Drawdown ----

  ghost predicate NotNegative(records: seq<Record>) {
    forall i :: Known(records, i) ==> 0.0 <= Equity(records, i)
  }

  /** A fall from day i to day j. */
  ghost predicate Falls(records: seq<Record>, i: int, j: int) {
    i <= j && Known(records, i) && Known(records, j) && Equity(records, i) > 0.0
  }

  function Fall(records: seq<Record>, i: int, j: int): real
    requires Falls(records, i, j)
  {
    (Equity(records, i) - Equity(records, j)) / Equity(records, i)
  }

  /** A higher starting point makes the relative fall no smaller. */
  lemma FallGrows(low: real, high: real, to: real)
    requires 0.0 < low <= high && 0.0 <= to
    ensures (low - to) / low <= (high - to) / high
  {
    var p, q := (low - to) / low, (high - to) / high;
    assert p * low == low - to && q * high == high - to;
    assert (1.0 - q) * high == to;
    assert q > 1.0 ==> (1.0 - q) * high < 0.0;
    assert (1.0 - q) * (high - low) >= 0.0;
    assert p > q ==> (p - q) * low > 0.0;
  }

  /** The drawdown of day j is the largest fall that ends there. */
  lemma DayDrawdown(records: seq<Record>, j: nat)
    requires NotNegative(records) && j < |records|
    ensures
      match Drawdown(Peak(records[..j + 1]), records[j].finalEquity)
      case None => forall i :: !Falls(records, i, j)
      case Some(d) =>
        && 0.0 <= d
        && (exists i :: Falls(records, i, j) && Fall(records, i, j) == d)
        && forall i :: Falls(records, i, j) ==> Fall(records, i, j) <= d
  {
    var upTo := records[..j + 1];
    PeakIsMaximum(upTo);
    assert forall i :: Known(upTo, i) <==> Known(records, i) && i <= j;
    assert forall i :: Known(upTo, i) ==> Equity(upTo, i) == Equity(records, i);
    if Known(records, j) && Peak(upTo).value > 0.0 {
      var p := Peak(upTo).value;
      var to := Equity(records, j);
      forall i | Falls(records, i, j)
        ensures Fall(records, i, j) <= (p - to) / p
      {
        assert Known(upTo, i);
        FallGrows(Equity(records, i), p, to);
      }
      var top :| Known(upTo, top) && Equity(upTo, top) == p;
      assert Falls(records, top, j) && Fall(records, top, j) == (p - to) / p;
      assert Known(upTo, j) && to <= p;
      assert 0.0 <= (p - to) / p;
    }
  }

  lemma {:induction false} WorstIsMaximum(points: seq<Point>)
    ensures forall i :: 0 <= i < |points| && points[i].drawdown.Some? ==>
              Worst(points).Some? && points[i].drawdown.value <= Worst(points).value
    ensures Worst(points).Some? ==> exists i :: 0 <= i < |points| && points[i].drawdown == Worst(points)
  {
    if points == [] {
    } else {
      var init := points[..|points| - 1];
      WorstIsMaximum(init);
      assert forall i :: 0 <= i < |init| ==> points[i] == init[i];
      assert points[|init|] == points[|points| - 1];
    }
  }

  /** The largest relative fall between two days, or none without a day with equity to fall from. */
  ghost predicate IsLargestFall(records: seq<Record>, worst: Option<real>) {
    && (forall i, j :: Falls(records, i, j) ==> worst.Some? && Fall(records, i, j) <= worst.value)
    && (worst.Some? ==> exists i, j :: Falls(records, i, j) && Fall(records, i, j) == worst.value)
  }

  lemma {:induction false} WorstIsLargestFall(records: seq<Record>, points: seq<Point>)
    requires NotNegative(records) && |points| == |records|
    requires forall j :: 0 <= j < |records| ==>
               points[j].drawdown == Drawdown(Peak(records[..j + 1]), records[j].finalEquity)
    ensures IsLargestFall(records, Worst(points))
  {
    hide Worst, Peak, Drawdown;
    WorstIsMaximum(points);
    forall i, j | Falls(records, i, j)
      ensures Worst(points).Some? && Fall(records, i, j) <= Worst(points).value
    {
      DayDrawdown(records, j);
      assert points[j].drawdown.Some?;
    }
    if Worst(points).Some? {
      var j :| 0 <= j < |points| && points[j].drawdown == Worst(points);
      DayDrawdown(records, j);
      var i :| Falls(records, i, j) && Fall(records, i, j) == Worst(points).value;
    }
  }

  lemma HistoryShowsDrawdowns(records: seq<Record>, first: Option<real>)
    requires NotNegative(records)
    ensures History(first, records).Returned? && |History(first, records).value| == |records|
    ensures forall j :: 0 <= j < |records| ==>
              History(first, records).value[j].drawdown == Drawdown(Peak(records[..j + 1]), records[j].finalEquity)
  {
    PointsMeaning(first, records);
    forall j: nat | j < |records|
      ensures PointAt(first, records, j).drawdown == Drawdown(Peak(records[..j + 1]), records[j].finalEquity)
      ensures PointAt(first, records, j).Accepted()
    {
      DayDrawdown(records, j);
    }
    hide History, PointAt, Drawdown, Peak;
  }

  lemma {:induction false} ReverseAt(records: seq<Record>, i: nat)
    requires i < |records|
    ensures |Reverse(records)| == |records| && Reverse(records)[i] == records[|records| - 1 - i]
  {
    if |records| == 1 {
    } else {
      ReverseAt(records[1..], if i < |records| - 1 then i else 0);
    }
  }

  /** A fall from a day to a later one, in records that come newest first. */
  ghost predicate FallsSince(recent: seq<Record>, earlier: int, later: int) {
    later <= earlier && Known(recent, earlier) && Known(recent, later) && Equity(recent, earlier) > 0.0
  }

  function FallSince(recent: seq<Record>, earlier: int, later: int): real
    requires FallsSince(recent, earlier, later)
  {
    (Equity(recent, earlier) - Equity(recent, later)) / Equity(recent, earlier)
  }

  /** The largest relative fall from a day to a later one, or none without a day with equity to fall from. */
  ghost predicate IsLargestFallSince(recent: seq<Record>, worst: Option<real>) {
    && (forall i, j :: FallsSince(recent, i, j) ==> worst.Some? && FallSince(recent, i, j) <= worst.value)
    && (worst.Some? ==> exists i, j :: FallsSince(recent, i, j) && FallSince(recent, i, j) == worst.value)
  }

  lemma ReversedFall(recent: seq<Record>, i: nat, j: nat)
    requires i < |recent| && j < |recent|
    ensures
      var n := |recent| - 1;
      && |Reverse(recent)| == |recent|
      && (FallsSince(recent, i, j) <==> Falls(Reverse(recent), n - i, n - j))
      && (FallsSince(recent, i, j) ==> FallSince(recent, i, j) == Fall(Reverse(recent), n - i, n - j))
  {
    ReverseAt(recent, |recent| - 1 - i);
    ReverseAt(recent, |recent| - 1 - j);
  }

  lemma LargestFallSince(recent: seq<Record>, worst: Option<real>)
    requires IsLargestFall(Reverse(recent), worst)
    ensures IsLargestFallSince(recent, worst)
  {
    var n := |recent| - 1;
    hide Reverse, Falls, FallsSince;
    forall i, j | FallsSince(recent, i, j)
      ensures worst.Some? && FallSince(recent, i, j) <= worst.value
    {
      FallsInRange(recent, i, j);
      ReversedFall(recent, i, j);
    }
    if worst.Some? {
      var i, j :| Falls(Reverse(recent), i, j) && Fall(Reverse(recent), i, j) == worst.value;
      FallsInRange(recent, i, j);
      ReversedFall(recent, n - i, n - j);
      assert FallsSince(recent, n - i, n - j);
    }
  }

  lemma FallsInRange(recent: seq<Record>, i: int, j: int)
    ensures FallsSince(recent, i, j) ==> 0 <= i < |recent| && 0 <= j < |recent|
    ensures Falls(Reverse(recent), i, j) ==> 0 <= i < |recent| && 0 <= j < |recent|
  {
    ReverseLength(recent);
  }

  /**
   With no negative equity the payload is never refused, and its maximum drawdown is
   the largest relative fall over all pairs of days, earlier to later, of the records as
   they come, newest first; days without equity are gaps.
   */
  lemma MaximumDrawdownIsLargestFall(recent: seq<Record>)
    requires NotNegative(recent)
    ensures PayloadOf(recent).Returned?
    ensures IsLargestFallSince(recent, PayloadOf(recent).value.MaximumDrawdown())
  {
    var records, first := Reverse(recent), FirstEquity(Reverse(recent));
    forall i | Known(records, i)
      ensures 0.0 <= Equity(records, i)
    {
      ReverseLength(recent);
      ReverseAt(recent, i);
      assert Known(recent, |recent| - 1 - i);
    }
    HistoryShowsDrawdowns(records, first);
    WorstIsLargestFall(records, History(first, records).value);
    LargestFallSince(recent, Worst(History(first, records).value));
  }

  /** The check that the daily summary's constructor makes on equities, so that every stored record has passed it. */
  predicate EquitiesAccepted(r: Record) {
    && (r.initialEquity.Some? ==> 0.0 <= r.initialEquity.value)
    && (r.finalEquity.Some? ==> 0.0 <= r.finalEquity.value)
  }

  /** Stored records are never refused. */
  lemma StoredRecordsAreAccepted(recent: seq<Record>)
    requires forall r :: r in recent ==> EquitiesAccepted(r)
    ensures PayloadOf(recent).Returned?
    ensures forall p :: p in PayloadOf(recent).value.history ==> p.Accepted()
  {
    var records := Reverse(recent);
    assert forall i :: Known(recent, i) ==> recent[i] in recent;
    MaximumDrawdownIsLargestFall(recent);
    PointsMeaning(FirstEquity(records), records);
  }

  /** Day j is below an earlier day, and no equity up to it was ever zero or more. */
  ghost predicate Sinks(records: seq<Record>, j: int) {
    Known(records, j)
    && (exists i :: i <= j && Known(records, i) && Equity(records, j) < Equity(records, i))
    && forall k :: k <= j && Known(records, k) ==> Equity(records, k) < 0.0
  }

  ghost predicate Sinking(records: seq<Record>) {
    exists j :: Sinks(records, j)
  }

  /** The history is refused exactly when equities that were negative from the start fall further. */
  lemma HistoryRefusedExactly(records: seq<Record>, first: Option<real>)
    ensures History(first, records).Raised? <==> Sinking(records)
    ensures History(first, records).Raised? ==> History(first, records) == Raised(NEGATIVE_DRAWDOWN)
  {
    RefusalText(first, records);
    hide Sinks, History, LastPoint;
    PointsMeaning(first, records);
    forall j: nat | j < |records|
      ensures PointAt(first, records, j).Accepted() <==> !Sinks(records, j)
    {
      RefusedPoint(records, first, j);
    }
    SinksInRange(records);
  }

  lemma {:induction false} RefusalText(first: Option<real>, records: seq<Record>)
    ensures History(first, records).Raised? ==> History(first, records).fault == NEGATIVE_DRAWDOWN
  {
    if records == [] {
    } else {
      RefusalText(first, records[..|records| - 1]);
    }
  }

  /** A payload is refused exactly when its history is. */
  lemma PayloadRefusedExactly(recent: seq<Record>)
    ensures PayloadOf(recent).Raised? <==> Sinking(Reverse(recent))
    ensures PayloadOf(recent).Raised? ==> PayloadOf(recent).fault == NEGATIVE_DRAWDOWN
  {
    hide Reverse, Cumulative, Sinking;
    var records := Reverse(recent);
    HistoryRefusedExactly(records, FirstEquity(records));
    assert PayloadOf(recent).Raised? <==> History(FirstEquity(records), records).Raised?;
  }

  lemma SinksInRange(records: seq<Record>)
    ensures forall j :: Sinks(records, j) ==> 0 <= j < |records|
  {
  }

  lemma RefusedPoint(records: seq<Record>, first: Option<real>, j: nat)
    requires j < |records|
    ensures PointAt(first, records, j).Accepted() <==> !Sinks(records, j)
  {
    var upTo := records[..j + 1];
    PeakIsMaximum(upTo);
    assert forall i :: Known(upTo, i) <==> Known(records, i) && i <= j;
    assert forall i :: Known(upTo, i) ==> Equity(upTo, i) == Equity(records, i);
    if Known(records, j) {
      var p, e := Peak(upTo).value, Equity(records, j);
      assert Known(upTo, j) && e <= p;
      var top :| Known(upTo, top) && Equity(upTo, top) == p;
      if p != 0.0 {
        SignOfRatio(p - e, p);
      }
    }
  }

  lemma SignOfRatio(a: real, b: real)
    requires a >= 0.0 && b != 0.0
    ensures a / b < 0.0 <==> a > 0.0 && b < 0.0
  {
    var q := a / b;
    assert q * b == a;
    assert q < 0.0 && b > 0.0 ==> q * b < 0.0;
    assert q >= 0.0 && b < 0.0 ==> q * b <= 0.0;
    assert q < 0.0 && b < 0.0 ==> q * b > 0.0;
  }

  // ---- Totals ----

  lemma {:induction false} CumulativeAppend(a: seq<Record>, b: seq<Record>)
    ensures Cumulative(a + b) == Cumulative(a) + Cumulative(b)
  {
    if b == [] {
      assert a + b == a;
    } else {
      CumulativeAppend(a, b[..|b| - 1]);
      assert (a + b)[..|a + b| - 1] == a + b[..|b| - 1];
    }
  }

  lemma {:induction false} CumulativeOfReverse(records: seq<Record>)
    ensures Cumulative(Reverse(records)) == Cumulative(records)
  {
    if records == [] {
    } else {
      var head := [records[0]];
      CumulativeOfReverse(records[1..]);
      CumulativeAppend(Reverse(records[1..]), head);
      CumulativeAppend(head, records[1..]);
      assert records == head + records[1..];
    }
  }

  /** The results added up, a missing one counting nothing. */
  function NetSum(records: seq<Record>): real {
    if records == [] then 0.0
    else (if records[0].net.Some? then records[0].net.value else 0.0) + NetSum(records[1..])
  }

  lemma {:induction false} CumulativeIsNetSum(records: seq<Record>)
    ensures Cumulative(records) == NetSum(records)
  {
    if records == [] {
    } else {
      CumulativeIsNetSum(records[1..]);
      CumulativeAppend([records[0]], records[1..]);
      assert [records[0]] + records[1..] == records;
      assert Cumulative([]) == 0.0 && [records[0]][..0] == [];
    }
  }

  lemma {:induction false} ReverseSuffix(records: seq<Record>, i: nat)
    requires i <= |records|
    ensures |Reverse(records)| == |records| && Reverse(records)[..i] == Reverse(records[|records| - i..])
  {
    ReverseLength(records);
    if i == |records| {
      assert records[0..] == records && Reverse(records)[..i] == Reverse(records);
    } else {
      var rest := records[1..];
      ReverseSuffix(rest, i);
      assert rest[|rest| - i..] == records[|records| - i..];
    }
  }

  /**
   The history of records that come newest first lists them oldest first, each with its
   own date, result, equity and return, and with the sum of the results up to that day;
   the payload's total is the sum of all.
   */
  lemma PayloadListsDays(recent: seq<Record>)
    requires PayloadOf(recent).Returned?
    ensures
      var p := PayloadOf(recent).value;
      && |p.history| == |recent| && p.cumulative == NetSum(recent)
      && forall i :: 0 <= i < |recent| ==> PointShows(p.history[i], recent, |recent| - 1 - i)
  {
    var records := Reverse(recent);
    ReverseLength(recent);
    PointsMeaning(FirstEquity(records), records);
    CumulativeOfReverse(recent);
    CumulativeIsNetSum(recent);
    hide History, Cumulative, NetSum, Reverse, PointAt;
    forall i: nat | i < |recent|
      ensures PointShows(PointAt(FirstEquity(records), records, i), recent, |recent| - 1 - i)
    {
      DayIsShown(recent, i);
    }
  }

  /** A point shows the k-th of the records that come newest first, and the sum of the results up to it. */
  ghost predicate PointShows(point: Point, recent: seq<Record>, k: int)
    requires 0 <= k < |recent|
  {
    var day := recent[k];
    && point.date == day.date && point.net == day.net && point.equity == day.finalEquity
    && point.returnRate == day.returnRate && point.cumulative == NetSum(recent[k..])
  }

  lemma DayIsShown(recent: seq<Record>, i: nat)
    requires i < |recent| == |Reverse(recent)|
    ensures PointShows(PointAt(FirstEquity(Reverse(recent)), Reverse(recent), i), recent, |recent| - 1 - i)
  {
    ReverseAt(recent, i);
    ReverseSuffix(recent, i + 1);
    CumulativeOfReverse(recent[|recent| - 1 - i..]);
    CumulativeIsNetSum(recent[|recent| - 1 - i..]);
    hide Cumulative, NetSum, Reverse, Drawdown, Peak, FirstEquity;
  }

  /** The total is the cumulative result of the last day. */
  lemma LastPointCarriesTheTotal(recent: seq<Record>)
    requires PayloadOf(recent).Returned? && recent != []
    ensures
      var p := PayloadOf(recent).value;
      p.history != [] && p.history[|p.history| - 1].cumulative == p.cumulative
  {
    PayloadListsDays(recent);
    assert recent[0..] == recent;
  }

  lemma {:induction false} ReverseLength(records: seq<Record>)
    ensures |Reverse(records)| == |records|
  {
    if records == [] {
    } else {
      ReverseLength(records[1..]);
    }
  }

  /** The oldest of the records whose initial equity is known and not zero. */
  ghost predicate IsBase(recent: seq<Record>, i: int) {
    && 0 <= i < |recent| && recent[i].initialEquity.Some? && recent[i].initialEquity.value != 0.0
    && forall j :: i < j < |recent| ==> recent[j].initialEquity.None? || recent[j].initialEquity.value == 0.0
  }

  lemma {:induction false} FirstEquityIs(records: seq<Record>)
    ensures
      var base := FirstEquity(records);
      && (base.None? ==> forall i :: 0 <= i < |records| ==> Missing(records[i].initialEquity))
      && (base.Some? ==> exists i :: IsFirst(records, i) && records[i].initialEquity == base)
  {
    if records == [] {
    } else if Missing(records[0].initialEquity) {
      var rest := records[1..];
      FirstEquityIs(rest);
      assert forall i :: 0 <= i < |rest| ==> rest[i] == records[i + 1];
      if FirstEquity(rest).Some? {
        var i :| IsFirst(rest, i) && rest[i].initialEquity == FirstEquity(rest);
        assert IsFirst(records, i + 1);
      }
    } else {
      assert IsFirst(records, 0);
    }
  }

  ghost predicate IsFirst(records: seq<Record>, i: int) {
    && 0 <= i < |records| && !Missing(records[i].initialEquity)
    && forall j :: 0 <= j < i ==> Missing(records[j].initialEquity)
  }

  lemma BaseOfReverse(recent: seq<Record>)
    ensures FirstEquity(Reverse(recent)).Some? ==>
              exists i :: IsBase(recent, i) && recent[i].initialEquity == FirstEquity(Reverse(recent))
    ensures FirstEquity(Reverse(recent)).None? ==> forall i :: !IsBase(recent, i)
  {
    var records, n := Reverse(recent), |recent| - 1;
    FirstEquityIs(records);
    ReverseLength(recent);
    forall i: nat | i < |recent|
      ensures records[i] == recent[n - i]
    {
      ReverseAt(recent, i);
    }
    hide Reverse;
    if FirstEquity(records).Some? {
      var i :| IsFirst(records, i) && records[i].initialEquity == FirstEquity(records);
      assert recent[n - i] == records[i];
      forall j | n - i < j < |recent|
        ensures recent[j].initialEquity.None? || recent[j].initialEquity.value == 0.0
      {
        assert records[n - j] == recent[j] && Missing(records[n - j].initialEquity);
      }
      assert IsBase(recent, n - i);
    } else {
      forall i: nat | i < |recent|
        ensures !IsBase(recent, i)
      {
        assert records[n - i] == recent[i] && Missing(records[n - i].initialEquity);
      }
    }
  }

  lemma OneBase(recent: seq<Record>, i: int, j: int)
    requires IsBase(recent, i) && IsBase(recent, j)
    ensures i == j
  {
  }

  /**
   Day by day the cumulative return is the cumulative result over the initial equity of
   the oldest record that has one, and missing exactly when no record has one.
   */
  lemma ReturnIsCumulativeOverFirst(recent: seq<Record>, base: int, i: nat)
    requires PayloadOf(recent).Returned? && i < |recent|
    ensures
      var p := PayloadOf(recent).value;
      && |p.history| == |recent|
      && (IsBase(recent, base) ==>
            && p.history[i].cumulativeReturn.Some?
            && p.history[i].cumulativeReturn.value * recent[base].initialEquity.value == p.history[i].cumulative)
      && (p.history[i].cumulativeReturn.None? <==> forall b :: !IsBase(recent, b))
  {
    var records := Reverse(recent);
    var first := FirstEquity(records);
    ReverseLength(recent);
    PointsMeaning(first, records);
    BaseOfReverse(recent);
    hide History, Reverse, FirstEquity, PointAt;
    PointReturns(first, records, i);
    if first.Some? {
      var b :| IsBase(recent, b) && recent[b].initialEquity == first;
      BaseIsNotZero(recent, b);
      if IsBase(recent, base) {
        OneBase(recent, base, b);
      }
    }
  }

  lemma BaseIsNotZero(recent: seq<Record>, i: int)
    requires IsBase(recent, i)
    ensures recent[i].initialEquity.value != 0.0
  {
  }

  lemma PointReturns(first: Option<real>, records: seq<Record>, i: nat)
    requires i < |records|
    ensures
      var point := PointAt(first, records, i);
      && (point.cumulativeReturn.None? <==> Missing(first))
      && (!Missing(first) ==> point.cumulativeReturn.value * first.value == point.cumulative)
  {
    if !Missing(first) {
      GrowthTimesBase(first.value, Cumulative(records[..i + 1]));
    }
    hide Cumulative, Drawdown, Peak;
  }

  lemma GrowthTimesBase(base: real, gain: real)
    requires base != 0.0
    ensures ((base + gain) / base - 1.0) * base == gain
  {
    var q := (base + gain) / base;
    assert q * base == base + gain;
  }

  ghost function Days(points: seq<Point>, wins: bool): set<int> {
    set i | 0 <= i < |points| && points[i].net.Some?
            && (if wins then points[i].net.value > 0.0 else points[i].net.value < 0.0)
  }

  lemma DaysOneMore(points: seq<Point>, wins: bool)
    requires points != []
    ensures
      var n := |points| - 1;
      var net := points[n].net;
      var counted := net.Some? && if wins then net.value > 0.0 else net.value < 0.0;
      |Days(points, wins)| == |Days(points[..n], wins)| + if counted then 1 else 0
  {
    var n := |points| - 1;
    var init := points[..n];
    var days, before := Days(points, wins), Days(init, wins);
    assert n !in before;
    assert forall i :: 0 <= i < n ==> points[i] == init[i];
    assert days == if n in days then before + {n} else before;
    assert n in days <==> points[n].net.Some? && if wins then points[n].net.value > 0.0 else points[n].net.value < 0.0;
    hide Days;
  }

  /** The day counts are the numbers of days with a gain and with a loss. */
  lemma {:induction false} DayCounts(points: seq<Point>)
    ensures Winning(points) == |Days(points, true)| && Losing(points) == |Days(points, false)|
    ensures Winning(points) + Losing(points) <= |points|
  {
    hide Days;
    if points == [] {
      NoDays();
    } else {
      DayCounts(points[..|points| - 1]);
      DaysOneMore(points, true);
      DaysOneMore(points, false);
    }
  }

  lemma NoDays()
    ensures Days([], true) == {} && Days([], false) == {}
  {
  }

  /** The daily win rate is the share of winning days among decided ones, and missing only without any. */
  lemma WinRateIsFraction(p: Payload)
    ensures p.DailyWinRate().None? <==> Winning(p.history) + Losing(p.history) == 0
    ensures
      p.DailyWinRate().Some? ==>
        && 0.0 <= p.DailyWinRate().value <= 1.0
        && p.DailyWinRate().value * ((Winning(p.history) + Losing(p.history)) as real) == Winning(p.history) as real
  {
    hide Winning, Losing;
    var w, d := Winning(p.history) as real, (Winning(p.history) + Losing(p.history)) as real;
    if d > 0.0 {
      PartOfWhole(w, d);
    }
  }

  lemma PartOfWhole(w: real, d: real)
    requires 0.0 <= w <= d && d > 0.0
    ensures 0.0 <= w / d <= 1.0 && w / d * d == w
  {
    var q := w / d;
    assert q * d == w;
    assert q < 0.0 ==> q * d < 0.0;
    assert q > 1.0 ==> (q - 1.0) * d > 0.0;
  }
}
