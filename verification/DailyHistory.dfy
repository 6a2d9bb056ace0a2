/** The dashboard's daily history: cumulative result, return, and drawdown from a running peak. */
module DailyHistory {
  import opened Wrappers

  datatype Record = Record(
    date: int, initialEquity: Option<real>, finalEquity: Option<real>, net: Option<real>, returnRate: Option<real>)

  datatype Point = Point(
    date: int, net: Option<real>, equity: Option<real>, returnRate: Option<real>,
    cumulative: real, cumulativeReturn: Option<real>, drawdown: Option<real>)
  {
    /** The check the point's constructor makes. */
    predicate Accepted() {
      drawdown.Some? ==> 0.0 <= drawdown.value
    }
  }

  const NEGATIVE_DRAWDOWN := "the drawdown must not be negative"

  function OrZero(x: Option<real>): real {
    if x.None? then 0.0 else x.value
  }

  predicate Missing(x: Option<real>) {
    x.None? || x.value == 0.0
  }

  /** The first initial equity that is known and not zero. */
  function FirstEquity(records: seq<Record>): Option<real> {
    if records == [] then None
    else if Missing(records[0].initialEquity) then FirstEquity(records[1..])
    else records[0].initialEquity
  }

  function Cumulative(records: seq<Record>): real {
    if records == [] then 0.0 else Cumulative(records[..|records| - 1]) + OrZero(records[|records| - 1].net)
  }

  function Raise(peak: Option<real>, equity: Option<real>): Option<real> {
    if equity.None? then peak
    else if peak.None? then equity
    else Some(if peak.value < equity.value then equity.value else peak.value)
  }

  /** The largest final equity so far. */
  function Peak(records: seq<Record>): Option<real> {
    if records == [] then None else Raise(Peak(records[..|records| - 1]), records[|records| - 1].finalEquity)
  }

  function Drawdown(peak: Option<real>, equity: Option<real>): Option<real> {
    if equity.None? || Missing(peak) then None else Some((peak.value - equity.value) / peak.value)
  }

  function PointOf(first: Option<real>, record: Record, cumulative: real, peak: Option<real>): Point {
    Point(record.date, record.net, record.finalEquity, record.returnRate, cumulative,
          if Missing(first) then None else Some((first.value + cumulative) / first.value - 1.0),
          Drawdown(peak, record.finalEquity))
  }

  /** The point of the last record, given all records up to it. */
  function LastPoint(first: Option<real>, records: seq<Record>): Point
    requires records != []
  {
    PointOf(first, records[|records| - 1], Cumulative(records), Peak(records))
  }

  function History(first: Option<real>, records: seq<Record>): Outcome<seq<Point>, string> {
    if records == [] then Returned([])
    else
      match History(first, records[..|records| - 1])
      case Raised(e) => Raised(e)
      case Returned(points) =>
        if LastPoint(first, records).Accepted() then Returned(points + [LastPoint(first, records)])
        else Raised(NEGATIVE_DRAWDOWN)
  }

  function Reverse(records: seq<Record>): seq<Record> {
    if records == [] then [] else Reverse(records[1..]) + [records[0]]
  }

  datatype Payload = Payload(history: seq<Point>, cumulative: real) {
    function MaximumDrawdown(): Option<real> {
      Worst(history)
    }

    function DailyWinRate(): Option<real> {
      var decided := Winning(history) + Losing(history);
      if decided == 0 then None else Some(Winning(history) as real / decided as real)
    }
  }

  function Worst(points: seq<Point>): Option<real> {
    if points == [] then None else Raise(Worst(points[..|points| - 1]), points[|points| - 1].drawdown)
  }

  function Winning(points: seq<Point>): nat {
    if points == [] then 0
    else
      var net := points[|points| - 1].net;
      Winning(points[..|points| - 1]) + if net.Some? && net.value > 0.0 then 1 else 0
  }

  function Losing(points: seq<Point>): nat {
    if points == [] then 0
    else
      var net := points[|points| - 1].net;
      Losing(points[..|points| - 1]) + if net.Some? && net.value < 0.0 then 1 else 0
  }

  function PayloadOf(recent: seq<Record>): Outcome<Payload, string> {
    var records := Reverse(recent);
    match History(FirstEquity(records), records)
    case Raised(e) => Raised(e)
    case Returned(points) => Returned(Payload(points, Cumulative(records)))
  }

  class DashboardWebService {
    constructor () {}

    /** The payload of the repository's records, which come newest first. */
    method CreatePayload(recent: seq<Record>) returns (r: Outcome<Payload, string>)
      ensures r == PayloadOf(recent)
    {
      var records := Reverse(recent);
      var history := CreateDailyHistory(records);
      if history.Raised? {
        return Raised(history.fault);
      }
      r := Returned(Payload(history.value, Cumulative(records)));
    }

    /** One pass over the records in chronological order. */
    method CreateDailyHistory(records: seq<Record>) returns (r: Outcome<seq<Point>, string>)
      ensures r == History(FirstEquity(records), records)
    {
      var first := FirstEquity(records);
      var cumulative := 0.0;
      var peak: Option<real> := None;
      var points := [];
      var i := 0;
      while i < |records|
        invariant 0 <= i <= |records|
        invariant cumulative == Cumulative(records[..i])
        invariant peak == Peak(records[..i])
        invariant History(first, records[..i]) == Returned(points)
      {
        assert records[..i + 1][..i] == records[..i];
        var record := records[i];
        cumulative := cumulative + OrZero(record.net);
        var equity := record.finalEquity;
        if equity.Some? {
          peak := if peak.None? || peak.value < equity.value then equity else peak;
        }
        var point := PointOf(first, record, cumulative, peak);
        if !point.Accepted() {
          HistoryStays(first, records, i + 1);
          return Raised(NEGATIVE_DRAWDOWN);
        }
        points := points + [point];
        i := i + 1;
      }
      assert records[..i] == records;
      r := Returned(points);
    }
  }

  /** Once a point is refused, later records change nothing. */
  lemma {:induction false} HistoryStays(first: Option<real>, records: seq<Record>, k: nat)
    requires k <= |records| && History(first, records[..k]).Raised?
    ensures History(first, records) == History(first, records[..k])
  {
    if k == |records| {
      assert records[..k] == records;
    } else {
      assert records[..|records| - 1][..k] == records[..k];
      HistoryStays(first, records[..|records| - 1], k);
    }
  }
}
