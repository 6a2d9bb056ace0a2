/**
 Market monitoring: in trading hours each poll asks the provider for every
 watched code and saves the completed bars newer than the latest one stored.
 */
module MarketMonitor {
  import opened Wrappers
  import opened Sorting
  import opened MarketBars

  // Instants are microseconds on the Tokyo wall clock.
  const MINUTE: int := 60_000_000
  const DAY: int := 1440 * MINUTE

  // ---- The Tokyo session ----

  datatype SessionState = Closed | PreOpen | Morning | LunchBreak | Afternoon | PostClose {
    predicate IsTrading() {
      Morning? || Afternoon?
    }
  }

  datatype Session = Session(observedAt: int, tradingDate: int, isTradingDay: bool, state: SessionState) {
    /** The check the snapshot's constructor makes. */
    predicate Accepted() {
      isTradingDay || state.Closed?
    }

    predicate IsTrading() {
      isTradingDay && state.IsTrading()
    }
  }

  function ResolveState(timeOfDay: int): SessionState {
    if timeOfDay < 540 * MINUTE then PreOpen
    else if timeOfDay < 690 * MINUTE then Morning
    else if timeOfDay < 750 * MINUTE then LunchBreak
    else if timeOfDay < 930 * MINUTE then Afternoon
    else PostClose
  }

  /** The default trading-day rule: Monday to Friday; day 0 is a Thursday. */
  predicate IsWeekday(date: int) {
    (date + 3) % 7 < 5
  }

  function CreateSession(tradingDay: int -> bool, observedAt: int): Session {
    var date := observedAt / DAY;
    Session(observedAt, date, tradingDay(date),
            if tradingDay(date) then ResolveState(observedAt % DAY) else Closed)
  }

  // ---- Stored bars ----

  type Stored = map<(string, int), StockPrice>

  ghost predicate IsLatest(stored: Stored, code: string, t: Option<int>) {
    match t
    case None => forall k :: k in stored ==> k.0 != code
    case Some(v) => (code, v) in stored && forall k :: k in stored && k.0 == code ==> k.1 <= v
  }

  ghost function MaxOf(s: set<int>): (m: int)
    requires exists x :: x in s
    ensures m in s && forall x :: x in s ==> x <= m
  {
    var y :| y in s;
    assert forall x :: x in s ==> x == y || x in s - {y};
    if exists x :: x in s - {y} then
      var m := MaxOf(s - {y});
      if m < y then y else m
    else y
  }

  /** The opening time of the newest stored bar of the code. */
  ghost function Latest(stored: Stored, code: string): (t: Option<int>)
    ensures IsLatest(stored, code, t)
  {
    var times := set k | k in stored && k.0 == code :: k.1;
    assert forall k :: k in stored && k.0 == code ==> k.1 in times;
    if exists t :: t in times then Some(MaxOf(times)) else None
  }

  lemma LatestUnique(stored: Stored, code: string, t: Option<int>, u: Option<int>)
    requires IsLatest(stored, code, t) && IsLatest(stored, code, u)
    ensures t == u
  {
  }

  function SaveAll(stored: Stored, prices: seq<StockPrice>): Stored {
    if prices == [] then stored
    else
      var last := prices[|prices| - 1];
      SaveAll(stored, prices[..|prices| - 1])[(last.code, last.time) := last]
  }

  class MarketBarRepository {
    var stored: Stored

    constructor ()
      ensures stored == map[]
    {
      stored := map[];
    }

    method LatestDatetime(code: string) returns (t: Option<int>)
      ensures t == Latest(stored, code)
    {
      t := None;
      var left := stored.Keys;
      while left != {}
        invariant left <= stored.Keys
        invariant IsLatest(map k | k in stored && k !in left :: stored[k], code, t)
        decreases |left|
      {
        var k :| k in left;
        left := left - {k};
        if k.0 == code && (t.None? || t.value < k.1) {
          t := Some(k.1);
        }
      }
      assert (map k | k in stored && k !in left :: stored[k]) == stored;
      LatestUnique(stored, code, t, Latest(stored, code));
    }

    method SavePrices(prices: seq<StockPrice>) returns (count: nat)
      modifies this
      ensures stored == SaveAll(old(stored), prices) && count == |prices|
    {
      for i := 0 to |prices|
        invariant stored == SaveAll(old(stored), prices[..i])
      {
        assert prices[..i + 1][..i] == prices[..i];
        stored := stored[(prices[i].code, prices[i].time) := prices[i]];
      }
      assert prices[..|prices|] == prices;
      count := |prices|;
    }
  }

  // ---- New completed bars of one code ----

  /** A dictionary by opening time that remembers the order of its keys. */
  datatype Bars = Bars(keys: seq<int>, values: map<int, StockPrice>) {
    function Put(t: int, p: StockPrice): Bars {
      Bars(if t in values then keys else keys + [t], values[t := p])
    }

    ghost predicate Valid() {
      && (forall t :: t in keys <==> t in values)
      && (forall i, j :: 0 <= i < j < |keys| ==> keys[i] != keys[j])
    }
  }

  const WRONG_CODE := "the provider returned a bar of another code"

  predicate IsNew(p: StockPrice, observedAt: int, latest: Option<int>, interval: int) {
    p.time + interval <= observedAt && (latest.Some? ==> latest.value < p.time)
  }

  function Collect(prices: seq<StockPrice>, code: string, observedAt: int, latest: Option<int>, interval: int)
    : Outcome<Bars, string>
  {
    if prices == [] then Returned(Bars([], map[]))
    else
      var init, last := Collect(prices[..|prices| - 1], code, observedAt, latest, interval), prices[|prices| - 1];
      if init.Raised? then init
      else if last.code != code then Raised(WRONG_CODE)
      else if IsNew(last, observedAt, latest, interval) then Returned(init.value.Put(last.time, last))
      else init
  }

  function Listed(bars: Bars): seq<StockPrice> {
    ValuesAt(bars.values, Sort(bars.keys, IntLeq))
  }

  function ValuesAt(values: map<int, StockPrice>, times: seq<int>): seq<StockPrice> {
    if times == [] then []
    else if times[0] in values then [values[times[0]]] + ValuesAt(values, times[1..])
    else ValuesAt(values, times[1..])
  }

  // ---- Codes ----

  const NO_CODES := "at least one code is needed"
  const BAD_CODE := "a code is four or five digits"

  /** The stripped codes, without repetitions; all of them must be valid. */
  function NormalizeCodes(codes: seq<string>): Outcome<seq<string>, string> {
    var r := NormalizeList(codes);
    if r.Returned? && r.value == [] then Raised(NO_CODES) else r
  }

  function NormalizeList(codes: seq<string>): Outcome<seq<string>, string> {
    if codes == [] then Returned([])
    else
      var init, last := NormalizeList(codes[..|codes| - 1]), NormalizeCode(codes[|codes| - 1]);
      if init.Raised? then init
      else if last.None? then Raised(BAD_CODE)
      else if last.value in init.value then init
      else Returned(init.value + [last.value])
  }

  // ---- One poll ----

  type Provider = (string, int) -> Outcome<seq<StockPrice>, string>

  datatype PollDecision = IdleNonTradingDay | IdleOutsideMarketHours | NoNewBar | NewBarsSaved

  datatype PollResult = PollResult(
    session: Session, decision: PollDecision, codeCount: nat, fetchedCount: nat, newCount: nat,
    savedCount: nat, newBars: seq<StockPrice>)
  {
    /** The checks the result's constructor makes. */
    predicate Accepted() {
      && newCount == |newBars|
      && savedCount <= newCount
      && (decision.NewBarsSaved? <==> savedCount > 0)
    }
  }

  const BAD_RESULT := "the counts of the result do not agree"

  /** What the monitor is set up with. */
  datatype Setup = Setup(interval: int, tradingDay: int -> bool)

  datatype Gathered = Gathered(fetched: nat, newBars: seq<StockPrice>)

  /** The provider's answer for one code, and the bars it brings. */
  ghost function Fetch(stored: Stored, interval: int, code: string, session: Session, provider: Provider)
    : Outcome<Gathered, string>
  {
    var answer := provider(code, session.tradingDate);
    if answer.Raised? then Raised(answer.fault)
    else
      var bars := Collect(answer.value, code, session.observedAt, Latest(stored, code), interval);
      if bars.Raised? then Raised(bars.fault)
      else Returned(Gathered(|answer.value|, Listed(bars.value)))
  }

  function Both(a: Outcome<Gathered, string>, b: Outcome<Gathered, string>): Outcome<Gathered, string> {
    if a.Raised? then a
    else if b.Raised? then b
    else Returned(Gathered(a.value.fetched + b.value.fetched, a.value.newBars + b.value.newBars))
  }

  /** The codes are fetched in turn; any raise ends the poll. */
  ghost function Gather(stored: Stored, interval: int, codes: seq<string>, session: Session, provider: Provider)
    : Outcome<Gathered, string>
  {
    if codes == [] then Returned(Gathered(0, []))
    else
      Both(Gather(stored, interval, codes[..|codes| - 1], session, provider),
           Fetch(stored, interval, codes[|codes| - 1], session, provider))
  }

  ghost function PollRun(setup: Setup, stored: Stored, codes: seq<string>, observedAt: int, provider: Provider)
    : (Stored, Outcome<PollResult, string>)
  {
    var normalized := NormalizeCodes(codes);
    if normalized.Raised? then (stored, Raised(normalized.fault))
    else
      var session, n := CreateSession(setup.tradingDay, observedAt), |normalized.value|;
      if !session.isTradingDay then (stored, Returned(PollResult(session, IdleNonTradingDay, n, 0, 0, 0, [])))
      else if !session.IsTrading() then
        (stored, Returned(PollResult(session, IdleOutsideMarketHours, n, 0, 0, 0, [])))
      else
        var gathered := Gather(stored, setup.interval, normalized.value, session, provider);
        if gathered.Raised? then (stored, Raised(gathered.fault))
        else
          var bars := Sort(gathered.value.newBars, PriceLeq);
          (SaveAll(stored, bars),
           Returned(PollResult(session, if bars == [] then NoNewBar else NewBarsSaved, n,
                               gathered.value.fetched, |bars|, |bars|, bars)))
  }

  class RealtimeMarketMonitor {
    const repository: MarketBarRepository
    const setup: Setup

    constructor (repository: MarketBarRepository, setup: Setup)
      requires setup.interval > 0
      ensures this.repository == repository && this.setup == setup
    {
      this.repository, this.setup := repository, setup;
    }

    method Poll(codes: seq<string>, observedAt: int, provider: Provider)
      returns (r: Outcome<PollResult, string>)
      modifies repository
      ensures (repository.stored, r) == PollRun(setup, old(repository.stored), codes, observedAt, provider)
    {
      var normalized := NormalizeAll(codes);
      if normalized.Raised? {
        return Raised(normalized.fault);
      }
      var session, n := CreateSession(setup.tradingDay, observedAt), |normalized.value|;
      if !session.isTradingDay {
        return Returned(PollResult(session, IdleNonTradingDay, n, 0, 0, 0, []));
      }
      if !session.IsTrading() {
        return Returned(PollResult(session, IdleOutsideMarketHours, n, 0, 0, 0, []));
      }
      var gathered := GatherAll(normalized.value, session, provider);
      if gathered.Raised? {
        return Raised(gathered.fault);
      }
      var bars := Sort(gathered.value.newBars, PriceLeq);
      if bars == [] {
        return Returned(PollResult(session, NoNewBar, n, gathered.value.fetched, 0, 0, []));
      }
      var saved := repository.SavePrices(bars);
      var result := PollResult(session, NewBarsSaved, n, gathered.value.fetched, |bars|, saved, bars);
      r := if result.Accepted() then Returned(result) else Raised(BAD_RESULT);
    }

    method GatherAll(codes: seq<string>, session: Session, provider: Provider)
      returns (r: Outcome<Gathered, string>)
      ensures r == Gather(repository.stored, setup.interval, codes, session, provider)
    {
      r := Returned(Gathered(0, []));
      for i := 0 to |codes|
        invariant r == Gather(repository.stored, setup.interval, codes[..i], session, provider)
        invariant r.Returned?
      {
        assert codes[..i + 1][..i] == codes[..i];
        var next := FetchOne(codes[i], session, provider);
        r := Both(r, next);
        if next.Raised? {
          GatherEndsAtRaise(repository.stored, setup.interval, codes, session, provider, i + 1);
          return;
        }
      }
      assert codes[..|codes|] == codes;
    }

    method FetchOne(code: string, session: Session, provider: Provider) returns (r: Outcome<Gathered, string>)
      ensures r == Fetch(repository.stored, setup.interval, code, session, provider)
    {
      var answer := provider(code, session.tradingDate);
      if answer.Raised? {
        return Raised(answer.fault);
      }
      var latest := repository.LatestDatetime(code);
      var bars := NewCompletedBars(answer.value, code, session.observedAt, latest);
      if bars.Raised? {
        return Raised(bars.fault);
      }
      r := Returned(Gathered(|answer.value|, Listed(bars.value)));
    }

    method NewCompletedBars(prices: seq<StockPrice>, code: string, observedAt: int, latest: Option<int>)
      returns (r: Outcome<Bars, string>)
      ensures r == Collect(prices, code, observedAt, latest, setup.interval)
    {
      var unique := Bars([], map[]);
      for i := 0 to |prices|
        invariant Collect(prices[..i], code, observedAt, latest, setup.interval) == Returned(unique)
      {
        assert prices[..i + 1][..i] == prices[..i];
        var p := prices[i];
        if p.code != code {
          r := Raised(WRONG_CODE);
          CollectEndsAtRaise(prices, code, observedAt, latest, setup.interval, i + 1);
          return;
        }
        var closedAt := p.time + setup.interval;
        if closedAt <= observedAt && !(latest.Some? && p.time <= latest.value) {
          unique := unique.Put(p.time, p);
        }
      }
      assert prices[..|prices|] == prices;
      r := Returned(unique);
    }
  }

  method NormalizeAll(codes: seq<string>) returns (r: Outcome<seq<string>, string>)
    ensures r == NormalizeCodes(codes)
  {
    var normalized: seq<string> := [];
    for i := 0 to |codes|
      invariant NormalizeList(codes[..i]) == Returned(normalized)
    {
      assert codes[..i + 1][..i] == codes[..i];
      var value := NormalizeCode(codes[i]);
      if value.None? {
        NormalizeEndsAtRaise(codes, i + 1);
        return Raised(BAD_CODE);
      }
      if value.value !in normalized {
        normalized := normalized + [value.value];
      }
    }
    assert codes[..|codes|] == codes;
    r := if normalized == [] then Raised(NO_CODES) else Returned(normalized);
  }

  lemma {:induction false} NormalizeEndsAtRaise(codes: seq<string>, i: nat)
    requires i <= |codes| && NormalizeList(codes[..i]).Raised?
    ensures NormalizeList(codes) == NormalizeList(codes[..i])
  {
    if i < |codes| {
      assert codes[..|codes| - 1][..i] == codes[..i];
      NormalizeEndsAtRaise(codes[..|codes| - 1], i);
    } else {
      assert codes[..i] == codes;
    }
  }

  lemma {:induction false} CollectEndsAtRaise(
    prices: seq<StockPrice>, code: string, observedAt: int, latest: Option<int>, interval: int, i: nat)
    requires i <= |prices| && Collect(prices[..i], code, observedAt, latest, interval).Raised?
    ensures Collect(prices, code, observedAt, latest, interval) ==
            Collect(prices[..i], code, observedAt, latest, interval)
  {
    if i < |prices| {
      assert prices[..|prices| - 1][..i] == prices[..i];
      CollectEndsAtRaise(prices[..|prices| - 1], code, observedAt, latest, interval, i);
    } else {
      assert prices[..i] == prices;
    }
  }

  lemma {:induction false} GatherEndsAtRaise(
    stored: Stored, interval: int, codes: seq<string>, session: Session, provider: Provider, i: nat)
    requires i <= |codes| && Gather(stored, interval, codes[..i], session, provider).Raised?
    ensures Gather(stored, interval, codes, session, provider) ==
            Gather(stored, interval, codes[..i], session, provider)
  {
    if i < |codes| {
      assert codes[..|codes| - 1][..i] == codes[..i];
      GatherEndsAtRaise(stored, interval, codes[..|codes| - 1], session, provider, i);
    } else {
      assert codes[..i] == codes;
    }
  }
}
