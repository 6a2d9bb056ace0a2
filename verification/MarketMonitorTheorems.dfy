/**
 What a poll saves, when it raises, and that polling again and again collects
 exactly the completed bars the provider has shown.
 */
module MarketMonitorTheorems {
  import opened Wrappers
  import opened Text
  import opened Sorting
  import opened MarketBars
  import opened MarketMonitor

  // ---- The completed bars in a provider's answer ----

  /** By opening time; of several bars with one opening time the last counts. */
  function Completed(prices: seq<StockPrice>, observedAt: int, interval: int): map<int, StockPrice> {
    if prices == [] then map[]
    else
      var init, last := Completed(prices[..|prices| - 1], observedAt, interval), prices[|prices| - 1];
      if last.time + interval <= observedAt then init[last.time := last] else init
  }

  function NewerThan(m: map<int, StockPrice>, w: Option<int>): map<int, StockPrice> {
    map t | t in m && (w.Some? ==> w.value < t) :: m[t]
  }

  ghost predicate AllOf(prices: seq<StockPrice>, code: string) {
    forall p :: p in prices ==> p.code == code
  }

  lemma {:induction false} CollectMeaning(
    prices: seq<StockPrice>, code: string, observedAt: int, latest: Option<int>, interval: int)
    ensures
      var r := Collect(prices, code, observedAt, latest, interval);
      && (r.Returned? <==> AllOf(prices, code))
      && (r.Returned? ==>
            r.value.Valid() && r.value.values == NewerThan(Completed(prices, observedAt, interval), latest))
  {
    if prices == [] {
    } else {
      var init, last := prices[..|prices| - 1], prices[|prices| - 1];
      CollectMeaning(init, code, observedAt, latest, interval);
      assert AllOf(prices, code) <==> AllOf(init, code) && last.code == code by {
        assert forall p :: p in prices <==> p in init || p == last;
      }
      hide AllOf;
      NewerThanPut(Completed(init, observedAt, interval), last, latest);
    }
  }

  lemma NewerThanPut(m: map<int, StockPrice>, p: StockPrice, w: Option<int>)
    ensures NewerThan(m[p.time := p], w) ==
            if w.Some? && p.time <= w.value then NewerThan(m, w) else NewerThan(m, w)[p.time := p]
  {
  }

  ghost predicate KeyedBy(m: map<int, StockPrice>, code: string) {
    forall t :: t in m ==> m[t].time == t && m[t].code == code
  }

  lemma {:induction false} CompletedKeyed(prices: seq<StockPrice>, code: string, observedAt: int, interval: int)
    requires AllOf(prices, code)
    ensures KeyedBy(Completed(prices, observedAt, interval), code)
  {
    if prices == [] {
    } else {
      assert forall p :: p in prices[..|prices| - 1] ==> p in prices;
      CompletedKeyed(prices[..|prices| - 1], code, observedAt, interval);
    }
  }

  lemma {:induction false} ValuesAtMeaning(values: map<int, StockPrice>, times: seq<int>, code: string)
    requires KeyedBy(values, code) && NoDuplicates(times)
    requires forall t :: t in times ==> t in values
    ensures forall p :: p in ValuesAt(values, times) <==> p.time in times && p == values[p.time]
    ensures NoDuplicates(ValuesAt(values, times))
  {
    if times == [] {
    } else {
      ValuesAtMeaning(values, times[1..], code);
      assert forall t :: t in times <==> t == times[0] || t in times[1..];
    }
  }

  /** The listing of a dictionary is its values, once each. */
  lemma ListedMeaning(bars: Bars, code: string)
    requires bars.Valid() && KeyedBy(bars.values, code)
    ensures forall p :: p in Listed(bars) <==> p.time in bars.values && p == bars.values[p.time]
    ensures NoDuplicates(Listed(bars))
  {
    SortNoDuplicates(bars.keys, IntLeq);
    SortMembers(bars.keys, IntLeq);
    ValuesAtMeaning(bars.values, Sort(bars.keys, IntLeq), code);
  }

  // ---- Codes ----

  lemma {:induction false} NormalizedCodes(codes: seq<string>)
    requires NormalizeList(codes).Returned?
    ensures NoDuplicates(NormalizeList(codes).value)
    ensures forall c :: c in NormalizeList(codes).value ==> NormalizeCode(c) == Some(c)
    ensures forall c :: c in NormalizeList(codes).value <==> exists raw :: raw in codes && NormalizeCode(raw) == Some(c)
  {
    if codes == [] {
    } else {
      var init, last := codes[..|codes| - 1], codes[|codes| - 1];
      NormalizedCodes(init);
      StripIsIdempotent(last);
      assert forall raw :: raw in codes <==> raw in init || raw == last;
    }
  }

  // ---- What one poll brings ----

  /** What the provider shows of a code, as completed bars. */
  function Shown(setup: Setup, code: string, observedAt: int, provider: Provider): map<int, StockPrice> {
    var answer := provider(code, observedAt / DAY);
    if answer.Raised? then map[] else Completed(answer.value, observedAt, setup.interval)
  }

  ghost predicate Answers(code: string, observedAt: int, provider: Provider) {
    provider(code, observedAt / DAY).Returned? && AllOf(provider(code, observedAt / DAY).value, code)
  }

  ghost function Incoming(setup: Setup, stored: Stored, code: string, observedAt: int, provider: Provider)
    : map<int, StockPrice>
  {
    NewerThan(Shown(setup, code, observedAt, provider), Latest(stored, code))
  }

  lemma FetchMeaning(setup: Setup, stored: Stored, code: string, session: Session, provider: Provider)
    requires session.tradingDate == session.observedAt / DAY
    ensures
      var r := Fetch(stored, setup.interval, code, session, provider);
      var incoming := Incoming(setup, stored, code, session.observedAt, provider);
      && (r.Returned? <==> Answers(code, session.observedAt, provider))
      && (r.Returned? ==>
            && KeyedBy(incoming, code)
            && NoDuplicates(r.value.newBars)
            && forall p :: p in r.value.newBars <==> p.time in incoming && p == incoming[p.time])
  {
    var answer := provider(code, session.tradingDate);
    if answer.Returned? {
      CollectMeaning(answer.value, code, session.observedAt, Latest(stored, code), setup.interval);
      if AllOf(answer.value, code) {
        CompletedKeyed(answer.value, code, session.observedAt, setup.interval);
        ListedMeaning(
          Collect(answer.value, code, session.observedAt, Latest(stored, code), setup.interval).value, code);
      }
    }
  }

  ghost predicate Brings(
    setup: Setup, stored: Stored, codes: seq<string>, observedAt: int, provider: Provider, p: StockPrice)
  {
    && p.code in codes
    && var incoming := Incoming(setup, stored, p.code, observedAt, provider);
    && p.time in incoming && p == incoming[p.time]
  }

  lemma {:induction false} GatherReturns(
    setup: Setup, stored: Stored, codes: seq<string>, session: Session, provider: Provider)
    requires session.tradingDate == session.observedAt / DAY
    ensures Gather(stored, setup.interval, codes, session, provider).Returned? <==>
            forall c :: c in codes ==> Answers(c, session.observedAt, provider)
  {
    if codes == [] {
    } else {
      var init, last := codes[..|codes| - 1], codes[|codes| - 1];
      GatherReturns(setup, stored, init, session, provider);
      FetchMeaning(setup, stored, last, session, provider);
      assert forall c :: c in codes <==> c in init || c == last;
    }
  }

  lemma {:induction false} GatherMeaning(
    setup: Setup, stored: Stored, codes: seq<string>, session: Session, provider: Provider)
    requires session.tradingDate == session.observedAt / DAY && NoDuplicates(codes)
    requires Gather(stored, setup.interval, codes, session, provider).Returned?
    ensures
      var bars := Gather(stored, setup.interval, codes, session, provider).value.newBars;
      && NoDuplicates(bars)
      && forall p :: p in bars <==> Brings(setup, stored, codes, session.observedAt, provider, p)
  {
    if codes == [] {
    } else {
      var init, last := codes[..|codes| - 1], codes[|codes| - 1];
      GatherMeaning(setup, stored, init, session, provider);
      FetchMeaning(setup, stored, last, session, provider);
      var a := Gather(stored, setup.interval, init, session, provider).value.newBars;
      var b := Fetch(stored, setup.interval, last, session, provider).value.newBars;
      assert last !in init;
      NoDuplicatesConcat(a, b);
      forall p
        ensures p in a + b <==> Brings(setup, stored, codes, session.observedAt, provider, p)
      {
        assert p.code in codes <==> p.code in init || p.code == last;
      }
    }
  }

  // ---- Trading hours ----

  const HOUR: int := 3_600_000_000

  /** A trading day's date, at a time from 9:00 to 11:30 or from 12:30 to 15:30, each end excluded. */
  predicate TradingHours(tradingDay: int -> bool, at: int) {
    var time := at % (24 * HOUR);
    tradingDay(at / (24 * HOUR)) &&
    (9 * HOUR <= time < 11 * HOUR + HOUR / 2 || 12 * HOUR + HOUR / 2 <= time < 15 * HOUR + HOUR / 2)
  }

  /** The session of an instant: its date, whether that is a trading day, and if so the part of the day. */
  lemma SessionMeaning(tradingDay: int -> bool, at: int)
    ensures
      var session, time := CreateSession(tradingDay, at), at % (24 * HOUR);
      && session.observedAt == at && session.tradingDate == at / (24 * HOUR)
      && (session.isTradingDay <==> tradingDay(at / (24 * HOUR)))
      && (session.IsTrading() <==> TradingHours(tradingDay, at))
      && (session.state.Closed? <==> !session.isTradingDay)
      && (session.isTradingDay ==>
            && (session.state.PreOpen? <==> time < 9 * HOUR)
            && (session.state.Morning? <==> 9 * HOUR <= time < 11 * HOUR + HOUR / 2)
            && (session.state.LunchBreak? <==> 11 * HOUR + HOUR / 2 <= time < 12 * HOUR + HOUR / 2)
            && (session.state.Afternoon? <==> 12 * HOUR + HOUR / 2 <= time < 15 * HOUR + HOUR / 2)
            && (session.state.PostClose? <==> 15 * HOUR + HOUR / 2 <= time))
  {
  }

  // ---- What one poll saves ----

  ghost predicate Polls(setup: Setup, codes: seq<string>, observedAt: int, provider: Provider) {
    && NormalizeCodes(codes).Returned?
    && TradingHours(setup.tradingDay, observedAt)
    && forall c :: c in NormalizeCodes(codes).value ==> Answers(c, observedAt, provider)
  }

  /**
   A poll raises exactly when the codes are bad or, in trading hours, some code
   gets no answer or an answer with a bar of another code; raising or idling, it
   saves nothing.
   */
  lemma PollRaisesExactly(setup: Setup, stored: Stored, codes: seq<string>, observedAt: int, provider: Provider)
    ensures
      var (after, r) := PollRun(setup, stored, codes, observedAt, provider);
      && (r.Raised? <==>
            || NormalizeCodes(codes).Raised?
            || (TradingHours(setup.tradingDay, observedAt) && !Polls(setup, codes, observedAt, provider)))
      && (!Polls(setup, codes, observedAt, provider) ==> after == stored)
      && (r.Returned? && !Polls(setup, codes, observedAt, provider) ==> r.value.newBars == [])
      && (r.Returned? ==> r.value.Accepted() && r.value.session.Accepted())
  {
    if NormalizeCodes(codes).Returned? {
      var session := CreateSession(setup.tradingDay, observedAt);
      SessionMeaning(setup.tradingDay, observedAt);
      GatherReturns(setup, stored, NormalizeCodes(codes).value, session, provider);
      hide CreateSession, TradingHours;
    }
  }

  /** How many bars the provider's answers for the codes hold. */
  function TotalAnswered(codes: seq<string>, day: int, provider: Provider): nat {
    if codes == [] then 0
    else
      var answer := provider(codes[|codes| - 1], day);
      TotalAnswered(codes[..|codes| - 1], day, provider) + if answer.Raised? then 0 else |answer.value|
  }

  lemma {:induction false} GatherFetches(
    stored: Stored, interval: int, codes: seq<string>, session: Session, provider: Provider)
    requires Gather(stored, interval, codes, session, provider).Returned?
    ensures Gather(stored, interval, codes, session, provider).value.fetched ==
            TotalAnswered(codes, session.tradingDate, provider)
  {
    if codes == [] {
    } else {
      GatherFetches(stored, interval, codes[..|codes| - 1], session, provider);
    }
  }

  /**
   What a poll that returns decides and counts: idle on other days than trading days,
   idle outside trading hours, and otherwise by whether there are new bars; only in
   trading hours anything is fetched.
   */
  lemma PollDecidesExactly(setup: Setup, stored: Stored, codes: seq<string>, observedAt: int, provider: Provider)
    requires PollRun(setup, stored, codes, observedAt, provider).1.Returned?
    ensures
      var r := PollRun(setup, stored, codes, observedAt, provider).1.value;
      var date, watched := observedAt / (24 * HOUR), NormalizeCodes(codes).value;
      var trading := TradingHours(setup.tradingDay, observedAt);
      && r.session.observedAt == observedAt && r.session.tradingDate == date
      && (r.session.isTradingDay <==> setup.tradingDay(date))
      && (r.decision.IdleNonTradingDay? <==> !setup.tradingDay(date))
      && (r.decision.IdleOutsideMarketHours? <==> setup.tradingDay(date) && !trading)
      && (r.decision.NoNewBar? <==> trading && r.newBars == [])
      && (r.decision.NewBarsSaved? <==> trading && r.newBars != [])
      && r.codeCount == |watched|
      && r.fetchedCount == (if trading then TotalAnswered(watched, date, provider) else 0)
      && r.newCount == |r.newBars| == r.savedCount
  {
    SessionMeaning(setup.tradingDay, observedAt);
    PollRaisesExactly(setup, stored, codes, observedAt, provider);
    var session := CreateSession(setup.tradingDay, observedAt);
    if session.IsTrading() {
      GatherFetches(stored, setup.interval, NormalizeCodes(codes).value, session, provider);
    }
    hide CreateSession, TradingHours, Gather, Polls;
  }

  ghost function StoredFor(stored: Stored, code: string): map<int, StockPrice> {
    var times := set k | k in stored && k.0 == code :: k.1;
    map t | t in times && (code, t) in stored :: stored[(code, t)]
  }

  lemma StoredForMeaning(stored: Stored, code: string)
    ensures forall t :: t in StoredFor(stored, code) <==> (code, t) in stored
    ensures forall t :: t in StoredFor(stored, code) ==> StoredFor(stored, code)[t] == stored[(code, t)]
  {
    var times := set k | k in stored && k.0 == code :: k.1;
    forall t | (code, t) in stored
      ensures t in times
    {
      assert (code, t).1 == t;
    }
  }

  /** A bar of the code at `t` or later is stored: the watermark has reached `t`. */
  ghost predicate Reached(stored: Stored, c: string, t: int) {
    Latest(stored, c).Some? && t <= Latest(stored, c).value
  }

  ghost predicate KeysDistinct(prices: seq<StockPrice>) {
    forall p, q :: p in prices && q in prices && p.code == q.code && p.time == q.time ==> p == q
  }

  lemma {:induction false} SaveAllMeaning(stored: Stored, prices: seq<StockPrice>, k: (string, int))
    requires KeysDistinct(prices)
    ensures k in SaveAll(stored, prices) <==> k in stored || exists p :: p in prices && (p.code, p.time) == k
    ensures forall p :: p in prices && (p.code, p.time) == k ==> SaveAll(stored, prices)[k] == p
    ensures k in stored && (forall p :: p in prices ==> (p.code, p.time) != k) ==>
              SaveAll(stored, prices)[k] == stored[k]
  {
    if prices == [] {
    } else {
      var init, last := prices[..|prices| - 1], prices[|prices| - 1];
      SaveAllMeaning(stored, init, k);
      assert forall p :: p in prices <==> p in init || p == last;
    }
  }

  /**
   A poll that goes through brings exactly the completed bars newer than the
   latest stored one of each watched code, strictly ordered by time and code,
   and adds exactly those to the store.
   */
  lemma PollSavesExactly(setup: Setup, stored: Stored, codes: seq<string>, observedAt: int, provider: Provider)
    requires Polls(setup, codes, observedAt, provider)
    ensures
      var (after, r) := PollRun(setup, stored, codes, observedAt, provider);
      && r.Returned?
      && StrictlyOrdered(r.value.newBars, PriceLeq)
      && (forall p :: p in r.value.newBars <==>
                      Brings(setup, stored, NormalizeCodes(codes).value, observedAt, provider, p))
      && forall c :: StoredFor(after, c) ==
          if c in NormalizeCodes(codes).value
          then StoredFor(stored, c) + Incoming(setup, stored, c, observedAt, provider)
          else StoredFor(stored, c)
  {
    var watched := NormalizeCodes(codes).value;
    var session := CreateSession(setup.tradingDay, observedAt);
    SessionMeaning(setup.tradingDay, observedAt);
    hide CreateSession, TradingHours;
    NormalizedCodes(codes);
    GatherReturns(setup, stored, watched, session, provider);
    GatherMeaning(setup, stored, watched, session, provider);
    var bars := Gather(stored, setup.interval, watched, session, provider).value.newBars;
    SortsStrictly(bars);
    SortMembers(bars, PriceLeq);
    forall c
      ensures StoredFor(SaveAll(stored, Sort(bars, PriceLeq)), c) ==
              if c in watched
              then StoredFor(stored, c) + Incoming(setup, stored, c, observedAt, provider)
              else StoredFor(stored, c)
    {
      if c in watched {
        FetchMeaning(setup, stored, c, session, provider);
        SavedFor(setup, stored, watched, observedAt, provider, Sort(bars, PriceLeq), c);
      } else {
        SavedForOther(stored, Sort(bars, PriceLeq), c);
      }
    }
  }

  /** The new bars of a poll are listed by time, and those of one time by code in dictionary order. */
  lemma PollListsInOrder(setup: Setup, stored: Stored, codes: seq<string>, observedAt: int, provider: Provider)
    requires PollRun(setup, stored, codes, observedAt, provider).1.Returned?
    ensures
      var bars := PollRun(setup, stored, codes, observedAt, provider).1.value.newBars;
      forall i, j :: 0 <= i < j < |bars| ==>
        || bars[i].time < bars[j].time
        || (bars[i].time == bars[j].time && bars[i].code != bars[j].code && LexLeq(bars[i].code, bars[j].code))
  {
    PollRaisesExactly(setup, stored, codes, observedAt, provider);
    if Polls(setup, codes, observedAt, provider) {
      PollSavesExactly(setup, stored, codes, observedAt, provider);
      LexIsTotalOrder();
      hide PollRun, Polls, Brings, StoredFor;
      var bars := PollRun(setup, stored, codes, observedAt, provider).1.value.newBars;
      assert forall i, j :: 0 <= i < j < |bars| ==> PriceLeq(bars[i], bars[j]) && !PriceLeq(bars[j], bars[i]);
    }
  }

  lemma SortsStrictly(bars: seq<StockPrice>)
    requires NoDuplicates(bars) && KeysDistinct(bars)
    ensures StrictlyOrdered(Sort(bars, PriceLeq), PriceLeq) && KeysDistinct(Sort(bars, PriceLeq))
  {
    var sorted := Sort(bars, PriceLeq);
    PriceOrder();
    LexIsTotalOrder();
    SortOrdered(bars, PriceLeq);
    SortNoDuplicates(bars, PriceLeq);
    SortMembers(bars, PriceLeq);
    forall i, j | 0 <= i < j < |sorted|
      ensures PriceLeq(sorted[i], sorted[j]) && !PriceLeq(sorted[j], sorted[i])
    {
      assert sorted[i] in bars && sorted[j] in bars;
    }
  }

  lemma SavedFor(
    setup: Setup, stored: Stored, watched: seq<string>, observedAt: int, provider: Provider,
    bars: seq<StockPrice>, c: string)
    requires c in watched && KeysDistinct(bars)
    requires KeyedBy(Incoming(setup, stored, c, observedAt, provider), c)
    requires forall p :: p in bars <==> Brings(setup, stored, watched, observedAt, provider, p)
    ensures StoredFor(SaveAll(stored, bars), c) ==
            StoredFor(stored, c) + Incoming(setup, stored, c, observedAt, provider)
  {
    hide SaveAll, StoredFor, Incoming, KeysDistinct, Brings;
    var after, incoming := SaveAll(stored, bars), Incoming(setup, stored, c, observedAt, provider);
    forall t
      ensures t in StoredFor(after, c) <==> t in StoredFor(stored, c) || t in incoming
      ensures t in StoredFor(after, c) ==> StoredFor(after, c)[t] == (StoredFor(stored, c) + incoming)[t]
    {
      SavedAt(setup, stored, watched, observedAt, provider, bars, c, t);
    }
  }

  lemma SavedAt(
    setup: Setup, stored: Stored, watched: seq<string>, observedAt: int, provider: Provider,
    bars: seq<StockPrice>, c: string, t: int)
    requires c in watched && KeysDistinct(bars)
    requires KeyedBy(Incoming(setup, stored, c, observedAt, provider), c)
    requires forall p :: p in bars <==> Brings(setup, stored, watched, observedAt, provider, p)
    ensures
      var before, after := StoredFor(stored, c), StoredFor(SaveAll(stored, bars), c);
      var incoming := Incoming(setup, stored, c, observedAt, provider);
      && (t in after <==> t in before || t in incoming)
      && (t in after ==> after[t] == (before + incoming)[t])
  {
    hide SaveAll, StoredFor, Incoming, KeysDistinct;
    SaveAllMeaning(stored, bars, (c, t));
    StoredForMeaning(stored, c);
    StoredForMeaning(SaveAll(stored, bars), c);
    var incoming := Incoming(setup, stored, c, observedAt, provider);
    if t in incoming {
      assert incoming[t] in bars;
    }
  }

  lemma SavedForOther(stored: Stored, bars: seq<StockPrice>, c: string)
    requires KeysDistinct(bars) && forall p :: p in bars ==> p.code != c
    ensures StoredFor(SaveAll(stored, bars), c) == StoredFor(stored, c)
  {
    StoredForMeaning(stored, c);
    StoredForMeaning(SaveAll(stored, bars), c);
    forall t
      ensures (c, t) in SaveAll(stored, bars) <==> (c, t) in stored
      ensures (c, t) in stored ==> SaveAll(stored, bars)[(c, t)] == stored[(c, t)]
    {
      SaveAllMeaning(stored, bars, (c, t));
    }
  }

  /**
   Every bar a poll brings has closed by the poll, so before 15:30 of that day: a
   bar closing at 15:30 or later is not collected on its day.
   */
  lemma ClosesBeforeTheSessionEnds(
    setup: Setup, stored: Stored, codes: seq<string>, observedAt: int, provider: Provider, p: StockPrice)
    requires Polls(setup, codes, observedAt, provider)
    requires Brings(setup, stored, NormalizeCodes(codes).value, observedAt, provider, p)
    ensures p.time + setup.interval <= observedAt < observedAt / DAY * DAY + 930 * MINUTE
  {
    TradingEnds(setup.tradingDay, observedAt);
    ShownClosed(provider(p.code, observedAt / DAY).value, observedAt, setup.interval, p.time);
  }

  /** Under the default rule a weekend poll with good codes returns without new bars, and saves nothing. */
  lemma WeekendsAreQuiet(setup: Setup, stored: Stored, codes: seq<string>, observedAt: int, provider: Provider)
    requires setup.tradingDay == IsWeekday && (observedAt / DAY + 3) % 7 in {5, 6}
    ensures
      var (after, r) := PollRun(setup, stored, codes, observedAt, provider);
      && after == stored
      && (r.Raised? <==> NormalizeCodes(codes).Raised?)
      && (r.Returned? ==> r.value.newBars == [])
  {
    assert !TradingHours(setup.tradingDay, observedAt) by {
      assert 24 * HOUR == DAY;
    }
    hide TradingHours, PollRun, NormalizeCodes;
    PollRaisesExactly(setup, stored, codes, observedAt, provider);
  }

  lemma TradingEnds(tradingDay: int -> bool, t: int)
    requires TradingHours(tradingDay, t)
    ensures t < t / DAY * DAY + 930 * MINUTE
  {
    assert t == t / DAY * DAY + t % DAY;
  }

  lemma {:induction false} ShownClosed(prices: seq<StockPrice>, observedAt: int, interval: int, t: int)
    requires t in Completed(prices, observedAt, interval)
    ensures t + interval <= observedAt
  {
    if prices == [] || t !in Completed(prices[..|prices| - 1], observedAt, interval) {
    } else {
      ShownClosed(prices[..|prices| - 1], observedAt, interval, t);
    }
  }

  // ---- Polling again and again ----

  datatype PollInput = PollInput(codes: seq<string>, observedAt: int, provider: Provider)

  ghost function StoreAfter(setup: Setup, stored: Stored, polls: seq<PollInput>): Stored {
    if polls == [] then stored
    else
      var last := polls[|polls| - 1];
      PollRun(setup, StoreAfter(setup, stored, polls[..|polls| - 1]), last.codes, last.observedAt, last.provider).0
  }

  /** The poll goes through in trading hours and watches the code. */
  ghost predicate Watches(setup: Setup, poll: PollInput, c: string) {
    Polls(setup, poll.codes, poll.observedAt, poll.provider) && c in NormalizeCodes(poll.codes).value
  }

  /** The completed bars the provider showed of the code at the last poll that watched it. */
  ghost function LastShown(setup: Setup, polls: seq<PollInput>, c: string): map<int, StockPrice> {
    if polls == [] then map[]
    else
      var last := polls[|polls| - 1];
      if Watches(setup, last, c) then Shown(setup, c, last.observedAt, last.provider)
      else LastShown(setup, polls[..|polls| - 1], c)
  }

  ghost predicate OnlyAddsLater(before: map<int, StockPrice>, after: map<int, StockPrice>) {
    && (forall t :: t in before ==> t in after && after[t] == before[t])
    && (forall t, u :: t in after && t !in before && u in before ==> u < t)
  }

  /** From poll to poll the provider only adds completed bars that open later. */
  ghost predicate Grows(setup: Setup, polls: seq<PollInput>, c: string) {
    polls == [] ||
    var init, last := polls[..|polls| - 1], polls[|polls| - 1];
    && Grows(setup, init, c)
    && (Watches(setup, last, c) ==>
          OnlyAddsLater(LastShown(setup, init, c), Shown(setup, c, last.observedAt, last.provider)))
  }

  ghost predicate IsNewest(m: map<int, StockPrice>, w: Option<int>) {
    if w.None? then m == map[] else w.value in m && forall t :: t in m ==> t <= w.value
  }

  lemma LatestIsNewest(stored: Stored, c: string)
    ensures IsNewest(StoredFor(stored, c), Latest(stored, c))
  {
    StoredForMeaning(stored, c);
    if Latest(stored, c).Some? {
      assert (c, Latest(stored, c).value) in stored;
    }
  }

  lemma OnePollMore(
    start: map<int, StockPrice>, w0: Option<int>, now: map<int, StockPrice>, w1: Option<int>,
    before: map<int, StockPrice>, after: map<int, StockPrice>)
    requires IsNewest(start, w0) && IsNewest(now, w1)
    requires now == start + NewerThan(before, w0)
    requires OnlyAddsLater(before, after)
    ensures now + NewerThan(after, w1) == start + NewerThan(after, w0)
  {
    if w0.Some? {
      assert w0.value in now;
    }
    var a, b := now + NewerThan(after, w1), start + NewerThan(after, w0);
    forall t
      ensures t in a <==> t in b
      ensures t in a ==> a[t] == b[t]
    {
      if t in NewerThan(after, w0) && t !in NewerThan(after, w1) {
        assert w1.value in NewerThan(before, w0);
        assert t in NewerThan(before, w0);
      }
    }
  }

  /**
   Incremental monitoring refines the batch filter: while the provider only adds
   later bars, any run of polls, idle and raising ones included, stores of each
   code exactly what was there before and the bars last shown that are newer
   than the latest one stored at the start.
   */
  lemma {:induction false} PollingRefinesFilter(setup: Setup, start: Stored, polls: seq<PollInput>, c: string)
    requires Grows(setup, polls, c)
    ensures StoredFor(StoreAfter(setup, start, polls), c) ==
            StoredFor(start, c) + NewerThan(LastShown(setup, polls, c), Latest(start, c))
  {
    if polls == [] {
    } else {
      var init, last := polls[..|polls| - 1], polls[|polls| - 1];
      PollingRefinesFilter(setup, start, init, c);
      var stored := StoreAfter(setup, start, init);
      if Polls(setup, last.codes, last.observedAt, last.provider) {
        PollSavesExactly(setup, stored, last.codes, last.observedAt, last.provider);
        if Watches(setup, last, c) {
          LatestIsNewest(start, c);
          LatestIsNewest(stored, c);
          OnePollMore(StoredFor(start, c), Latest(start, c), StoredFor(stored, c), Latest(stored, c),
                      LastShown(setup, init, c), Shown(setup, c, last.observedAt, last.provider));
        }
      } else {
        PollRaisesExactly(setup, stored, last.codes, last.observedAt, last.provider);
      }
    }
  }

  function CompletedBy(day: map<int, StockPrice>, observedAt: int, interval: int): map<int, StockPrice> {
    map t | t in day && t + interval <= observedAt :: day[t]
  }

  /** The time of the last poll that watched the code. */
  ghost function LastWatched(setup: Setup, polls: seq<PollInput>, c: string): Option<int> {
    if polls == [] then None
    else if Watches(setup, polls[|polls| - 1], c) then Some(polls[|polls| - 1].observedAt)
    else LastWatched(setup, polls[..|polls| - 1], c)
  }

  /** The provider shows a fixed day of bars, as far as completed, at polls that never go back in time. */
  ghost predicate Replays(setup: Setup, day: map<int, StockPrice>, polls: seq<PollInput>, c: string) {
    polls == [] ||
    var init, last := polls[..|polls| - 1], polls[|polls| - 1];
    && Replays(setup, day, init, c)
    && (Watches(setup, last, c) ==>
          && Shown(setup, c, last.observedAt, last.provider) == CompletedBy(day, last.observedAt, setup.interval)
          && (LastWatched(setup, init, c).Some? ==> LastWatched(setup, init, c).value <= last.observedAt))
  }

  lemma {:induction false} ReplayGrows(setup: Setup, day: map<int, StockPrice>, polls: seq<PollInput>, c: string)
    requires Replays(setup, day, polls, c)
    ensures Grows(setup, polls, c)
    ensures LastShown(setup, polls, c) ==
            match LastWatched(setup, polls, c)
            case None => map[]
            case Some(t) => CompletedBy(day, t, setup.interval)
  {
    if polls == [] {
    } else {
      ReplayGrows(setup, day, polls[..|polls| - 1], c);
    }
  }

  /** Over one day: stored are exactly the day's bars that had closed by the last poll and are new. */
  lemma DayIsCollected(setup: Setup, start: Stored, day: map<int, StockPrice>, polls: seq<PollInput>, c: string)
    requires Replays(setup, day, polls, c) && LastWatched(setup, polls, c).Some?
    ensures StoredFor(StoreAfter(setup, start, polls), c) ==
            StoredFor(start, c) +
            NewerThan(CompletedBy(day, LastWatched(setup, polls, c).value, setup.interval), Latest(start, c))
  {
    ReplayGrows(setup, day, polls, c);
    PollingRefinesFilter(setup, start, polls, c);
  }
}
