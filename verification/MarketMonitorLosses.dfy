/** Which of the bars a provider shows are stored, whatever it shows: exactly when a bar is lost. */
module MarketMonitorLosses {
  import opened Wrappers
  import opened MarketBars
  import opened MarketMonitor
  import opened MarketMonitorTheorems

  /** The completed bars a poll shows of the code, if it watches it. */
  ghost function Showing(setup: Setup, poll: PollInput, c: string): map<int, StockPrice> {
    if Watches(setup, poll, c) then Shown(setup, c, poll.observedAt, poll.provider) else map[]
  }

  /** The poll shows a completed bar of the code that opens at `t` or later. */
  ghost predicate ShowsFrom(setup: Setup, poll: PollInput, c: string, t: int) {
    exists u :: u in Showing(setup, poll, c) && t <= u
  }

  /** Poll `i` is the first to show a bar at `t` or later, and shows the one at `t`. */
  ghost predicate FirstShown(setup: Setup, polls: seq<PollInput>, c: string, t: int, i: int) {
    0 <= i < |polls| && t in Showing(setup, polls[i], c) &&
    forall j :: 0 <= j < i ==> !ShowsFrom(setup, polls[j], c, t)
  }

  lemma ReachedByKey(stored: Stored, c: string, t: int)
    ensures Reached(stored, c, t) <==> exists u :: u in StoredFor(stored, c) && t <= u
  {
    StoredForMeaning(stored, c);
    LatestIsNewest(stored, c);
    assert Latest(stored, c).Some? ==> Latest(stored, c).value in StoredFor(stored, c);
  }

  /** What one more poll adds for the code. */
  lemma OnePoll(setup: Setup, stored: Stored, poll: PollInput, c: string, t: int)
    ensures
      var after := PollRun(setup, stored, poll.codes, poll.observedAt, poll.provider).0;
      && ((c, t) in after <==> (c, t) in stored || (t in Showing(setup, poll, c) && !Reached(stored, c, t)))
      && (Reached(after, c, t) <==> Reached(stored, c, t) || ShowsFrom(setup, poll, c, t))
  {
    var after := PollRun(setup, stored, poll.codes, poll.observedAt, poll.provider).0;
    var before, shown := StoredFor(stored, c), Showing(setup, poll, c);
    assert StoredFor(after, c) == before + NewerThan(shown, Latest(stored, c)) by {
      if Polls(setup, poll.codes, poll.observedAt, poll.provider) {
        PollSavesExactly(setup, stored, poll.codes, poll.observedAt, poll.provider);
      } else {
        PollRaisesExactly(setup, stored, poll.codes, poll.observedAt, poll.provider);
      }
    }
    StoredForMeaning(stored, c);
    StoredForMeaning(after, c);
    hide PollRun, Showing, StoredFor;
    ReachedByKey(stored, c, t);
    ReachedByKey(after, c, t);
    forall u | u in shown && t <= u && u !in NewerThan(shown, Latest(stored, c))
      ensures Reached(stored, c, t)
    {
    }
  }

  /**
   Whatever the provider shows, after any run of polls the watermark has reached
   `t` exactly when it had at the start or some poll showed a bar at `t` or later.
   */
  lemma {:induction false} ReachedExactly(setup: Setup, start: Stored, polls: seq<PollInput>, c: string, t: int)
    ensures Reached(StoreAfter(setup, start, polls), c, t) <==>
            Reached(start, c, t) || exists i :: 0 <= i < |polls| && ShowsFrom(setup, polls[i], c, t)
  {
    if polls == [] {
    } else {
      var init, last := polls[..|polls| - 1], polls[|polls| - 1];
      ReachedExactly(setup, start, init, c, t);
      OnePoll(setup, StoreAfter(setup, start, init), last, c, t);
      ShownOnceMore(setup, init, last, c, t);
      assert polls == init + [last];
      hide Reached, ShowsFrom;
    }
  }

  lemma ShownOnceMore(setup: Setup, init: seq<PollInput>, last: PollInput, c: string, t: int)
    ensures
      var polls := init + [last];
      (exists i :: 0 <= i < |polls| && ShowsFrom(setup, polls[i], c, t)) <==>
      (exists i :: 0 <= i < |init| && ShowsFrom(setup, init[i], c, t)) || ShowsFrom(setup, last, c, t)
  {
    hide ShowsFrom;
    var polls := init + [last];
    assert forall i :: 0 <= i < |init| ==> polls[i] == init[i];
    assert polls[|init|] == last;
  }

  /**
   Whatever the provider shows, after any run of polls a bar is stored exactly when
   it was at the start, or it is newer than the watermark of the start and some
   poll shows it before any poll has shown a bar at its time or later.
   */
  lemma {:induction false} StoredExactly(setup: Setup, start: Stored, polls: seq<PollInput>, c: string, t: int)
    ensures (c, t) in StoreAfter(setup, start, polls) <==>
            (c, t) in start || (!Reached(start, c, t) && exists i :: FirstShown(setup, polls, c, t, i))
  {
    if polls == [] {
    } else {
      hide Reached, ShowsFrom, FirstShown, Showing, PollRun;
      var init, last := polls[..|polls| - 1], polls[|polls| - 1];
      StoredExactly(setup, start, init, c, t);
      ReachedExactly(setup, start, init, c, t);
      OnePoll(setup, StoreAfter(setup, start, init), last, c, t);
      FirstShownExtends(setup, init, last, c, t);
      assert polls == init + [last];
    }
  }

  lemma FirstShownExtends(setup: Setup, init: seq<PollInput>, last: PollInput, c: string, t: int)
    ensures
      (exists i :: FirstShown(setup, init + [last], c, t, i)) <==>
      || (exists i :: FirstShown(setup, init, c, t, i))
      || (t in Showing(setup, last, c) && !exists i :: 0 <= i < |init| && ShowsFrom(setup, init[i], c, t))
  {
    hide Showing, ShowsFrom;
    var polls, n := init + [last], |init|;
    assert forall i :: 0 <= i < n ==> polls[i] == init[i];
    if i :| FirstShown(setup, init, c, t, i) {
      assert FirstShown(setup, polls, c, t, i);
    }
    if i :| FirstShown(setup, polls, c, t, i) {
      if i < n {
        assert FirstShown(setup, init, c, t, i);
      } else {
        assert forall j :: 0 <= j < n ==> !ShowsFrom(setup, polls[j], c, t);
      }
    }
    if t in Showing(setup, last, c) && !exists i :: 0 <= i < n && ShowsFrom(setup, init[i], c, t) {
      assert FirstShown(setup, polls, c, t, n);
    }
  }

  /** A bar that is missing when the watermark has passed it stays missing, whatever is polled. */
  lemma LateBarIsLost(setup: Setup, start: Stored, polls: seq<PollInput>, c: string, t: int)
    requires (c, t) !in start && Reached(start, c, t)
    ensures (c, t) !in StoreAfter(setup, start, polls) && Reached(StoreAfter(setup, start, polls), c, t)
  {
    StoredExactly(setup, start, polls, c, t);
    ReachedExactly(setup, start, polls, c, t);
  }

  /** A provider that shows the bars of the given times for whatever code it is asked. */
  function Showcase(times: seq<int>): Provider {
    (code: string, day: int) =>
      Returned(seq(|times|, i requires 0 <= i < |times| => StockPrice(code, times[i], Quote(1.0, 1.0, 1.0, 1.0, 1))))
  }

  const TEN: int := 600 * MINUTE

  function AtTen(c: string, times: seq<int>): PollInput {
    PollInput([c], TEN, Showcase(times))
  }

  lemma AtTenShows(setup: Setup, c: string, times: seq<int>)
    requires setup.tradingDay(0) && NormalizeCode(c) == Some(c)
    requires forall i :: 0 <= i < |times| ==> times[i] + setup.interval <= TEN
    ensures Watches(setup, AtTen(c, times), c)
    ensures forall t :: t in Showing(setup, AtTen(c, times), c) <==> t in times
  {
    var codes := [c];
    assert codes[..|codes| - 1] == [] && NormalizeList([]) == Returned([]) && [] + [c] == [c];
    assert TEN / DAY == 0 && TEN % DAY == TEN;
    CompletedTimes(Showcase(times)(c, 0).value, times, TEN, setup.interval);
  }

  lemma {:induction false} CompletedTimes(prices: seq<StockPrice>, times: seq<int>, at: int, interval: int)
    requires |prices| == |times|
    requires forall i :: 0 <= i < |times| ==> prices[i].time == times[i] && times[i] + interval <= at
    ensures forall t :: t in Completed(prices, at, interval) <==> t in times
  {
    if times == [] {
    } else {
      var n := |times| - 1;
      CompletedTimes(prices[..n], times[..n], at, interval);
      assert times == times[..n] + [times[n]];
    }
  }

  /**
   Two polls at ten o'clock: the first shows the bar of five past nine, the second
   also the bar of nine, completed by then; the bar of nine is never stored.
   */
  lemma BarOfNineIsLost(c: string) returns (setup: Setup, polls: seq<PollInput>)
    requires NormalizeCode(c) == Some(c)
    ensures |polls| == 2 && Watches(setup, polls[1], c)
    ensures 540 * MINUTE in Showing(setup, polls[1], c)
    ensures (c, 540 * MINUTE) !in StoreAfter(setup, map[], polls)
    ensures (c, 545 * MINUTE) in StoreAfter(setup, map[], polls)
  {
    var nine, five := 540 * MINUTE, 545 * MINUTE;
    setup := Setup(5 * MINUTE, d => true);
    polls := [AtTen(c, [five]), AtTen(c, [nine, five])];
    AtTenShows(setup, c, [five]);
    AtTenShows(setup, c, [nine, five]);
    assert five in Showing(setup, polls[0], c);
    assert ShowsFrom(setup, polls[0], c, nine);
    assert FirstShown(setup, polls, c, five, 0);
    StoredExactly(setup, map[], polls, c, nine);
    StoredExactly(setup, map[], polls, c, five);
    hide Showing, Showcase, StoreAfter, Watches;
    assert forall i :: FirstShown(setup, polls, c, nine, i) ==> i == 0 || i == 1;
  }
}
