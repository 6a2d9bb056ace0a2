/** Relaxing the limits: what it does to one order, and when it can cost a later order its approval. */
module RiskManagerRelaxing {
  import opened Text
  import opened RiskManager
  import opened RiskManagerTheorems

  ghost predicate Relaxes(a: Limits, b: Limits) {
    && a.maxPositions <= b.maxPositions
    && a.maxPositionValue <= b.maxPositionValue
    && a.maxExposure <= b.maxExposure
    && b.minimumCash <= a.minimumCash
    && a.maxDailyLoss <= b.maxDailyLoss
    && a.maxDrawdownRate <= b.maxDrawdownRate
    && a.maxLosses <= b.maxLosses
  }

  lemma AfloatRelaxes(p: Portfolio, rate: real, higher: real)
    requires p.Accepted() && Afloat(p, rate) && rate <= higher
    ensures Afloat(p, higher)
  {
    assert (higher - rate) * p.peak >= 0.0;
  }

  lemma BreaksLess(a: Limits, b: Limits, latch: Latch, signal: OrderSignal, p: Portfolio, reason: Reason)
    requires p.Accepted() && Relaxes(a, b) && !Breaks(a, latch, signal, p, reason)
    ensures !Breaks(b, latch, signal, p, reason)
  {
    if reason.DrawdownLimit? {
      AfloatRelaxes(p, a.maxDrawdownRate, b.maxDrawdownRate);
    }
    hide Afloat, OrderSignal.OrderValue;
  }

  /** In one assessment relaxed limits lose no approval. */
  lemma RelaxingKeepsApprovals(a: Limits, b: Limits, latch: Latch, signal: OrderSignal, p: Portfolio)
    requires p.Accepted() && Relaxes(a, b) && Assess(a, latch, signal, p).decision.Approved?
    ensures Assess(b, latch, signal, p) == Assess(a, latch, signal, p)
  {
    hide Breaks;
    if signal.action.Buy? {
      forall reason
        ensures !Breaks(b, latch, signal, p, reason)
      {
        BreaksLess(a, b, latch, signal, p, reason);
      }
    }
  }

  /** A drawdown limit of zero stops every purchase, also without any drawdown. */
  lemma ZeroDrawdownLimitStopsPurchases(limits: Limits, latch: Latch, signal: OrderSignal, p: Portfolio)
    requires limits.maxDrawdownRate == 0.0 && signal.action.Buy?
    ensures !Assess(limits, latch, signal, p).decision.Approved?
  {
    assert Breaks(limits, latch, signal, p, DrawdownLimit);
  }

  // ---- Runs under two sets of limits ----

  ghost predicate Approves(limits: Limits, start: State, events: seq<Event>, i: nat)
    requires i < |events|
  {
    events[i].Signalled? && AssessIn(limits, Before(limits, start, events, i), events[i]).decision.Approved?
  }

  ghost predicate StartsWell(limits: Limits, start: State, events: seq<Event>) {
    limits.Accepted() && BookAccepted(start.book) && LatchKept(start.latch) &&
    forall e :: e in events ==> EventAccepted(e)
  }

  lemma BookBefore(limits: Limits, start: State, events: seq<Event>, i: nat)
    requires StartsWell(limits, start, events) && i < |events|
    ensures BookAccepted(Before(limits, start, events, i).book)
    ensures events[i].Signalled? ==>
              PortfolioOf(Before(limits, start, events, i).book, events[i].conditions).Accepted()
  {
    assert forall e :: e in events[..i] ==> e in events;
    RunsKeepLimits(limits, start, events[..i]);
    assert events[i] in events;
  }

  /** The halts and resumptions so far, and so the latch, do not depend on the limits. */
  lemma {:induction false} SameLatch(a: Limits, b: Limits, start: State, events: seq<Event>, i: nat)
    requires i <= |events|
    ensures Before(a, start, events, i).latch == Before(b, start, events, i).latch
  {
    hide Assess;
    if i == 0 {
    } else {
      SameLatch(a, b, start, events, i - 1);
      BeforeNext(a, start, events, i - 1);
      BeforeNext(b, start, events, i - 1);
    }
  }

  /** As long as the relaxed run approves nothing more, both runs hold the same book. */
  lemma {:induction false} SameBooks(a: Limits, b: Limits, start: State, events: seq<Event>, i: nat)
    requires Relaxes(a, b) && StartsWell(a, start, events) && i <= |events|
    requires forall j :: 0 <= j < i && Approves(b, start, events, j) ==> Approves(a, start, events, j)
    ensures Before(a, start, events, i) == Before(b, start, events, i)
  {
    if i == 0 {
    } else {
      SameBooks(a, b, start, events, i - 1);
      BeforeNext(a, start, events, i - 1);
      BeforeNext(b, start, events, i - 1);
      var s, e := Before(a, start, events, i - 1), events[i - 1];
      if Approves(a, start, events, i - 1) {
        BookBefore(a, start, events, i - 1);
        RelaxingKeepsApprovals(a, b, s.latch, e.signal, PortfolioOf(s.book, e.conditions));
      }
      hide Assess;
    }
  }

  /**
   An order that strict limits approve is lost under relaxed limits only after
   they have approved an earlier order that the strict limits refused.
   */
  lemma ApprovalLostOnlyAfterAGain(a: Limits, b: Limits, start: State, events: seq<Event>, i: nat)
    requires Relaxes(a, b) && StartsWell(a, start, events) && i < |events|
    requires Approves(a, start, events, i) && !Approves(b, start, events, i)
    ensures exists j :: 0 <= j < i && Approves(b, start, events, j) && !Approves(a, start, events, j)
  {
    if forall j :: 0 <= j < i && Approves(b, start, events, j) ==> Approves(a, start, events, j) {
      SameBooks(a, b, start, events, i);
      var s, e := Before(a, start, events, i), events[i];
      BookBefore(a, start, events, i);
      RelaxingKeepsApprovals(a, b, s.latch, e.signal, PortfolioOf(s.book, e.conditions));
      assert false;
    }
  }

  /** The order fits the book: the bounds on positions, exposure and cash. */
  ghost predicate Fits(limits: Limits, book: Book, signal: OrderSignal) {
    && signal.code !in book.codes
    && |book.codes| < limits.maxPositions
    && book.exposure + signal.OrderValue() <= limits.maxExposure
    && limits.minimumCash + signal.OrderValue() <= book.cash
  }

  /**
   A purchase that strict limits approve is approved in the run under relaxed
   limits exactly when it fits the book that run holds; the other bounds carry over.
   */
  lemma RelaxedApprovesExactly(a: Limits, b: Limits, start: State, events: seq<Event>, i: nat)
    requires Relaxes(a, b) && StartsWell(a, start, events) && i < |events|
    requires Approves(a, start, events, i) && events[i].signal.action.Buy?
    ensures Approves(b, start, events, i) <==> Fits(b, Before(b, start, events, i).book, events[i].signal)
  {
    var e, s, t := events[i], Before(a, start, events, i), Before(b, start, events, i);
    BookBefore(a, start, events, i);
    SameLatch(a, b, start, events, i);
    forall reason | Rank(reason) <= 3 || reason.MaxPositionValue?
      ensures !Breaks(b, t.latch, e.signal, PortfolioOf(t.book, e.conditions), reason)
    {
      BreaksLess(a, b, s.latch, e.signal, PortfolioOf(s.book, e.conditions), reason);
      SameOutsideBook(b, t.latch, e.signal, s.book, t.book, e.conditions, reason);
    }
    BookBounds(b, t.latch, e.signal, t.book, e.conditions);
  }

  lemma SameOutsideBook(
    limits: Limits, latch: Latch, signal: OrderSignal, x: Book, y: Book, c: Conditions, reason: Reason)
    requires Rank(reason) <= 3 || reason.MaxPositionValue?
    ensures Breaks(limits, latch, signal, PortfolioOf(x, c), reason) <==>
            Breaks(limits, latch, signal, PortfolioOf(y, c), reason)
  {
    hide OrderSignal.OrderValue;
  }

  lemma BookBounds(limits: Limits, latch: Latch, signal: OrderSignal, book: Book, c: Conditions)
    requires forall reason :: Rank(reason) <= 3 || reason.MaxPositionValue? ==>
                                !Breaks(limits, latch, signal, PortfolioOf(book, c), reason)
    ensures KeepsAll(limits, latch, signal, PortfolioOf(book, c)) <==> Fits(limits, book, signal)
  {
    hide OrderSignal.OrderValue;
    var p := PortfolioOf(book, c);
    if KeepsAll(limits, latch, signal, p) {
      assert !Breaks(limits, latch, signal, p, DuplicatePosition);
      assert !Breaks(limits, latch, signal, p, MaxPositionCount);
      assert !Breaks(limits, latch, signal, p, MaxTotalExposure);
      assert !Breaks(limits, latch, signal, p, MinimumCash);
    }
  }

  // ---- A condition on the orders alone ----

  function Purchases(events: seq<Event>): seq<OrderSignal> {
    if events == [] then []
    else
      var last := events[|events| - 1];
      Purchases(events[..|events| - 1]) + if last.Signalled? && last.signal.action.Buy? then [last.signal] else []
  }

  function TotalValue(signals: seq<OrderSignal>): real {
    if signals == [] then 0.0 else TotalValue(signals[..|signals| - 1]) + signals[|signals| - 1].OrderValue()
  }

  /** The limits have room for all purchases together, and no code is bought twice or held already. */
  ghost predicate HasRoom(limits: Limits, book: Book, events: seq<Event>) {
    var purchases := Purchases(events);
    && book.exposure + TotalValue(purchases) <= limits.maxExposure
    && limits.minimumCash + TotalValue(purchases) <= book.cash
    && |book.codes| + |purchases| <= limits.maxPositions
    && (forall i, j :: 0 <= i < j < |purchases| ==> purchases[i].code != purchases[j].code)
    && (forall p :: p in purchases ==> p.code !in book.codes)
  }

  ghost predicate Positive(signals: seq<OrderSignal>) {
    forall p :: p in signals ==> p.OrderValue() > 0.0
  }

  lemma {:induction false} PurchasesPositive(events: seq<Event>)
    requires forall e :: e in events ==> EventAccepted(e)
    ensures Positive(Purchases(events))
  {
    if events == [] {
    } else {
      var init, last := events[..|events| - 1], events[|events| - 1];
      assert forall e :: e in init ==> e in events;
      PurchasesPositive(init);
      assert last in events;
      if last.Signalled? {
        ValueIsPositive(last.signal);
      }
    }
  }

  /** The purchases of a prefix are a prefix of the purchases. */
  lemma {:induction false} PurchasesPrefix(events: seq<Event>, i: nat)
    requires i <= |events|
    ensures Purchases(events[..i]) <= Purchases(events)
  {
    if i == |events| {
      assert events[..i] == events;
    } else {
      PurchasesPrefix(events[..|events| - 1], i);
      assert events[..|events| - 1][..i] == events[..i];
    }
  }

  lemma {:induction false} PrefixValue(signals: seq<OrderSignal>, k: nat)
    requires k <= |signals| && Positive(signals)
    ensures TotalValue(signals[..k]) <= TotalValue(signals)
  {
    hide OrderSignal.OrderValue;
    if k == |signals| {
      assert signals[..k] == signals;
    } else {
      var init := signals[..|signals| - 1];
      assert forall p :: p in init ==> p in signals;
      PrefixValue(init, k);
      assert init[..k] == signals[..k];
      assert signals[|signals| - 1] in signals;
    }
  }

  /** The book of a run holds no more than where it started and the purchases so far. */
  ghost predicate WithinPurchases(start: Book, book: Book, purchases: seq<OrderSignal>) {
    && 0.0 <= book.exposure <= start.exposure + TotalValue(purchases)
    && start.cash - TotalValue(purchases) <= book.cash
    && |book.codes| <= |start.codes| + |purchases|
    && (forall c :: c in book.codes ==> c in start.codes || exists p :: p in purchases && p.code == c)
  }

  /** One more purchase asked for: the book may take it, or stay. */
  lemma WithinOneMore(start: Book, book: Book, next: Book, purchases: seq<OrderSignal>, signal: OrderSignal)
    requires WithinPurchases(start, book, purchases) && signal.OrderValue() > 0.0
    requires
      || next == book
      || (0.0 <= next.exposure <= book.exposure + signal.OrderValue()
          && next.cash == book.cash - signal.OrderValue()
          && next.codes == book.codes + {signal.code})
    ensures WithinPurchases(start, next, purchases + [signal])
  {
    hide OrderSignal.OrderValue;
    var more := purchases + [signal];
    assert more[..|purchases|] == purchases;
    assert signal in more;
    assert forall p :: p in purchases ==> p in more;
  }

  lemma WithinOneLess(start: Book, book: Book, next: Book, purchases: seq<OrderSignal>)
    requires WithinPurchases(start, book, purchases)
    requires 0.0 <= next.exposure <= book.exposure && book.cash <= next.cash && next.codes <= book.codes
    ensures WithinPurchases(start, next, purchases)
  {
    SubsetSize(next.codes, book.codes);
  }

  lemma StepWithinPurchases(limits: Limits, start: Book, s: State, e: Event, purchases: seq<OrderSignal>)
    requires EventAccepted(e) && BookAccepted(s.book) && WithinPurchases(start, s.book, purchases)
    ensures
      var more := purchases + if e.Signalled? && e.signal.action.Buy? then [e.signal] else [];
      WithinPurchases(start, Step(limits, s, e).book, more)
  {
    if e.Signalled? {
      ValueIsPositive(e.signal);
      var p := PortfolioOf(s.book, e.conditions);
      if AssessIn(limits, s, e).decision.Approved? {
        ApprovalMovesMoney(limits, s.latch, e.signal, p);
        ProjectedExposure(limits, s.latch, e.signal, p);
      }
      hide Assess, OrderSignal.OrderValue, WithinPurchases;
      if e.signal.action.Buy? {
        WithinOneMore(start, s.book, Step(limits, s, e).book, purchases, e.signal);
      } else {
        WithinOneLess(start, s.book, Step(limits, s, e).book, purchases);
        assert purchases + [] == purchases;
      }
    } else {
      assert purchases + [] == purchases;
    }
  }

  lemma ProjectedExposure(limits: Limits, latch: Latch, signal: OrderSignal, p: Portfolio)
    requires p.Accepted() && signal.Accepted() && Assess(limits, latch, signal, p).decision.Approved?
    ensures
      var a := Assess(limits, latch, signal, p);
      0.0 <= a.projectedExposure <= (if signal.action.Buy? then p.exposure + signal.OrderValue() else p.exposure)
  {
    ValueIsPositive(signal);
    hide OrderSignal.OrderValue;
  }

  lemma PurchasesNext(events: seq<Event>, i: nat)
    requires i < |events|
    ensures
      var e := events[i];
      Purchases(events[..i + 1]) ==
      Purchases(events[..i]) + if e.Signalled? && e.signal.action.Buy? then [e.signal] else []
  {
    assert events[..i + 1][..i] == events[..i];
  }

  lemma {:induction false} RunWithinPurchases(limits: Limits, start: State, events: seq<Event>, i: nat)
    requires StartsWell(limits, start, events) && i <= |events|
    ensures WithinPurchases(start.book, Before(limits, start, events, i).book, Purchases(events[..i]))
  {
    if i == 0 {
    } else {
      hide WithinPurchases, Before, Step, BookAccepted, Purchases, EventAccepted;
      RunWithinPurchases(limits, start, events, i - 1);
      BeforeNext(limits, start, events, i - 1);
      BookBefore(limits, start, events, i - 1);
      assert events[i - 1] in events;
      StepWithinPurchases(limits, start.book, Before(limits, start, events, i - 1), events[i - 1],
                          Purchases(events[..i - 1]));
      PurchasesNext(events, i - 1);
    }
  }

  /**
   Where the relaxed limits have room for every purchase, the run under them approves
   whatever strict limits approve.
   */
  lemma RoomKeepsEveryApproval(a: Limits, b: Limits, start: State, events: seq<Event>, i: nat)
    requires Relaxes(a, b) && StartsWell(a, start, events) && b.Accepted() && HasRoom(b, start.book, events)
    requires i < |events| && Approves(a, start, events, i)
    ensures Approves(b, start, events, i)
  {
    if events[i].signal.action.Buy? {
      var signal, before, upTo := events[i].signal, Purchases(events[..i]), Purchases(events[..i + 1]);
      RunWithinPurchases(b, start, events, i);
      PurchasesPrefix(events, i + 1);
      PurchasesPositive(events);
      PrefixValue(Purchases(events), |upTo|);
      assert events[..i + 1][..i] == events[..i];
      assert upTo == before + [signal] && upTo[..|before|] == before;
      assert forall k :: 0 <= k < |upTo| ==> Purchases(events)[k] == upTo[k];
      RelaxedApprovesExactly(a, b, start, events, i);
      RoomFits(b, start.book, Before(b, start, events, i).book, before, signal, Purchases(events));
    }
  }

  lemma RoomFits(
    limits: Limits, start: Book, book: Book, before: seq<OrderSignal>, signal: OrderSignal, all: seq<OrderSignal>)
    requires WithinPurchases(start, book, before) && before + [signal] <= all
    requires start.exposure + TotalValue(all) <= limits.maxExposure
    requires limits.minimumCash + TotalValue(all) <= start.cash
    requires |start.codes| + |all| <= limits.maxPositions
    requires forall i, j :: 0 <= i < j < |all| ==> all[i].code != all[j].code
    requires forall p :: p in all ==> p.code !in start.codes
    requires Positive(all)
    ensures Fits(limits, book, signal)
  {
    hide OrderSignal.OrderValue, TotalValue, Positive;
    var n := |before|;
    assert all[n] == signal && all[..n + 1] == before + [signal];
    PrefixValue(all, n + 1);
    TotalSnoc(before, signal);
    SignalIsNew(start.codes, book.codes, before, signal, all);
  }

  lemma TotalSnoc(signals: seq<OrderSignal>, last: OrderSignal)
    ensures TotalValue(signals + [last]) == TotalValue(signals) + last.OrderValue()
  {
    assert (signals + [last])[..|signals|] == signals;
  }

  lemma SignalIsNew(
    start: set<string>, codes: set<string>, before: seq<OrderSignal>, signal: OrderSignal, all: seq<OrderSignal>)
    requires before + [signal] <= all
    requires forall c :: c in codes ==> c in start || exists p :: p in before && p.code == c
    requires forall i, j :: 0 <= i < j < |all| ==> all[i].code != all[j].code
    requires forall p :: p in all ==> p.code !in start
    ensures signal.code !in codes
  {
    var n := |before|;
    assert all[n] == signal && signal in all;
    forall k | 0 <= k < n
      ensures before[k].code != signal.code
    {
      assert all[k] == before[k];
    }
  }

  // ---- A lost approval ----

  /**
   Relaxed limits approve a large order, which takes the last position from a small one
   that strict limits approve.
   */
  lemma LastPositionIsTaken(calm: Conditions)
    returns (strict: Limits, relaxed: Limits, start: State, events: seq<Event>)
    requires calm.equity == 0.0 && calm.peak == 0.0 && calm.dailyProfitLoss == 0.0 && calm.losses == 0
    ensures Relaxes(strict, relaxed) && StartsWell(strict, start, events) && relaxed.Accepted() && |events| == 2
    ensures Approves(strict, start, events, 1) && !Approves(relaxed, start, events, 1)
    ensures Approves(relaxed, start, events, 0) && !Approves(strict, start, events, 0)
  {
    strict := Limits(1, 10.0, 100.0, 0.0, 1.0, 1.0, 1);
    relaxed := Limits(1, 50.0, 100.0, 0.0, 1.0, 1.0, 1);
    start := State(Book(100.0, 0.0, {}), RELEASED);
    var large, small := OrderSignal("1111", Buy, 50.0, 1), OrderSignal("2222", Buy, 10.0, 1);
    events := [Signalled(large, calm), Signalled(small, calm)];
    assert large.OrderValue() == 50.0 && small.OrderValue() == 10.0;
    assert Strip("1111") == "1111" && Strip("2222") == "2222";
    assert events[..0] == [];
    BeforeNext(strict, start, events, 0);
    BeforeNext(relaxed, start, events, 0);
    var p := PortfolioOf(start.book, calm);
    assert Breaks(strict, RELEASED, large, p, MaxPositionValue);
    assert KeepsAll(relaxed, RELEASED, large, p);
    assert KeepsAll(strict, RELEASED, small, p);
    var q := PortfolioOf(Before(relaxed, start, events, 1).book, calm);
    assert Breaks(relaxed, RELEASED, small, q, MaxPositionCount);
  }
}
