/** What the gate guarantees for one signal, and for every run of signals, halts and resumptions. */
module RiskManagerTheorems {
  import opened Wrappers
  import opened Text
  import opened MarketBars
  import opened RiskManager

  // ---- One assessment ----

  ghost predicate LatchKept(latch: Latch) {
    latch.halted ==> latch.reason.Some? && !Blank(latch.reason.value)
  }

  /** Every assessment passes its constructor's checks, and only approval changes what is projected. */
  lemma AssessmentAccepted(limits: Limits, latch: Latch, signal: OrderSignal, p: Portfolio)
    requires p.Accepted() && signal.Accepted() && LatchKept(latch)
    ensures
      var a := Assess(limits, latch, signal, p);
      && a.Accepted()
      && (!a.decision.Approved? ==> a.projectedExposure == p.exposure && a.projectedCash == p.cash)
  {
    hide Blank, Message;
    ValueIsPositive(signal);
    MessageIsNotBlank(latch, AllPassed);
    var reason := Assess(limits, latch, signal, p).reason;
    if signal.action.Buy? && !KeepsAll(limits, latch, signal, p) {
      assert Breaks(limits, latch, signal, p, reason);
      MessageIsNotBlank(latch, reason);
    }
  }

  lemma ValueIsPositive(signal: OrderSignal)
    requires signal.Accepted()
    ensures signal.OrderValue() > 0.0
  {
    assert signal.price * (signal.quantity as real) > 0.0;
  }

  lemma MessageIsNotBlank(latch: Latch, reason: Reason)
    requires LatchKept(latch) && (reason.ManualHalt? ==> latch.halted)
    ensures !Blank(Message(latch, reason)) && !Blank(EXIT_MESSAGE)
  {
    NotBlank(EXIT_MESSAGE);
    if !reason.ManualHalt? {
      NotBlank(Message(latch, reason));
    }
  }

  /**
   Approval moves the order's value between cash and exposure; only an exit worth
   more than the exposure creates value, namely the excess.
   */
  lemma ApprovalMovesMoney(limits: Limits, latch: Latch, signal: OrderSignal, p: Portfolio)
    requires p.Accepted() && signal.Accepted() && Assess(limits, latch, signal, p).decision.Approved?
    ensures
      var a := Assess(limits, latch, signal, p);
      var value := signal.OrderValue();
      && a.projectedCash == (if signal.action.Buy? then p.cash - value else p.cash + value)
      && (signal.action.Buy? || value <= p.exposure ==> a.projectedCash + a.projectedExposure == p.cash + p.exposure)
      && (!signal.action.Buy? && p.exposure < value ==> a.projectedExposure == 0.0)
  {
    ValueIsPositive(signal);
    hide OrderSignal.OrderValue, Portfolio.DrawdownRate;
  }

  // ---- Runs ----

  /** What the book does not determine: equity, losses and the day's result, as they stand when a signal arrives. */
  datatype Conditions = Conditions(equity: real, peak: real, dailyProfitLoss: real, losses: int)

  datatype Event = Signalled(signal: OrderSignal, conditions: Conditions) | HaltAsked(reason: string) | Resumed

  datatype Book = Book(cash: real, exposure: real, codes: set<string>)

  datatype State = State(book: Book, latch: Latch)

  function PortfolioOf(book: Book, c: Conditions): Portfolio {
    Portfolio(book.cash, book.exposure, c.equity, c.peak, c.dailyProfitLoss, c.losses, book.codes)
  }

  ghost function AssessIn(limits: Limits, s: State, e: Event): Assessment
    requires e.Signalled?
  {
    Assess(limits, s.latch, e.signal, PortfolioOf(s.book, e.conditions))
  }

  /** An approved order is carried out as projected; halts and resumptions set the latch. */
  ghost function Step(limits: Limits, s: State, e: Event): State {
    match e
    case HaltAsked(reason) => if Blank(reason) then s else s.(latch := Latch(true, Some(Strip(reason))))
    case Resumed => s.(latch := RELEASED)
    case Signalled(signal, _) =>
      var a := AssessIn(limits, s, e);
      if !a.decision.Approved? then s
      else s.(book := Book(a.projectedCash, a.projectedExposure,
                           if signal.action.Buy? then s.book.codes + {signal.code} else s.book.codes - {signal.code}))
  }

  ghost function Replay(limits: Limits, s: State, events: seq<Event>): State {
    if events == [] then s
    else Step(limits, Replay(limits, s, events[..|events| - 1]), events[|events| - 1])
  }

  ghost predicate EventAccepted(e: Event) {
    e.Signalled? ==>
      e.signal.Accepted() && e.conditions.equity >= 0.0 && e.conditions.peak >= 0.0 && e.conditions.losses >= 0
  }

  ghost predicate BookAccepted(book: Book) {
    book.cash >= 0.0 && book.exposure >= 0.0 && forall c :: c in book.codes ==> NormalizeCode(c) == Some(c)
  }

  function Max(a: real, b: real): real {
    if a < b then b else a
  }

  function Min(a: real, b: real): real {
    if a < b then a else b
  }

  /** What a run keeps, relative to where it starts. */
  ghost predicate Kept(limits: Limits, start: Book, s: State) {
    && s.book.exposure <= Max(start.exposure, limits.maxExposure)
    && s.book.cash >= Min(start.cash, limits.minimumCash)
    && (|s.book.codes| <= |start.codes| || |s.book.codes| <= limits.maxPositions)
    && BookAccepted(s.book)
    && LatchKept(s.latch)
  }

  lemma StepKeeps(limits: Limits, start: Book, s: State, e: Event)
    requires limits.Accepted() && EventAccepted(e) && BookAccepted(start) && Kept(limits, start, s)
    ensures Kept(limits, start, Step(limits, s, e))
  {
    match e
    case HaltAsked(reason) =>
      StripIsIdempotent(reason);
    case Resumed =>
    case Signalled(signal, conditions) =>
      ValueIsPositive(signal);
      BookStays(limits, start, s, e);
  }

  /** What an approved purchase leaves is within the limits. */
  lemma KeptBounds(limits: Limits, latch: Latch, signal: OrderSignal, p: Portfolio)
    requires limits.Accepted() && signal.action.Buy? && Assess(limits, latch, signal, p).decision.Approved?
    ensures
      var a := Assess(limits, latch, signal, p);
      && 0.0 <= a.projectedExposure <= limits.maxExposure
      && limits.minimumCash <= a.projectedCash
      && |p.codes + {signal.code}| <= limits.maxPositions
      && signal.code !in p.codes
  {
    assert KeepsAll(limits, latch, signal, p);
    assert !Breaks(limits, latch, signal, p, MaxTotalExposure);
    assert !Breaks(limits, latch, signal, p, MinimumCash);
    assert !Breaks(limits, latch, signal, p, MaxPositionCount);
    assert !Breaks(limits, latch, signal, p, DuplicatePosition);
  }

  lemma BookStays(limits: Limits, start: Book, s: State, e: Event)
    requires limits.Accepted() && e.Signalled? && EventAccepted(e) && BookAccepted(start) && Kept(limits, start, s)
    requires e.signal.OrderValue() > 0.0
    ensures Kept(limits, start, Step(limits, s, e))
  {
    var next := Step(limits, s, e);
    if e.signal.action.Buy? {
      if AssessIn(limits, s, e).decision.Approved? {
        KeptBounds(limits, s.latch, e.signal, PortfolioOf(s.book, e.conditions));
      }
      hide Assess, OrderSignal.OrderValue;
    } else {
      assert next.book.codes <= s.book.codes;
      SubsetSize(next.book.codes, s.book.codes);
    }
  }

  lemma SubsetSize<T>(a: set<T>, b: set<T>)
    requires a <= b
    ensures |a| <= |b|
  {
    assert b == a + (b - a);
  }

  /**
   Over any run the exposure, the cash and the number of positions stay within their
   limits, or within where they started; the book stays acceptable as a snapshot.
   */
  lemma {:induction false} RunsKeepLimits(limits: Limits, start: State, events: seq<Event>)
    requires limits.Accepted() && BookAccepted(start.book) && LatchKept(start.latch)
    requires forall e :: e in events ==> EventAccepted(e)
    ensures Kept(limits, start.book, Replay(limits, start, events))
  {
    if events == [] {
    } else {
      var init, last := events[..|events| - 1], events[|events| - 1];
      assert forall e :: e in init ==> e in events;
      assert last in events;
      RunsKeepLimits(limits, start, init);
      StepKeeps(limits, start.book, Replay(limits, start, init), last);
    }
  }

  /** Cash and exposure together never fall over a run. */
  lemma {:induction false} TotalNeverFalls(limits: Limits, start: State, events: seq<Event>)
    requires limits.Accepted() && BookAccepted(start.book) && LatchKept(start.latch)
    requires forall e :: e in events ==> EventAccepted(e)
    ensures
      var end := Replay(limits, start, events);
      start.book.cash + start.book.exposure <= end.book.cash + end.book.exposure
  {
    if events == [] {
    } else {
      var init, last := events[..|events| - 1], events[|events| - 1];
      assert forall e :: e in init ==> e in events;
      assert last in events;
      TotalNeverFalls(limits, start, init);
      RunsKeepLimits(limits, start, init);
      StepKeepsTotal(limits, Replay(limits, start, init), last);
    }
  }

  lemma StepKeepsTotal(limits: Limits, s: State, e: Event)
    requires BookAccepted(s.book) && EventAccepted(e)
    ensures
      var next := Step(limits, s, e);
      s.book.cash + s.book.exposure <= next.book.cash + next.book.exposure
  {
    if e.Signalled? && AssessIn(limits, s, e).decision.Approved? {
      ApprovalMovesMoney(limits, s.latch, e.signal, PortfolioOf(s.book, e.conditions));
    }
    hide Assess;
  }

  // ---- Orders over time ----

  ghost function Before(limits: Limits, start: State, events: seq<Event>, i: nat): State
    requires i <= |events|
  {
    Replay(limits, start, events[..i])
  }

  lemma BeforeNext(limits: Limits, start: State, events: seq<Event>, i: nat)
    requires i < |events|
    ensures Before(limits, start, events, i + 1) == Step(limits, Before(limits, start, events, i), events[i])
  {
    assert events[..i + 1][..i] == events[..i];
  }

  ghost predicate Bought(limits: Limits, start: State, events: seq<Event>, i: nat, code: string)
    requires i < |events|
  {
    var e := events[i];
    && e.Signalled? && e.signal.action.Buy? && e.signal.code == code
    && AssessIn(limits, Before(limits, start, events, i), e).decision.Approved?
  }

  predicate Closed(events: seq<Event>, i: nat, code: string)
    requires i < |events|
  {
    events[i].Signalled? && !events[i].signal.action.Buy? && events[i].signal.code == code
  }

  /** A bought code stays in the book until it is closed. */
  lemma {:induction false} HeldUntilClosed(
    limits: Limits, start: State, events: seq<Event>, i: nat, j: nat, code: string)
    requires i < j <= |events| && Bought(limits, start, events, i, code)
    requires forall k :: i < k < j ==> !Closed(events, k, code)
    ensures code in Before(limits, start, events, j).book.codes
  {
    hide Assess, Replay;
    BeforeNext(limits, start, events, j - 1);
    if i == j - 1 {
    } else {
      HeldUntilClosed(limits, start, events, i, j - 1, code);
      assert !Closed(events, j - 1, code);
    }
  }

  lemma BoughtUnheldUnhalted(limits: Limits, start: State, events: seq<Event>, i: nat, code: string)
    requires i < |events| && Bought(limits, start, events, i, code)
    ensures code !in Before(limits, start, events, i).book.codes && !Before(limits, start, events, i).latch.halted
  {
    var s, e := Before(limits, start, events, i), events[i];
    assert !Breaks(limits, s.latch, e.signal, PortfolioOf(s.book, e.conditions), DuplicatePosition);
    assert !Breaks(limits, s.latch, e.signal, PortfolioOf(s.book, e.conditions), ManualHalt);
  }

  /** The limits a purchase must keep, in the figures of the moment; a drawdown is one only from a positive peak. */
  ghost predicate WithinLimits(limits: Limits, s: State, e: Event)
    requires e.Signalled?
  {
    var c, value := e.conditions, e.signal.price * (e.signal.quantity as real);
    && !s.latch.halted
    && -limits.maxDailyLoss < c.dailyProfitLoss
    && (if c.peak > 0.0 && c.equity < c.peak then (c.peak - c.equity) / c.peak < limits.maxDrawdownRate
        else 0.0 < limits.maxDrawdownRate)
    && c.losses < limits.maxLosses
    && e.signal.code !in s.book.codes && |s.book.codes| < limits.maxPositions
    && value <= limits.maxPositionValue && s.book.exposure + value <= limits.maxExposure
    && limits.minimumCash <= s.book.cash - value
  }

  /**
   At any point of a run a purchase is approved if and only if it keeps every limit as
   things stand, so nothing is bought at or beyond the day's loss, the drawdown or the
   number of losses allowed; sales and exits are always approved.
   */
  lemma BoughtExactly(limits: Limits, start: State, events: seq<Event>, i: nat)
    requires i < |events| && events[i].Signalled? && EventAccepted(events[i])
    requires BookAccepted(Before(limits, start, events, i).book)
    ensures
      var s, e := Before(limits, start, events, i), events[i];
      AssessIn(limits, s, e).decision.Approved? <==> e.signal.action.Buy? ==> WithinLimits(limits, s, e)
  {
    var s, e := Before(limits, start, events, i), events[i];
    hide Before;
    if e.signal.action.Buy? {
      PurchaseWithinLimits(limits, s, e);
    }
  }

  lemma PurchaseWithinLimits(limits: Limits, s: State, e: Event)
    requires e.Signalled? && e.signal.action.Buy? && EventAccepted(e) && BookAccepted(s.book)
    ensures AssessIn(limits, s, e).decision.Approved? <==> WithinLimits(limits, s, e)
  {
    var p := PortfolioOf(s.book, e.conditions);
    DrawdownBelow(p, limits.maxDrawdownRate);
    RateOfDrawdown(p);
    hide Portfolio.DrawdownRate, Afloat, Assess;
    assert AssessIn(limits, s, e).decision.Approved? <==> KeepsAll(limits, s.latch, e.signal, p) by {
      ApprovedIfKept(limits, s.latch, e.signal, p);
    }
    if KeepsAll(limits, s.latch, e.signal, p) {
      forall reason
        ensures !Breaks(limits, s.latch, e.signal, p, reason)
      {
      }
      assert !Breaks(limits, s.latch, e.signal, p, ManualHalt) && !Breaks(limits, s.latch, e.signal, p, DailyLossLimit);
      assert !Breaks(limits, s.latch, e.signal, p, DrawdownLimit);
      assert !Breaks(limits, s.latch, e.signal, p, ConsecutiveLossLimit);
      assert !Breaks(limits, s.latch, e.signal, p, DuplicatePosition);
      assert !Breaks(limits, s.latch, e.signal, p, MaxPositionCount);
      assert !Breaks(limits, s.latch, e.signal, p, MaxPositionValue);
      assert !Breaks(limits, s.latch, e.signal, p, MaxTotalExposure);
      assert !Breaks(limits, s.latch, e.signal, p, MinimumCash);
    }
  }

  lemma ApprovedIfKept(limits: Limits, latch: Latch, signal: OrderSignal, p: Portfolio)
    requires signal.action.Buy?
    ensures Assess(limits, latch, signal, p).decision.Approved? <==> KeepsAll(limits, latch, signal, p)
  {
    hide Breaks;
  }

  lemma RateOfDrawdown(p: Portfolio)
    requires p.Accepted()
    ensures p.DrawdownRate() == if p.peak > 0.0 && p.equity < p.peak then (p.peak - p.equity) / p.peak else 0.0
  {
    if p.peak > 0.0 {
      var q := (p.peak - p.equity) / p.peak;
      assert q * p.peak == p.peak - p.equity;
      assert q < 0.0 ==> q * p.peak < 0.0;
      assert q > 0.0 ==> q * p.peak > 0.0;
    }
  }

  /** The first limit that a purchase breaks, in the order in which they are looked at. */
  function FirstLimit(limits: Limits, latch: Latch, signal: OrderSignal, p: Portfolio): Reason {
    var value := signal.price * (signal.quantity as real);
    if latch.halted then ManualHalt
    else if p.dailyProfitLoss <= -limits.maxDailyLoss then DailyLossLimit
    else if limits.maxDrawdownRate <= p.DrawdownRate() then DrawdownLimit
    else if limits.maxLosses <= p.losses then ConsecutiveLossLimit
    else if signal.code in p.codes then DuplicatePosition
    else if limits.maxPositions <= |p.codes| then MaxPositionCount
    else if limits.maxPositionValue < value then MaxPositionValue
    else if limits.maxExposure < p.exposure + value then MaxTotalExposure
    else if p.cash - value < limits.minimumCash then MinimumCash
    else AllPassed
  }

  /** A refused purchase names that limit, and it is halted for one of the first four and rejected otherwise. */
  lemma RefusalNamesTheFirst(limits: Limits, latch: Latch, signal: OrderSignal, p: Portfolio)
    requires signal.action.Buy? && p.Accepted() && !Assess(limits, latch, signal, p).decision.Approved?
    ensures
      var a := Assess(limits, latch, signal, p);
      && a.reason == FirstLimit(limits, latch, signal, p)
      && (a.decision.Halted? <==> a.reason in {ManualHalt, DailyLossLimit, DrawdownLimit, ConsecutiveLossLimit})
      && a.orderValue == signal.price * (signal.quantity as real)
  {
    DrawdownBelow(p, limits.maxDrawdownRate);
    hide Portfolio.DrawdownRate, Afloat;
    var first := FirstLimit(limits, latch, signal, p);
    assert FirstBroken(limits, latch, signal, p, first) by {
      assert !KeepsAll(limits, latch, signal, p) by {
        ApprovedIfKept(limits, latch, signal, p);
      }
      hide Assess;
      var broken :| Breaks(limits, latch, signal, p, broken);
    }
    RefusedFor(limits, latch, signal, p, first);
    hide Assess, FirstLimit, FirstBroken;
  }

  /** Between two purchases of the same code it has been sold or exited. */
  lemma NoHeldCodeIsBought(limits: Limits, start: State, events: seq<Event>, i: nat, j: nat, code: string)
    requires i < j < |events|
    requires Bought(limits, start, events, i, code) && Bought(limits, start, events, j, code)
    ensures exists k :: i < k < j && Closed(events, k, code)
  {
    BoughtUnheldUnhalted(limits, start, events, j, code);
    if forall k :: i < k < j ==> !Closed(events, k, code) {
      HeldUntilClosed(limits, start, events, i, j, code);
      assert false;
    }
  }

  /** A halt lasts until it is lifted. */
  lemma {:induction false} HaltLasts(limits: Limits, start: State, events: seq<Event>, i: nat, j: nat)
    requires i < j <= |events| && events[i].HaltAsked? && !Blank(events[i].reason)
    requires forall k :: i < k < j ==> !events[k].Resumed?
    ensures Before(limits, start, events, j).latch.halted
  {
    hide Assess, Before, Blank;
    BeforeNext(limits, start, events, j - 1);
    if i == j - 1 {
    } else {
      HaltLasts(limits, start, events, i, j - 1);
    }
  }

  /** Nothing is bought after a halt before it is lifted. */
  lemma NothingBoughtWhileHalted(limits: Limits, start: State, events: seq<Event>, i: nat, j: nat, code: string)
    requires i < j < |events| && events[i].HaltAsked? && !Blank(events[i].reason)
    requires Bought(limits, start, events, j, code)
    ensures exists k :: i < k < j && events[k].Resumed?
  {
    BoughtUnheldUnhalted(limits, start, events, j, code);
    if forall k :: i < k < j ==> !events[k].Resumed? {
      HaltLasts(limits, start, events, i, j);
      assert false;
    }
  }
}
