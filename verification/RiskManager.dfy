/** The gate in front of live orders: limits on the book, loss limits, and a manual halt. */
module RiskManager {
  import opened Wrappers
  import opened Text
  import opened MarketBars

  datatype Action = Buy | Sell | Exit

  datatype OrderSignal = OrderSignal(code: string, action: Action, price: real, quantity: int) {
    /** The checks the signal's constructor makes on the fields the gate reads. */
    predicate Accepted() {
      NormalizeCode(code) == Some(code) && price > 0.0 && quantity > 0
    }

    function OrderValue(): real {
      price * (quantity as real)
    }
  }

  datatype Limits = Limits(
    maxPositions: int, maxPositionValue: real, maxExposure: real, minimumCash: real,
    maxDailyLoss: real, maxDrawdownRate: real, maxLosses: int)
  {
    /** The checks the limits' constructor makes. */
    predicate Accepted() {
      && maxPositions > 0
      && maxPositionValue >= 0.0 && maxExposure >= 0.0 && minimumCash >= 0.0 && maxDailyLoss >= 0.0
      && 0.0 <= maxDrawdownRate <= 1.0
      && maxLosses > 0
    }
  }

  const DEFAULT_LIMITS := Limits(5, 1_000_000.0, 5_000_000.0, 500_000.0, 100_000.0, 0.10, 3)

  datatype Portfolio = Portfolio(
    cash: real, exposure: real, equity: real, peak: real, dailyProfitLoss: real, losses: int, codes: set<string>)
  {
    /** The checks the snapshot's constructor makes. */
    ghost predicate Accepted() {
      && cash >= 0.0 && exposure >= 0.0 && equity >= 0.0 && peak >= 0.0 && losses >= 0
      && forall c :: c in codes ==> NormalizeCode(c) == Some(c)
    }

    function DrawdownRate(): real {
      if peak <= 0.0 || (peak - equity) / peak < 0.0 then 0.0 else (peak - equity) / peak
    }
  }

  datatype Decision = Approved | Rejected | Halted

  datatype Reason =
    | AllPassed | DuplicatePosition | MaxPositionCount | MaxPositionValue | MaxTotalExposure | MinimumCash
    | DailyLossLimit | DrawdownLimit | ConsecutiveLossLimit | ManualHalt

  datatype Assessment = Assessment(
    signal: OrderSignal, decision: Decision, reason: Reason,
    orderValue: real, projectedExposure: real, projectedCash: real, message: string)
  {
    /** The checks the assessment's constructor makes. */
    predicate Accepted() {
      && orderValue >= 0.0 && projectedExposure >= 0.0
      && !Blank(message)
      && (decision.Approved? <==> reason.AllPassed?)
    }
  }

  /** The manual halt: whether it is on, and why. */
  datatype Latch = Latch(halted: bool, reason: Option<string>)

  const RELEASED := Latch(false, None)
  const NO_REASON := "a reason for the halt must be given"

  function Approve(signal: OrderSignal, portfolio: Portfolio, message: string): Assessment {
    var value := if signal.action.Buy? then signal.OrderValue() else -signal.OrderValue();
    var exposure := portfolio.exposure + value;
    Assessment(signal, Approved, AllPassed, signal.OrderValue(),
               if exposure < 0.0 then 0.0 else exposure, portfolio.cash - value, message)
  }

  function Refuse(signal: OrderSignal, portfolio: Portfolio, decision: Decision, reason: Reason, message: string)
    : Assessment
  {
    Assessment(signal, decision, reason, signal.OrderValue(), portfolio.exposure, portfolio.cash, message)
  }

  // ---- The bounds on a purchase ----

  /** The drawdown is below the rate, said without division. */
  predicate Afloat(p: Portfolio, rate: real) {
    rate > 0.0 && (p.peak == 0.0 || (1.0 - rate) * p.peak < p.equity)
  }

  /** The purchase breaks the bound the reason names. */
  predicate Breaks(limits: Limits, latch: Latch, signal: OrderSignal, p: Portfolio, reason: Reason) {
    match reason
    case AllPassed => false
    case ManualHalt => latch.halted
    case DailyLossLimit => p.dailyProfitLoss + limits.maxDailyLoss <= 0.0
    case DrawdownLimit => !Afloat(p, limits.maxDrawdownRate)
    case ConsecutiveLossLimit => limits.maxLosses <= p.losses
    case DuplicatePosition => signal.code in p.codes
    case MaxPositionCount => limits.maxPositions <= |p.codes|
    case MaxPositionValue => limits.maxPositionValue < signal.OrderValue()
    case MaxTotalExposure => limits.maxExposure < p.exposure + signal.OrderValue()
    case MinimumCash => p.cash < limits.minimumCash + signal.OrderValue()
  }

  /** Which of two broken bounds is named: the one with the lower rank. */
  function Rank(reason: Reason): nat {
    match reason
    case ManualHalt => 0
    case DailyLossLimit => 1
    case DrawdownLimit => 2
    case ConsecutiveLossLimit => 3
    case DuplicatePosition => 4
    case MaxPositionCount => 5
    case MaxPositionValue => 6
    case MaxTotalExposure => 7
    case MinimumCash => 8
    case AllPassed => 9
  }

  /** The first four bounds stop trading altogether; the others refuse the one order. */
  predicate Stops(reason: Reason) {
    Rank(reason) <= 3
  }

  ghost predicate KeepsAll(limits: Limits, latch: Latch, signal: OrderSignal, p: Portfolio) {
    forall reason :: !Breaks(limits, latch, signal, p, reason)
  }

  ghost predicate FirstBroken(limits: Limits, latch: Latch, signal: OrderSignal, p: Portfolio, reason: Reason) {
    Breaks(limits, latch, signal, p, reason) &&
    forall other :: Breaks(limits, latch, signal, p, other) ==> Rank(reason) <= Rank(other)
  }

  lemma {:induction false} SomeFirstBroken(
    limits: Limits, latch: Latch, signal: OrderSignal, p: Portfolio, reason: Reason)
    requires Breaks(limits, latch, signal, p, reason)
    ensures exists first :: FirstBroken(limits, latch, signal, p, first)
    decreases Rank(reason)
  {
    hide Breaks;
    if FirstBroken(limits, latch, signal, p, reason) {
    } else {
      var other :| Breaks(limits, latch, signal, p, other) && Rank(other) < Rank(reason);
      SomeFirstBroken(limits, latch, signal, p, other);
    }
  }

  function Message(latch: Latch, reason: Reason): string {
    match reason
    case ManualHalt => if latch.reason.Some? then latch.reason.value else "manual halt"
    case DailyLossLimit => "daily loss limit"
    case DrawdownLimit => "drawdown limit"
    case ConsecutiveLossLimit => "consecutive losses"
    case DuplicatePosition => "duplicate entry"
    case MaxPositionCount => "position count"
    case MaxPositionValue => "position value"
    case MaxTotalExposure => "total exposure"
    case MinimumCash => "minimum cash"
    case AllPassed => "all conditions passed"
  }

  const EXIT_MESSAGE := "exits reduce the position"

  /** Exits pass; a purchase passes if it keeps every bound, and is otherwise refused for the first one it breaks. */
  ghost function Assess(limits: Limits, latch: Latch, signal: OrderSignal, p: Portfolio): Assessment {
    if !signal.action.Buy? then Approve(signal, p, EXIT_MESSAGE)
    else if KeepsAll(limits, latch, signal, p) then Approve(signal, p, Message(latch, AllPassed))
    else
      var broken :| Breaks(limits, latch, signal, p, broken);
      SomeFirstBroken(limits, latch, signal, p, broken);
      var reason :| FirstBroken(limits, latch, signal, p, reason);
      Refuse(signal, p, if Stops(reason) then Halted else Rejected, reason, Message(latch, reason))
  }

  lemma RefusedFor(limits: Limits, latch: Latch, signal: OrderSignal, p: Portfolio, reason: Reason)
    requires signal.action.Buy? && FirstBroken(limits, latch, signal, p, reason)
    ensures Assess(limits, latch, signal, p) ==
            Refuse(signal, p, if Stops(reason) then Halted else Rejected, reason, Message(latch, reason))
  {
    hide Breaks;
    assert forall other :: FirstBroken(limits, latch, signal, p, other) ==> other == reason;
  }

  lemma DrawdownBelow(p: Portfolio, rate: real)
    requires p.Accepted()
    ensures p.DrawdownRate() < rate <==> Afloat(p, rate)
  {
    if p.peak > 0.0 {
      var q := (p.peak - p.equity) / p.peak;
      assert q * p.peak == p.peak - p.equity;
      if q < rate {
        assert (rate - q) * p.peak > 0.0;
      } else {
        assert (q - rate) * p.peak >= 0.0;
      }
      if q < 0.0 {
        assert q * p.peak < 0.0;
      }
    }
  }

  class LiveRiskManager {
    const limits: Limits
    var manualHalt: bool
    var haltReason: Option<string>

    /** Without limits of its own the manager uses the defaults. */
    constructor (limits: Option<Limits>)
      ensures this.limits == if limits.Some? then limits.value else DEFAULT_LIMITS
      ensures Current() == RELEASED
    {
      this.limits := if limits.Some? then limits.value else DEFAULT_LIMITS;
      manualHalt := false;
      haltReason := None;
    }

    function Current(): Latch
      reads this
    {
      Latch(manualHalt, haltReason)
    }

    /** The bounds are looked at one after the other; the first that is broken decides. */
    method AssessSignal(signal: OrderSignal, portfolio: Portfolio) returns (r: Assessment)
      requires portfolio.Accepted()
      ensures r.decision.Approved? <==> signal.action.Buy? ==> KeepsAll(limits, Current(), signal, portfolio)
      ensures !r.decision.Approved? ==> FirstBroken(limits, Current(), signal, portfolio, r.reason)
      ensures r.decision.Halted? <==> !r.decision.Approved? && Stops(r.reason)
      ensures r == Assess(limits, Current(), signal, portfolio)
    {
      if signal.action in {Sell, Exit} {
        return Approve(signal, portfolio, EXIT_MESSAGE);
      }
      DrawdownBelow(portfolio, limits.maxDrawdownRate);
      hide Portfolio.DrawdownRate, OrderSignal.OrderValue, Afloat;
      var value := signal.OrderValue();
      var reason := AllPassed;
      if manualHalt {
        reason := ManualHalt;
      } else if portfolio.dailyProfitLoss <= -limits.maxDailyLoss {
        reason := DailyLossLimit;
      } else if portfolio.DrawdownRate() >= limits.maxDrawdownRate {
        reason := DrawdownLimit;
      } else if portfolio.losses >= limits.maxLosses {
        reason := ConsecutiveLossLimit;
      } else if signal.code in portfolio.codes {
        reason := DuplicatePosition;
      } else if |portfolio.codes| >= limits.maxPositions {
        reason := MaxPositionCount;
      } else if value > limits.maxPositionValue {
        reason := MaxPositionValue;
      } else if portfolio.exposure + value > limits.maxExposure {
        reason := MaxTotalExposure;
      } else if portfolio.cash - value < limits.minimumCash {
        reason := MinimumCash;
      }
      if reason == AllPassed {
        return Approve(signal, portfolio, Message(Current(), AllPassed));
      }
      RefusedFor(limits, Current(), signal, portfolio, reason);
      r := Refuse(signal, portfolio, if Stops(reason) then Halted else Rejected, reason, Message(Current(), reason));
    }

    method Halt(reason: string) returns (r: Outcome<(), string>)
      modifies this
      ensures Blank(reason) ==> r == Raised(NO_REASON) && Current() == old(Current())
      ensures !Blank(reason) ==> r == Returned(()) && Current() == Latch(true, Some(Strip(reason)))
    {
      var normalized := Strip(reason);
      if normalized == "" {
        return Raised(NO_REASON);
      }
      manualHalt := true;
      haltReason := Some(normalized);
      r := Returned(());
    }

    method Resume()
      modifies this
      ensures Current() == RELEASED
    {
      manualHalt := false;
      haltReason := None;
    }
  }
}
