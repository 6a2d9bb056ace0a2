/**
 The paper-trading service: new bars go one at a time through the signal engine,
 and every signal is queued, executed and booked before the next one.
 */
module PaperTrading {
  import opened Wrappers
  import opened Text
  import opened Sorting
  import opened MarketBars
  import opened SignalEngine

  // ---- The services behind the engine ----

  datatype QueueResult = QueueResult(orderId: Option<string>, enqueued: bool, failed: bool, message: Option<string>)

  datatype Item = Item(orderId: string, failed: bool, record: Option<string>, message: Option<string>)

  /** Clock and price updates, the order queue, its execution and the portfolio, over their own state. */
  datatype Desk<!D, !P> = Desk(
    tick: (D, StockPrice) -> (D, Outcome<(), string>),
    enqueue: (D, TradeSignal<P>) -> (D, Outcome<QueueResult, string>),
    execute: D -> (D, Outcome<seq<Item>, string>),
    apply: (D, seq<string>) -> (D, Outcome<seq<string>, string>))

  datatype Ledger = Ledger(queued: seq<QueueResult>, items: seq<Item>, updates: seq<string>)

  const QUEUE_FAILED := "the order could not be queued"
  const EXECUTION_FAILED := "the order could not be executed"

  function MessageOr(message: Option<string>, default: string): string {
    if message.None? || message.value == "" then default else message.value
  }

  function FirstFailed(items: seq<Item>): Option<Item> {
    if items == [] then None else if items[0].failed then Some(items[0]) else FirstFailed(items[1..])
  }

  function Records(items: seq<Item>): seq<string> {
    if items == [] then []
    else Records(items[..|items| - 1]) +
         (if items[|items| - 1].record.Some? then [items[|items| - 1].record.value] else [])
  }

  /** One signal: queued, and unless that failed, everything waiting executed and booked. */
  function Deal<D, P>(ops: Desk<D, P>, lenient: bool, desk: D, ledger: Ledger, signal: TradeSignal<P>)
    : (D, Ledger, Option<string>)
  {
    var (d1, queued) := ops.enqueue(desk, signal);
    if queued.Raised? then (d1, ledger, Some(queued.fault))
    else
      var l1 := ledger.(queued := ledger.queued + [queued.value]);
      if queued.value.failed then
        (d1, l1, if lenient then None else Some(MessageOr(queued.value.message, QUEUE_FAILED)))
      else
        var (d2, executed) := ops.execute(d1);
        if executed.Raised? then (d2, l1, Some(executed.fault))
        else Book(ops, lenient, d2, l1.(items := l1.items + executed.value), executed.value)
  }

  function Book<D, P>(ops: Desk<D, P>, lenient: bool, desk: D, ledger: Ledger, items: seq<Item>)
    : (D, Ledger, Option<string>)
  {
    var failed := FirstFailed(items);
    if failed.Some? && !lenient then (desk, ledger, Some(MessageOr(failed.value.message, EXECUTION_FAILED)))
    else
      var (d, applied) := ops.apply(desk, Records(items));
      if applied.Raised? then (d, ledger, Some(applied.fault))
      else (d, ledger.(updates := ledger.updates + applied.value), None)
  }

  function DealAll<D, P>(ops: Desk<D, P>, lenient: bool, desk: D, ledger: Ledger, signals: seq<TradeSignal<P>>)
    : (D, Ledger, Option<string>)
  {
    if signals == [] then (desk, ledger, None)
    else
      var (d, l, error) := DealAll(ops, lenient, desk, ledger, signals[..|signals| - 1]);
      if error.Some? then (d, l, error) else Deal(ops, lenient, d, l, signals[|signals| - 1])
  }

  // ---- A list of prices ----

  datatype Trade<S, P, D> = Trade(
    cells: Cells<S>, results: seq<ProcessResult<P>>, desk: D, ledger: Ledger, error: Option<string>)

  function TradePrice<S, P, D>(st: Strategy<S, P>, ops: Desk<D, P>, lenient: bool, x: Trade<S, P, D>, p: StockPrice)
    : Trade<S, P, D>
  {
    var (d, ticked) := ops.tick(x.desk, p);
    if ticked.Raised? then x.(desk := d, error := Some(ticked.fault))
    else
      var run := ProcessRun(st, x.cells, [p]);
      if run.error.Some? then x.(desk := d, cells := run.cells, error := run.error)
      else
        var (d', l, error) := DealAll(ops, lenient, d, x.ledger, run.signals);
        Trade(run.cells, x.results + [Summarize(run, 1)], d', l, error)
  }

  function TradeAll<S, P, D>(
    st: Strategy<S, P>, ops: Desk<D, P>, lenient: bool, x: Trade<S, P, D>, prices: seq<StockPrice>)
    : Trade<S, P, D>
  {
    if prices == [] then x
    else
      var init := TradeAll(st, ops, lenient, x, prices[..|prices| - 1]);
      if init.error.Some? then init else TradePrice(st, ops, lenient, init, prices[|prices| - 1])
  }

  // ---- Combining the results of the single bars ----

  function TotalInput<P>(results: seq<ProcessResult<P>>): nat {
    if results == [] then 0 else TotalInput(results[..|results| - 1]) + results[|results| - 1].inputCount
  }

  function TotalProcessed<P>(results: seq<ProcessResult<P>>): nat {
    if results == [] then 0 else TotalProcessed(results[..|results| - 1]) + results[|results| - 1].processedCount
  }

  function TotalSkipped<P>(results: seq<ProcessResult<P>>): nat {
    if results == [] then 0 else TotalSkipped(results[..|results| - 1]) + results[|results| - 1].skippedCount
  }

  function AllSignals<P>(results: seq<ProcessResult<P>>): seq<TradeSignal<P>> {
    if results == [] then [] else AllSignals(results[..|results| - 1]) + results[|results| - 1].signals
  }

  function Combine<P>(results: seq<ProcessResult<P>>): ProcessResult<P> {
    var signals := AllSignals(results);
    ProcessResult(
      if signals != [] then SignalsGenerated else if TotalProcessed(results) > 0 then BarProcessed else NoNewBar,
      TotalInput(results), TotalProcessed(results), TotalSkipped(results), |signals|, signals)
  }

  // ---- The result of one cycle ----

  datatype Status = Completed | Failed

  datatype PaperResult<P> = PaperResult(
    status: Status, signalResult: Option<ProcessResult<P>>, queueResults: seq<QueueResult>,
    items: Option<seq<Item>>, updates: Option<seq<string>>, errorMessage: Option<string>)
  {
    /** The checks the result's constructor makes. */
    predicate Accepted() {
      match status
      case Completed => signalResult.Some? && items.Some? && updates.Some? && errorMessage.None?
      case Failed => errorMessage.Some? && !Blank(errorMessage.value)
    }
  }

  const BAD_LIMIT := "the limit must be greater than zero"
  const NO_MESSAGE := "a failed result needs an error message"

  function Conclude<S, P, D>(x: Trade<S, P, D>, lenient: bool): Outcome<PaperResult<P>, string> {
    if x.error.None? then
      Returned(PaperResult(Completed, Some(Combine(x.results)), x.ledger.queued,
                           Some(x.ledger.items), Some(x.ledger.updates), None))
    else if !lenient then Raised(x.error.value)
    else if Blank(x.error.value) then Raised(NO_MESSAGE)
    else Returned(PaperResult(Failed, None, [], None, None, x.error))
  }

  /** How a call ends, `x` being what trading the prices led to. */
  function CallOutcome<S, P, D>(limit: int, x: Trade<S, P, D>, lenient: bool): Outcome<PaperResult<P>, string> {
    if limit <= 0 then Raised(BAD_LIMIT) else Conclude(x, lenient)
  }

  function Entering<S, P, D>(cells: Cells<S>, desk: D): Trade<S, P, D> {
    Trade(cells, [], desk, Ledger([], [], []), None)
  }

  /** What one call to the service does with the prices. */
  function TradeRun<S, P, D>(
    st: Strategy<S, P>, ops: Desk<D, P>, lenient: bool, cells: Cells<S>, desk: D, prices: seq<StockPrice>)
    : Trade<S, P, D>
  {
    TradeAll(st, ops, lenient, Entering(cells, desk), Sort(prices, PriceLeq))
  }

  // ---- The service object ----

  class RealtimePaperTradingService<S(!new), P(!new), D> {
    const engine: RealtimeSignalEngine<S, P>
    const ops: Desk<D, P>
    var desk: D

    constructor (engine: RealtimeSignalEngine<S, P>, ops: Desk<D, P>, desk: D)
      ensures this.engine == engine && this.ops == ops && this.desk == desk
    {
      this.engine, this.ops, this.desk := engine, ops, desk;
    }

    method Process(prices: seq<StockPrice>, limit: int, lenient: bool)
      returns (r: Outcome<PaperResult<P>, string>)
      requires engine.Valid()
      modifies this, engine
      ensures engine.Valid()
      ensures
        var x := TradeRun(engine.strategy, ops, lenient, old(engine.Cells()), old(desk), prices);
        && r == CallOutcome(limit, x, lenient)
        && (limit <= 0 ==> engine.Cells() == old(engine.Cells()) && desk == old(desk))
        && (limit > 0 ==> engine.Cells() == x.cells && desk == x.desk)
    {
      if limit <= 0 {
        return Raised(BAD_LIMIT);
      }
      var results, ledger, error := TradePrices(Sort(prices, PriceLeq), lenient);
      if error.None? {
        var combined := Combine(results);
        return Returned(PaperResult(
          Completed, Some(combined), ledger.queued, Some(ledger.items), Some(ledger.updates), None));
      }
      if !lenient {
        return Raised(error.value);
      }
      var failed := PaperResult(Failed, None, [], None, None, error);
      r := if failed.Accepted() then Returned(failed) else Raised(NO_MESSAGE);
    }

    /** The loop over the ordered prices. */
    method TradePrices(ordered: seq<StockPrice>, lenient: bool)
      returns (results: seq<ProcessResult<P>>, ledger: Ledger, error: Option<string>)
      requires engine.Valid()
      modifies this, engine
      ensures engine.Valid()
      ensures Trade(engine.Cells(), results, desk, ledger, error) ==
              TradeAll(engine.strategy, ops, lenient, Entering(old(engine.Cells()), old(desk)), ordered)
    {
      results, ledger, error := [], Ledger([], [], []), None;
      for i := 0 to |ordered|
        invariant engine.Valid() && error.None?
        invariant Trade(engine.Cells(), results, desk, ledger, None) ==
                  TradeAll(engine.strategy, ops, lenient, Entering(old(engine.Cells()), old(desk)), ordered[..i])
      {
        assert ordered[..i + 1][..i] == ordered[..i];
        results, ledger, error := TradeOne(ordered[i], lenient, results, ledger);
        if error.Some? {
          TradeEndsAtError(engine.strategy, ops, lenient, Entering(old(engine.Cells()), old(desk)), ordered, i + 1);
          return;
        }
      }
      assert ordered[..|ordered|] == ordered;
    }

    method TradeOne(p: StockPrice, lenient: bool, results: seq<ProcessResult<P>>, ledger: Ledger)
      returns (results': seq<ProcessResult<P>>, ledger': Ledger, error: Option<string>)
      requires engine.Valid()
      modifies this, engine
      ensures engine.Valid()
      ensures Trade(engine.Cells(), results', desk, ledger', error) ==
              TradePrice(engine.strategy, ops, lenient,
                         Trade(old(engine.Cells()), results, old(desk), ledger, None), p)
    {
      results', ledger', error := results, ledger, None;
      var (d, ticked) := ops.tick(desk, p);
      desk := d;
      if ticked.Raised? {
        error := Some(ticked.fault);
        return;
      }
      var processed := engine.Process([p]);
      if processed.Raised? {
        error := Some(processed.fault);
        return;
      }
      results' := results + [processed.value];
      ledger', error := DealSignals(processed.value.signals, lenient, ledger);
    }

    /** The loop over the signals of one bar. */
    method DealSignals(signals: seq<TradeSignal<P>>, lenient: bool, ledger: Ledger)
      returns (ledger': Ledger, error: Option<string>)
      modifies this
      ensures (desk, ledger', error) == DealAll(ops, lenient, old(desk), ledger, signals)
    {
      ledger', error := ledger, None;
      for i := 0 to |signals|
        invariant error.None?
        invariant (desk, ledger', error) == DealAll(ops, lenient, old(desk), ledger, signals[..i])
      {
        assert signals[..i + 1][..i] == signals[..i];
        ledger', error := DealOne(signals[i], lenient, ledger');
        if error.Some? {
          DealEndsAtError(ops, lenient, old(desk), ledger, signals, i + 1);
          return;
        }
      }
      assert signals[..|signals|] == signals;
    }

    method DealOne(signal: TradeSignal<P>, lenient: bool, ledger: Ledger)
      returns (ledger': Ledger, error: Option<string>)
      modifies this
      ensures (desk, ledger', error) == Deal(ops, lenient, old(desk), ledger, signal)
    {
      ledger', error := ledger, None;
      var (d1, queued) := ops.enqueue(desk, signal);
      desk := d1;
      if queued.Raised? {
        error := Some(queued.fault);
        return;
      }
      ledger' := ledger.(queued := ledger.queued + [queued.value]);
      if queued.value.failed {
        error := if lenient then None else Some(MessageOr(queued.value.message, QUEUE_FAILED));
        return;
      }
      var (d2, executed) := ops.execute(desk);
      desk := d2;
      if executed.Raised? {
        error := Some(executed.fault);
        return;
      }
      ledger' := ledger'.(items := ledger'.items + executed.value);
      ledger', error := BookItems(executed.value, lenient, ledger');
    }

    method BookItems(items: seq<Item>, lenient: bool, ledger: Ledger)
      returns (ledger': Ledger, error: Option<string>)
      modifies this
      ensures (desk, ledger', error) == Book(ops, lenient, old(desk), ledger, items)
    {
      ledger', error := ledger, None;
      var failed := FirstFailed(items);
      if failed.Some? && !lenient {
        error := Some(MessageOr(failed.value.message, EXECUTION_FAILED));
        return;
      }
      var (d, applied) := ops.apply(desk, Records(items));
      desk := d;
      if applied.Raised? {
        error := Some(applied.fault);
      } else {
        ledger' := ledger.(updates := ledger.updates + applied.value);
      }
    }
  }

  lemma {:induction false} TradeEndsAtError<S, P, D>(
    st: Strategy<S, P>, ops: Desk<D, P>, lenient: bool, x: Trade<S, P, D>, prices: seq<StockPrice>, i: nat)
    requires i <= |prices| && TradeAll(st, ops, lenient, x, prices[..i]).error.Some?
    ensures TradeAll(st, ops, lenient, x, prices) == TradeAll(st, ops, lenient, x, prices[..i])
  {
    if i < |prices| {
      assert prices[..|prices| - 1][..i] == prices[..i];
      TradeEndsAtError(st, ops, lenient, x, prices[..|prices| - 1], i);
    } else {
      assert prices[..i] == prices;
    }
  }

  lemma {:induction false} DealEndsAtError<D, P>(
    ops: Desk<D, P>, lenient: bool, desk: D, ledger: Ledger, signals: seq<TradeSignal<P>>, i: nat)
    requires i <= |signals| && DealAll(ops, lenient, desk, ledger, signals[..i]).2.Some?
    ensures DealAll(ops, lenient, desk, ledger, signals) == DealAll(ops, lenient, desk, ledger, signals[..i])
  {
    if i < |signals| {
      assert signals[..|signals| - 1][..i] == signals[..i];
      DealEndsAtError(ops, lenient, desk, ledger, signals[..|signals| - 1], i);
    } else {
      assert signals[..i] == signals;
    }
  }
}
