/**
 Driving the engine bar by bar gives what one call on the whole list gives; a
 broken cycle has fed a prefix; every order is executed once, in order.
 */
module PaperTradingTheorems {
  import opened Wrappers
  import opened Sorting
  import opened MarketBars
  import opened SignalEngine
  import opened SignalEngineTheorems
  import opened PaperTrading

  // ---- Bar by bar against all at once ----

  /** The results of the single bars add up to the run over all of them. */
  ghost predicate AddsUp<S, P>(results: seq<ProcessResult<P>>, r: Run<S, P>) {
    && TotalInput(results) == |results|
    && TotalProcessed(results) == r.processed
    && TotalSkipped(results) == r.skipped
    && AllSignals(results) == r.signals
  }

  lemma AddsUpOneMore<S, P>(results: seq<ProcessResult<P>>, r: Run<S, P>, x: Run<S, P>)
    requires AddsUp(results, r)
    ensures AddsUp(results + [Summarize(x, 1)], Join(r, x))
  {
    assert (results + [Summarize(x, 1)])[..|results|] == results;
  }

  lemma OneBar<S, P>(st: Strategy<S, P>, cells: Cells<S>, p: StockPrice)
    ensures ProcessRun(st, cells, [p]) == FeedPrice(st, Idle(cells), p)
  {
    assert Sort([p], PriceLeq) == [p];
    FeedSnoc(st, Idle(cells), [], p);
    assert [] + [p] == [p];
  }

  lemma OneBarMore<S, P, D>(
    st: Strategy<S, P>, ops: Desk<D, P>, lenient: bool, x: Trade<S, P, D>, r: Run<S, P>, p: StockPrice)
    requires x.error.None? && r.error.None? && x.cells == r.cells && AddsUp(x.results, r)
    ensures
      var x', r' := TradePrice(st, ops, lenient, x, p), FeedPrice(st, r, p);
      if ops.tick(x.desk, p).1.Raised? then x'.cells == r.cells && x'.error.Some?
      else
        && x'.cells == r'.cells
        && (r'.error.Some? ==> x'.error == r'.error)
        && (x'.error.None? ==> |x'.results| == |x.results| + 1 && AddsUp(x'.results, r'))
  {
    OneBar(st, x.cells, p);
    FeedPriceJoins(st, r, Idle(x.cells), p);
    assert Join(r, Idle(x.cells)) == r;
    AddsUpOneMore(x.results, r, ProcessRun(st, x.cells, [p]));
  }

  /** How many of the prices reach the engine, the one it may break on included. */
  function FedCount<S, P, D>(
    st: Strategy<S, P>, ops: Desk<D, P>, lenient: bool, x: Trade<S, P, D>, prices: seq<StockPrice>): (k: nat)
    ensures k <= |prices|
  {
    if prices == [] then 0
    else
      var init := TradeAll(st, ops, lenient, x, prices[..|prices| - 1]);
      if init.error.Some? then FedCount(st, ops, lenient, x, prices[..|prices| - 1])
      else if ops.tick(init.desk, prices[|prices| - 1]).1.Raised? then |prices| - 1
      else |prices|
  }

  /** Trading `x` has fed the first k prices, the last of which the engine may have broken on. */
  ghost predicate HasFed<S, P, D>(
    st: Strategy<S, P>, cells: Cells<S>, prices: seq<StockPrice>, k: nat, x: Trade<S, P, D>)
    requires k <= |prices|
  {
    var r := Feed(st, cells, prices[..k]);
    && x.cells == r.cells
    && (k > 0 ==> Feed(st, cells, prices[..k - 1]).error.None?)
    && (x.error.None? ==> k == |prices| && r.error.None? && |x.results| == k && AddsUp(x.results, r))
  }

  lemma FedBefore<S, P, D>(
    st: Strategy<S, P>, cells: Cells<S>, prices: seq<StockPrice>, n: nat, k: nat, x: Trade<S, P, D>)
    requires k <= n <= |prices| && HasFed(st, cells, prices[..n], k, x) && x.error.Some?
    ensures HasFed(st, cells, prices, k, x)
  {
    hide FeedFrom, AddsUp;
    assert prices[..n][..k] == prices[..k];
    if k > 0 {
      assert prices[..n][..k - 1] == prices[..k - 1];
    }
  }

  lemma FedOneMore<S, P, D>(
    st: Strategy<S, P>, ops: Desk<D, P>, lenient: bool, cells: Cells<S>, init: seq<StockPrice>, x: Trade<S, P, D>,
    p: StockPrice)
    requires HasFed(st, cells, init, |init|, x) && x.error.None?
    ensures
      var k := if ops.tick(x.desk, p).1.Raised? then |init| else |init| + 1;
      HasFed(st, cells, init + [p], k, TradePrice(st, ops, lenient, x, p))
  {
    hide FeedFrom, AddsUp, TradePrice, FeedPrice;
    var n, all := |init|, init + [p];
    assert init[..n] == init && all[..n] == init && all[..n + 1] == all;
    FeedSnoc(st, Idle(cells), init, p);
    OneBarMore(st, ops, lenient, x, Feed(st, cells, init), p);
    if n > 0 {
      assert all[..n - 1] == init[..n - 1];
    }
  }

  lemma {:induction false} FedCounted<S, P, D>(
    st: Strategy<S, P>, ops: Desk<D, P>, lenient: bool, cells: Cells<S>, desk: D, prices: seq<StockPrice>)
    ensures
      HasFed(st, cells, prices, FedCount(st, ops, lenient, Entering(cells, desk), prices),
             TradeAll(st, ops, lenient, Entering(cells, desk), prices))
  {
    hide HasFed, TradePrice, FeedFrom, AddsUp;
    if prices == [] {
      NothingFed(st, cells, desk);
    } else {
      var n := |prices| - 1;
      var start, init, p := Entering<S, P, D>(cells, desk), prices[..n], prices[n];
      var k, x := FedCount(st, ops, lenient, start, init), TradeAll(st, ops, lenient, start, init);
      FedCounted(st, ops, lenient, cells, desk, init);
      if x.error.Some? {
        FedBefore(st, cells, prices, n, k, x);
        assert TradeAll(st, ops, lenient, start, prices) == x && FedCount(st, ops, lenient, start, prices) == k;
      } else {
        AllFed(st, cells, init, k, x);
        FedOneMore(st, ops, lenient, cells, init, x, p);
        assert TradeAll(st, ops, lenient, start, prices) == TradePrice(st, ops, lenient, x, p);
        hide TradeAll;
        assert init + [p] == prices;
      }
    }
  }

  lemma NothingFed<S, P, D>(st: Strategy<S, P>, cells: Cells<S>, desk: D)
    ensures HasFed(st, cells, [], 0, Entering<S, P, D>(cells, desk))
  {
  }

  lemma AllFed<S, P, D>(st: Strategy<S, P>, cells: Cells<S>, prices: seq<StockPrice>, k: nat, x: Trade<S, P, D>)
    requires k <= |prices| && HasFed(st, cells, prices, k, x) && x.error.None?
    ensures k == |prices|
  {
  }

  /**
   Whatever raises and wherever: the engine has been fed a prefix of the ordered
   bars, the whole of it if nothing raised, and the results so far add up.
   */
  lemma FeedsAPrefix<S, P, D>(
    st: Strategy<S, P>, ops: Desk<D, P>, lenient: bool, cells: Cells<S>, desk: D, prices: seq<StockPrice>)
    ensures
      var x := TradeAll(st, ops, lenient, Entering(cells, desk), prices);
      var k := FedCount(st, ops, lenient, Entering(cells, desk), prices);
      var r := Feed(st, cells, prices[..k]);
      && x.cells == r.cells
      && (k > 0 ==> Feed(st, cells, prices[..k - 1]).error.None?)
      && (x.error.None? ==> k == |prices| && r.error.None? && |x.results| == k && AddsUp(x.results, r))
  {
    FedCounted(st, ops, lenient, cells, desk, prices);
    hide TradeAll, FedCount, FeedFrom, AddsUp;
  }

  /**
   A cycle in which no stage raises leaves the engine as one call on the whole
   list does, that call returns too, and the combined result is its result.
   */
  lemma PerBarRefinesBatch<S, P, D>(
    st: Strategy<S, P>, ops: Desk<D, P>, lenient: bool, cells: Cells<S>, desk: D, prices: seq<StockPrice>)
    requires TradeRun(st, ops, lenient, cells, desk, prices).error.None?
    ensures
      var x, whole := TradeRun(st, ops, lenient, cells, desk, prices), ProcessRun(st, cells, prices);
      && whole.error.None?
      && x.cells == whole.cells
      && Combine(x.results) == Summarize(whole, |prices|)
      && Combine(x.results).Accepted()
  {
    hide TradeAll, Sort, FedCount, FeedFrom, PriceLeq;
    var ordered := Sort(prices, PriceLeq);
    SortMembers(prices, PriceLeq);
    FeedsAPrefix(st, ops, lenient, cells, desk, ordered);
    assert ordered[..|ordered|] == ordered;
    FeedCounts(st, cells, ordered);
  }

  // ---- Orders leave the queue once, in the order they entered it ----

  function QueuedId(r: Outcome<QueueResult, string>): seq<string> {
    if r.Returned? && r.value.enqueued && !r.value.failed && r.value.orderId.Some? then [r.value.orderId.value] else []
  }

  function QueuedIds(queued: seq<QueueResult>): seq<string> {
    if queued == [] then []
    else QueuedIds(queued[..|queued| - 1]) + QueuedId(Returned(queued[|queued| - 1]))
  }

  function ExecutedIds(items: seq<Item>): seq<string> {
    if items == [] then [] else ExecutedIds(items[..|items| - 1]) + [items[|items| - 1].orderId]
  }

  lemma {:induction false} ExecutedAppend(a: seq<Item>, b: seq<Item>)
    ensures ExecutedIds(a + b) == ExecutedIds(a) + ExecutedIds(b)
  {
    if b == [] {
      assert a + b == a;
    } else {
      ExecutedAppend(a, b[..|b| - 1]);
      assert (a + b)[..|a + b| - 1] == a + b[..|b| - 1];
    }
  }

  /**
   A desk whose orders wait first in, first out: `entered` are the ids that have ever
   entered the queue and `left` those that have left it. Execution that returns empties
   the queue and reports what left it; execution that raises may have taken some out.
   */
  ghost predicate FirstInFirstOut<D(!new), P(!new)>(
    ops: Desk<D, P>, entered: D -> seq<string>, left: D -> seq<string>)
  {
    && (forall d, p :: SameLists(entered, left, d, ops.tick(d, p).0))
    && (forall d, s :: Enters(entered, left, d, ops.enqueue(d, s)))
    && (forall d :: Leaves(entered, left, d, ops.execute(d)))
    && (forall d, rs :: SameLists(entered, left, d, ops.apply(d, rs).0))
  }

  ghost predicate SameLists<D>(entered: D -> seq<string>, left: D -> seq<string>, d: D, d': D) {
    entered(d') == entered(d) && left(d') == left(d)
  }

  ghost predicate Enters<D>(
    entered: D -> seq<string>, left: D -> seq<string>, d: D, result: (D, Outcome<QueueResult, string>))
  {
    entered(result.0) == entered(d) + QueuedId(result.1) && left(result.0) == left(d)
  }

  ghost predicate Leaves<D>(
    entered: D -> seq<string>, left: D -> seq<string>, d: D, result: (D, Outcome<seq<Item>, string>))
  {
    && entered(result.0) == entered(d) && left(d) <= left(result.0) <= entered(d)
    && (result.1.Returned? ==>
          left(result.0) == entered(d) && left(result.0) == left(d) + ExecutedIds(result.1.value))
  }

  /** What was queued since `start` has entered, and what is reported as executed has left. */
  ghost predicate Accounts<D>(entered: D -> seq<string>, left: D -> seq<string>, start: D, d: D, ledger: Ledger) {
    && entered(d) == entered(start) + QueuedIds(ledger.queued)
    && left(start) + ExecutedIds(ledger.items) <= left(d)
  }

  /** All that left is reported, and nothing waits unless nothing was queued and nothing left. */
  ghost predicate Settled<D>(entered: D -> seq<string>, left: D -> seq<string>, start: D, d: D, ledger: Ledger) {
    && left(d) == left(start) + ExecutedIds(ledger.items)
    && (left(d) == entered(d) || SameLists(entered, left, start, d))
  }

  lemma {:induction false} BookKeepsQueue<D(!new), P(!new)>(
    ops: Desk<D, P>, entered: D -> seq<string>, left: D -> seq<string>, lenient: bool, desk: D, ledger: Ledger,
    items: seq<Item>)
    requires FirstInFirstOut(ops, entered, left)
    ensures
      var (d, l, error) := Book(ops, lenient, desk, ledger, items);
      SameLists(entered, left, desk, d) && l.queued == ledger.queued && l.items == ledger.items
  {
    assert SameLists(entered, left, desk, ops.apply(desk, Records(items)).0);
    hide FirstInFirstOut;
  }

  lemma QueuedSnoc(queued: seq<QueueResult>, q: QueueResult)
    ensures QueuedIds(queued + [q]) == QueuedIds(queued) + QueuedId(Returned(q))
  {
    assert (queued + [q])[..|queued|] == queued;
  }

  /** One more order queued. */
  lemma {:induction false} EnterAccounts<D>(
    entered: D -> seq<string>, left: D -> seq<string>, start: D, d: D, ledger: Ledger,
    result: (D, Outcome<QueueResult, string>))
    requires Accounts(entered, left, start, d, ledger) && Enters(entered, left, d, result)
    ensures
      Accounts(entered, left, start, result.0,
               if result.1.Raised? then ledger else ledger.(queued := ledger.queued + [result.1.value]))
  {
    if result.1.Returned? {
      QueuedSnoc(ledger.queued, result.1.value);
      assert entered(start) + QueuedIds(ledger.queued) + QueuedId(result.1) ==
             entered(start) + (QueuedIds(ledger.queued) + QueuedId(result.1));
    }
  }

  /** What waits is executed. */
  lemma {:induction false} LeaveAccounts<D>(
    entered: D -> seq<string>, left: D -> seq<string>, start: D, d: D, ledger: Ledger,
    result: (D, Outcome<seq<Item>, string>))
    requires Accounts(entered, left, start, d, ledger) && Leaves(entered, left, d, result)
    requires left(d) == left(start) + ExecutedIds(ledger.items)
    ensures Accounts(entered, left, start, result.0, ledger)
    ensures
      result.1.Returned? ==>
        var more := ledger.(items := ledger.items + result.1.value);
        Accounts(entered, left, start, result.0, more) && Settled(entered, left, start, result.0, more)
  {
    if result.1.Returned? {
      ExecutedAppend(ledger.items, result.1.value);
      assert left(start) + ExecutedIds(ledger.items) + ExecutedIds(result.1.value) ==
             left(start) + (ExecutedIds(ledger.items) + ExecutedIds(result.1.value));
    }
  }

  lemma {:induction false} DealAccounts<D(!new), P(!new)>(
    ops: Desk<D, P>, entered: D -> seq<string>, left: D -> seq<string>, lenient: bool, start: D, desk: D,
    ledger: Ledger, signal: TradeSignal<P>)
    requires FirstInFirstOut(ops, entered, left)
    requires Accounts(entered, left, start, desk, ledger) && Settled(entered, left, start, desk, ledger)
    ensures
      var (d, l, error) := Deal(ops, lenient, desk, ledger, signal);
      Accounts(entered, left, start, d, l) && (error.None? ==> Settled(entered, left, start, d, l))
  {
    var entering := ops.enqueue(desk, signal);
    assert Enters(entered, left, desk, entering);
    EnterAccounts(entered, left, start, desk, ledger, entering);
    if entering.1.Returned? && !entering.1.value.failed {
      var l1 := ledger.(queued := ledger.queued + [entering.1.value]);
      var leaving := ops.execute(entering.0);
      assert Leaves(entered, left, entering.0, leaving);
      LeaveAccounts(entered, left, start, entering.0, l1, leaving);
      if leaving.1.Returned? {
        BookKeepsQueue(ops, entered, left, lenient, leaving.0,
                       l1.(items := l1.items + leaving.1.value), leaving.1.value);
      }
    }
    hide FirstInFirstOut, QueuedIds, ExecutedIds, Book;
  }

  lemma {:induction false} DealAllAccounts<D(!new), P(!new)>(
    ops: Desk<D, P>, entered: D -> seq<string>, left: D -> seq<string>, lenient: bool, start: D, desk: D,
    ledger: Ledger, signals: seq<TradeSignal<P>>)
    requires FirstInFirstOut(ops, entered, left)
    requires Accounts(entered, left, start, desk, ledger) && Settled(entered, left, start, desk, ledger)
    ensures
      var (d, l, error) := DealAll(ops, lenient, desk, ledger, signals);
      Accounts(entered, left, start, d, l) && (error.None? ==> Settled(entered, left, start, d, l))
  {
    hide FirstInFirstOut, Accounts, Settled, Deal;
    if signals == [] {
    } else {
      var init := signals[..|signals| - 1];
      DealAllAccounts(ops, entered, left, lenient, start, desk, ledger, init);
      var (d, l, error) := DealAll(ops, lenient, desk, ledger, init);
      if error.None? {
        DealAccounts(ops, entered, left, lenient, start, d, l, signals[|signals| - 1]);
      }
    }
  }

  /**
   However a cycle ends, what it queued has entered the queue, behind what waited
   there, and what it reports as executed has left it, in that order. When it
   completes, it reports all that left, and nothing waits if it queued anything.
   */
  lemma {:induction false} EachOrderExecutedOnce<S, P(!new), D(!new)>(
    st: Strategy<S, P>, ops: Desk<D, P>, entered: D -> seq<string>, left: D -> seq<string>, lenient: bool,
    cells: Cells<S>, desk: D, prices: seq<StockPrice>)
    requires FirstInFirstOut(ops, entered, left)
    ensures
      var x := TradeAll(st, ops, lenient, Entering(cells, desk), prices);
      && Accounts(entered, left, desk, x.desk, x.ledger)
      && (x.error.None? ==> Settled(entered, left, desk, x.desk, x.ledger))
  {
    if prices == [] {
    } else {
      hide FirstInFirstOut, Accounts, Settled, TradePrice;
      var init, p := prices[..|prices| - 1], prices[|prices| - 1];
      EachOrderExecutedOnce(st, ops, entered, left, lenient, cells, desk, init);
      var x := TradeAll(st, ops, lenient, Entering(cells, desk), init);
      if x.error.None? {
        PriceAccounts(st, ops, entered, left, lenient, desk, x, p);
      }
    }
  }

  lemma {:induction false} PriceAccounts<S, P(!new), D(!new)>(
    st: Strategy<S, P>, ops: Desk<D, P>, entered: D -> seq<string>, left: D -> seq<string>, lenient: bool,
    start: D, x: Trade<S, P, D>, p: StockPrice)
    requires FirstInFirstOut(ops, entered, left) && x.error.None?
    requires Accounts(entered, left, start, x.desk, x.ledger) && Settled(entered, left, start, x.desk, x.ledger)
    ensures
      var next := TradePrice(st, ops, lenient, x, p);
      && Accounts(entered, left, start, next.desk, next.ledger)
      && (next.error.None? ==> Settled(entered, left, start, next.desk, next.ledger))
  {
    var desk := ops.tick(x.desk, p).0;
    assert SameLists(entered, left, x.desk, desk);
    assert Accounts(entered, left, start, desk, x.ledger) && Settled(entered, left, start, desk, x.ledger);
    hide FirstInFirstOut, Accounts, Settled, DealAll, FeedFrom;
    DealAllAccounts(ops, entered, left, lenient, start, desk, x.ledger, ProcessRun(st, x.cells, [p]).signals);
  }
}
