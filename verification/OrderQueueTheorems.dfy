/**
 The queue is first in, first out; a call that raises leaves the raising order at its
 head; over any live run every order leaves the queue at most once, in its turn.
 */
module OrderQueueTheorems {
  import opened Wrappers
  import opened Text
  import opened MarketBars
  import opened SignalEngine
  import opened PaperTrading
  import opened PaperTradingTheorems
  import opened LiveOrchestrator
  import opened LivePipelineTheorems
  import opened LiveRunTrace
  import opened OrderQueue
  import Market = MarketMonitor
  import Sorting

  // ---- One call ----

  /** The ids of all orders that ever entered the queue. */
  function Entered<B>(f: Floor<B>): seq<string> {
    f.gone + Ids(f.waiting)
  }

  function Gone<B>(f: Floor<B>): seq<string> {
    f.gone
  }

  /** An order goes to the end of the queue, under an id that does not wait already, or nowhere. */
  lemma PlacedAtEnd<B, P>(ops: Backends<B, P>, lenient: bool, f: Floor<B>, id: string)
    ensures
      var (g, r) := Placed(ops, lenient, f, id);
      && g.gone == f.gone
      && if QueuedId(r) == [] then g.waiting == f.waiting
         else QueuedId(r) == [id] && id !in Ids(f.waiting) &&
              exists order: Order :: order.id == id && g.waiting == f.waiting + [order]
  {
  }

  /** What is queued carries the reading made for it. */
  lemma PlacedInTime<B, P>(ops: Backends<B, P>, lenient: bool, f: Floor<B>, id: string)
    ensures
      var (g, r) := Placed(ops, lenient, f, id);
      QueuedId(r) != [] ==>
        var at := ops.stamp(f.back);
        at.1.Returned? && g == Floor(f.waiting + [Order(id, at.1.value)], f.gone, at.0)
  {
  }

  /** How a signal fares whose order was created under `id`: what is decided, and on what grounds. */
  ghost predicate Decided(lenient: bool, waiting: seq<Order>, id: string, at: Outcome<int, string>,
    r: Outcome<QueueResult, string>)
  {
    var stripped, known := Strip(id), (exists o :: o in waiting && o.id == id);
    var strippedKnown := exists o :: o in waiting && o.id == stripped;
    if stripped == "" then NotQueued(lenient, r, NO_ID)
    else if strippedKnown && !known && |waiting| != 1 then NotQueued(lenient, r, "")
    else if !strippedKnown && at.Raised? then NotQueued(lenient, r, at.fault)
    else if strippedKnown || known then r == Returned(QueueResult(Some(id), false, false, Some(REUSED)))
    else r == Returned(QueueResult(Some(id), true, false, None))
  }

  /** Raised, or recorded as failed, with the text. */
  ghost predicate NotQueued(lenient: bool, r: Outcome<QueueResult, string>, text: string) {
    if lenient then r == Returned(QueueResult(None, false, true, Some(text))) else r == Raised(text)
  }

  /**
   A signal is queued if its order has an id that is not waiting; an order that waits
   already is reused, and all other cases fail: no order, no id, no time, or an id that
   waits only in its stripped form among several.
   */
  lemma EnqueueDecides<B, P>(ops: Backends<B, P>, lenient: bool, f: Floor<B>, signal: TradeSignal<P>)
    ensures
      var created := ops.create(f.back, signal);
      var (g, r) := QueueDesk(ops, lenient).enqueue(f, signal);
      && (if created.1.Raised? then NotQueued(lenient, r, created.1.fault)
          else if created.1.value.None? then NotQueued(lenient, r, NO_ORDER)
          else Decided(lenient, f.waiting, created.1.value.value, ops.stamp(created.0).1, r))
      && (QueuedId(r) == [] ==> g.waiting == f.waiting)
      && (QueuedId(r) != [] ==>
            created.1.Returned? && created.1.value.Some? &&
            var at := ops.stamp(created.0).1;
            at.Returned? && g.waiting == f.waiting + [Order(created.1.value.value, at.value)])
  {
    var created := ops.create(f.back, signal);
    if created.1.Returned? && created.1.value.Some? {
      PlacedAtEnd(ops, lenient, f.(back := created.0), created.1.value.value);
      PlacedInTime(ops, lenient, f.(back := created.0), created.1.value.value);
      IdMember(f.waiting, created.1.value.value);
      IdMember(f.waiting, Strip(created.1.value.value));
      hide Ids, Strip;
    }
  }

  lemma EnqueueEnters<B, P>(ops: Backends<B, P>, lenient: bool, f: Floor<B>, signal: TradeSignal<P>)
    ensures Enters(Entered<B>, Gone<B>, f, EnqueueRun(ops, lenient, f, signal))
    ensures DistinctIds(f.waiting) ==> DistinctIds(EnqueueRun(ops, lenient, f, signal).0.waiting)
  {
    var (g, r) := EnqueueRun(ops, lenient, f, signal);
    var (back, created) := ops.create(f.back, signal);
    if created.Returned? && created.value.Some? {
      var id := created.value.value;
      PlacedAtEnd(ops, lenient, f.(back := back), id);
      if QueuedId(r) != [] {
        var order: Order :| order.id == id && g.waiting == f.waiting + [order];
        IdsSnoc(f.waiting, order);
        IdMember(f.waiting, id);
        assert f.gone + (Ids(f.waiting) + [id]) == f.gone + Ids(f.waiting) + [id];
      }
    }
    hide Placed, Ids;
  }

  lemma ItemsSnoc(items: seq<Item>, item: Item)
    ensures ExecutedIds(items + [item]) == ExecutedIds(items) + [item.orderId]
  {
    assert (items + [item])[..|items|] == items;
  }

  lemma NextLeaves<B, P>(ops: Backends<B, P>, lenient: bool, f: Floor<B>)
    requires f.waiting != []
    ensures
      var (g, item) := NextRun(ops, lenient, f);
      && Entered(g) == Entered(f)
      && (item.Returned? ==>
            item.value.orderId == f.waiting[0].id && g.gone == f.gone + [f.waiting[0].id] &&
            g.waiting == f.waiting[1..])
      && (item.Raised? ==> g.gone == f.gone && g.waiting == f.waiting)
  {
    IdsFirst(f.waiting);
    assert f.gone + ([f.waiting[0].id] + Ids(f.waiting[1..])) == f.gone + [f.waiting[0].id] + Ids(f.waiting[1..]);
  }

  /** Since `f`, what has left is what the items report, and nothing has entered. */
  ghost predicate Reports<B>(f: Floor<B>, g: Floor<B>, items: seq<Item>) {
    Entered(g) == Entered(f) && g.gone == f.gone + ExecutedIds(items)
  }

  lemma OneMoreReported<B, P>(ops: Backends<B, P>, lenient: bool, f: Floor<B>, g: Floor<B>, items: seq<Item>)
    requires g.waiting != [] && Reports(f, g, items)
    ensures
      var (h, item) := NextRun(ops, lenient, g);
      && (item.Returned? ==> Reports(f, h, items + [item.value]))
      && (item.Raised? ==> Reports(f, h, items))
  {
    hide NextRun, Entered, ExecutedIds;
    NextLeaves(ops, lenient, g);
    var next := NextRun(ops, lenient, g).1;
    if next.Returned? {
      ItemsSnoc(items, next.value);
      assert f.gone + ExecutedIds(items) + [next.value.orderId] == f.gone + (ExecutedIds(items) + [next.value.orderId]);
    }
  }

  /** What is executed leaves from the head of the queue; an order that raises stays there. */
  lemma {:induction false} ManyLeave<B, P>(ops: Backends<B, P>, lenient: bool, f: Floor<B>, n: nat)
    requires n <= |f.waiting|
    ensures
      var (g, items) := ManyRun(ops, lenient, f, n);
      if items.Returned? then Reports(f, g, items.value) else exists before :: Reports(f, g, before)
  {
    if n == 0 {
    } else {
      hide NextRun, Reports;
      ManyLeave(ops, lenient, f, n - 1);
      var (g, items) := ManyRun(ops, lenient, f, n - 1);
      if items.Returned? {
        OneMoreReported(ops, lenient, f, g, items.value);
      }
    }
  }

  lemma AllLeave<B, P>(ops: Backends<B, P>, lenient: bool, f: Floor<B>)
    ensures Leaves(Entered<B>, Gone<B>, f, AllRun(ops, lenient, None, f))
  {
    ManyLeave(ops, lenient, f, |f.waiting|);
    var (g, items) := AllRun(ops, lenient, None, f);
    if items.Returned? {
      assert f.waiting[|f.waiting|..] == [];
    }
    hide ManyRun;
  }

  /** The repository's queue and services are first in, first out, and execution that returns drains them. */
  lemma QueueIsFirstInFirstOut<B(!new), P(!new)>(ops: Backends<B, P>, lenient: bool)
    ensures FirstInFirstOut(QueueDesk(ops, lenient), Entered<B>, Gone<B>)
  {
    var desk := QueueDesk(ops, lenient);
    forall f, s
      ensures Enters(Entered<B>, Gone<B>, f, desk.enqueue(f, s))
    {
      EnqueueEnters(ops, lenient, f, s);
    }
    forall f
      ensures Leaves(Entered<B>, Gone<B>, f, desk.execute(f))
    {
      AllLeave(ops, lenient, f);
    }
    hide Enters, Leaves, EnqueueRun, AllRun, Entered;
  }

  // ---- Where execution stops ----

  /** The backends after the orders have been attempted one after another. */
  function BackAfter<B, P>(ops: Backends<B, P>, back: B, orders: seq<Order>): B {
    if orders == [] then back
    else Attempted(ops, BackAfter(ops, back, orders[..|orders| - 1]), orders[|orders| - 1]).0
  }

  /** What attempting the k-th waiting order comes to, after those before it. */
  function AttemptAt<B, P>(ops: Backends<B, P>, f: Floor<B>, k: nat): Outcome<Option<string>, string>
    requires k < |f.waiting|
  {
    Attempted(ops, BackAfter(ops, f.back, f.waiting[..k]), f.waiting[k]).1
  }

  ghost predicate ClearTo<B, P>(ops: Backends<B, P>, f: Floor<B>, k: nat)
    requires k <= |f.waiting|
  {
    forall j :: 0 <= j < k ==> AttemptAt(ops, f, j).Returned?
  }

  /** The first k orders have left, all attempted. */
  ghost predicate HasLeft<B, P>(ops: Backends<B, P>, f: Floor<B>, g: Floor<B>, k: nat)
    requires k <= |f.waiting|
  {
    && g.waiting == f.waiting[k..] && g.gone == f.gone + Ids(f.waiting[..k])
    && g.back == BackAfter(ops, f.back, f.waiting[..k])
  }

  lemma OneMoreLeft<B, P>(ops: Backends<B, P>, lenient: bool, f: Floor<B>, g: Floor<B>, k: nat)
    requires k < |f.waiting| && HasLeft(ops, f, g, k)
    ensures
      var (h, item) := NextRun(ops, lenient, g);
      && (item.Raised? <==> !lenient && AttemptAt(ops, f, k).Raised?)
      && (item.Returned? ==> HasLeft(ops, f, h, k + 1) && item.value == ItemOf(f.waiting[k], AttemptAt(ops, f, k)))
      && (item.Raised? ==>
            && item.fault == AttemptAt(ops, f, k).fault
            && h.waiting == f.waiting[k..] && h.gone == f.gone + Ids(f.waiting[..k]))
  {
    var orders, order := f.waiting[..k], f.waiting[k];
    assert f.waiting[..k + 1] == orders + [order] && (orders + [order])[..k] == orders;
    assert f.waiting[k..][0] == order && f.waiting[k..][1..] == f.waiting[k + 1..];
    IdsSnoc(orders, order);
    hide Attempted, ItemOf, Ids;
  }

  lemma {:induction false} StrictRun<B, P>(ops: Backends<B, P>, f: Floor<B>, n: nat)
    requires n <= |f.waiting|
    ensures
      var (g, items) := ManyRun(ops, false, f, n);
      if ClearTo(ops, f, n) then items.Returned? && HasLeft(ops, f, g, n)
      else items.Raised? && exists k :: StopsAt(ops, f, k, g, items.fault)
  {
    if n == 0 {
      assert f.gone + Ids(f.waiting[..0]) == f.gone;
    } else {
      hide NextRun, HasLeft, AttemptAt, ClearTo, StopsAt;
      StrictRun(ops, f, n - 1);
      ClearToNext(ops, f, n - 1);
      var (g, items) := ManyRun(ops, false, f, n - 1);
      if ClearTo(ops, f, n - 1) {
        OneMoreLeft(ops, false, f, g, n - 1);
        if AttemptAt(ops, f, n - 1).Raised? {
          var (h, item) := NextRun(ops, false, g);
          StopsHere(ops, f, n - 1, h, item.fault);
        }
      }
    }
  }

  lemma ClearToNext<B, P>(ops: Backends<B, P>, f: Floor<B>, n: nat)
    requires n < |f.waiting|
    ensures ClearTo(ops, f, n + 1) <==> ClearTo(ops, f, n) && AttemptAt(ops, f, n).Returned?
  {
    hide AttemptAt;
  }

  lemma StopsHere<B, P>(ops: Backends<B, P>, f: Floor<B>, k: nat, g: Floor<B>, text: string)
    requires k < |f.waiting| && ClearTo(ops, f, k) && AttemptAt(ops, f, k) == Raised(text)
    requires g.waiting == f.waiting[k..] && g.gone == f.gone + Ids(f.waiting[..k])
    ensures StopsAt(ops, f, k, g, text)
  {
  }

  /** Execution stopped at the k-th order: it raised the text and heads the queue, and those before it have left. */
  ghost predicate StopsAt<B, P>(ops: Backends<B, P>, f: Floor<B>, k: int, g: Floor<B>, text: string) {
    && 0 <= k < |f.waiting| && ClearTo(ops, f, k) && AttemptAt(ops, f, k) == Raised(text)
    && g.waiting == f.waiting[k..] && g.gone == f.gone + Ids(f.waiting[..k])
  }

  /**
   When errors are not to be recorded, executing all raises if and only if some
   attempt does; the first such order then heads the queue and waits for the next
   call, while those before it have left although nothing reports them.
   */
  lemma StrictExecutionRaisesExactly<B, P>(ops: Backends<B, P>, f: Floor<B>)
    ensures
      var (g, items) := QueueDesk(ops, false).execute(f);
      && (items.Raised? <==> exists k :: 0 <= k < |f.waiting| && AttemptAt(ops, f, k).Raised?)
      && (items.Raised? ==> exists k :: StopsAt(ops, f, k, g, items.fault))
  {
    StrictRun(ops, f, |f.waiting|);
    hide ManyRun, AttemptAt;
  }

  /** An attempt returns what saving the fill returns, once the broker has taken the order and its record is known. */
  lemma AttemptMeaning<B, P>(ops: Backends<B, P>, back: B, order: Order)
    ensures
      var sent, tried := ops.submit(back, order.id), Attempted(ops, back, order);
      if sent.1.Raised? then tried.0 == sent.0 && tried.1 == Raised(sent.1.fault)
      else if !sent.1.value then tried == (sent.0, Raised(NO_RECORD))
      else tried == ops.saveFill(sent.0, order)
  {
  }

  /** The items report the attempts at the first waiting orders. */
  ghost predicate ItemsShow<B, P>(ops: Backends<B, P>, f: Floor<B>, items: seq<Item>) {
    && |items| <= |f.waiting|
    && forall k :: 0 <= k < |items| ==> items[k] == ItemOf(f.waiting[k], AttemptAt(ops, f, k))
  }

  lemma ItemsShowOneMore<B, P>(ops: Backends<B, P>, f: Floor<B>, items: seq<Item>, item: Item)
    requires ItemsShow(ops, f, items) && |items| < |f.waiting|
    requires item == ItemOf(f.waiting[|items|], AttemptAt(ops, f, |items|))
    ensures ItemsShow(ops, f, items + [item])
  {
    hide AttemptAt, ItemOf;
  }

  lemma {:induction false} LenientRun<B, P>(ops: Backends<B, P>, f: Floor<B>, n: nat)
    requires n <= |f.waiting|
    ensures
      var (g, items) := ManyRun(ops, true, f, n);
      && items.Returned? && |items.value| == n && HasLeft(ops, f, g, n)
      && ItemsShow(ops, f, items.value)
  {
    if n == 0 {
      assert f.gone + Ids(f.waiting[..0]) == f.gone;
    } else {
      hide NextRun, HasLeft, AttemptAt, ItemOf, ItemsShow;
      LenientRun(ops, f, n - 1);
      var (g, items) := ManyRun(ops, true, f, n - 1);
      OneMoreLeft(ops, true, f, g, n - 1);
      ItemsShowOneMore(ops, f, items.value, ItemOf(f.waiting[n - 1], AttemptAt(ops, f, n - 1)));
    }
  }

  /** When errors are recorded, every waiting order leaves and is reported, failed exactly when its attempt raised. */
  lemma LenientExecutionReportsAll<B, P>(ops: Backends<B, P>, f: Floor<B>)
    ensures
      var (g, items) := QueueDesk(ops, true).execute(f);
      && g.waiting == [] && items.Returned? && |items.value| == |f.waiting|
      && forall k :: 0 <= k < |f.waiting| ==>
          var item, tried := items.value[k], AttemptAt(ops, f, k);
          && item.orderId == f.waiting[k].id
          && (item.failed <==> tried.Raised?)
          && item.record == (if tried.Returned? then tried.value else None)
          && item.message == (if tried.Raised? then Some(tried.fault) else None)
  {
    LenientRun(ops, f, |f.waiting|);
    hide ManyRun, AttemptAt;
  }

  /** Backends where the broker takes every order but one. */
  function Refusing(id: string): Backends<int, int> {
    Backends(
      (n: int, s: TradeSignal<int>) => (n, Returned(Some(s.code))),
      (n: int) => (n, Returned(n)),
      (n: int, order: string) => (n, if order == id then Raised("refused") else Returned(true)),
      (n: int, order: Order) => (n + 1, Returned(Some(order.id))),
      (n: int, p: StockPrice) => (n, Returned(())),
      (n: int, rs: seq<string>) => (n, Returned(rs)))
  }

  /** Two orders of which the broker refuses the second: the first is filled, and no result says so. */
  lemma ReportIsLost(first: Order, second: Order)
    requires first.id != second.id
    ensures AllRun(Refusing(second.id), false, None, Floor([first, second], [], 0)) ==
            (Floor([second], [first.id], 1), Raised("refused"))
  {
    var ops, f := Refusing(second.id), Floor([first, second], [], 0);
    assert f.waiting[1..] == [second] && f.gone + [first.id] == [first.id];
    assert NextRun(ops, false, f) ==
           (Floor([second], [first.id], 1), Returned(Item(first.id, false, Some(first.id), None)));
    assert ManyRun(ops, false, f, 0) == (f, Returned([]));
    assert ManyRun(ops, false, f, 1).0 == Floor([second], [first.id], 1);
    assert ManyRun(ops, false, f, 2) == (Floor([second], [first.id], 1), Raised("refused"));
  }

  /** With a limit, execution refuses one that is not positive and otherwise stops after that many orders. */
  lemma LimitedExecution<B, P>(ops: Backends<B, P>, f: Floor<B>, limit: int)
    ensures
      var (g, items) := AllRun(ops, true, Some(limit), f);
      if limit <= 0 then g == f && items == Raised(BAD_COUNT)
      else
        var n := if limit < |f.waiting| then limit else |f.waiting|;
        && items.Returned? && |items.value| == n && HasLeft(ops, f, g, n) && ItemsShow(ops, f, items.value)
  {
    if limit > 0 {
      LenientRun(ops, f, if limit < |f.waiting| then limit else |f.waiting|);
    }
    hide ManyRun, HasLeft, ItemsShow;
  }

  // ---- Over the cycles of live operation ----

  /** What trading does in a cycle. */
  ghost function CycleTrade<S, P, D>(cfg: Config<S, P, D>, codes: seq<string>, lenient: bool, w: World<S, D>)
    : Trade<S, P, D>
  {
    TradeRun(cfg.strategy, cfg.ops, lenient, w.cells, w.desk, CycleBars(cfg, codes, w))
  }

  lemma CycleDesk<S, P, D>(cfg: Config<S, P, D>, codes: seq<string>, lenient: bool, w: World<S, D>, number: int)
    ensures RunCycle(cfg, codes, lenient, w, number).0.desk == CycleTrade(cfg, codes, lenient, w).desk
  {
    hide Market.PollRun, TradeAll, Attempt, RunCycle;
    var at := cfg.now(w.ticks);
    CycleIsItsAttempt(cfg, codes, lenient, w, number);
    AttemptPolls(cfg, codes, lenient, Tick(w), at);
    PollDecides(cfg.setup, w.stored, codes, at, cfg.market(w.ticks + 1));
    NothingTraded(cfg.strategy, cfg.ops, lenient, w.cells, w.desk);
  }

  lemma NothingTraded<S, P, D>(st: Strategy<S, P>, ops: Desk<D, P>, lenient: bool, cells: Cells<S>, desk: D)
    ensures TradeRun(st, ops, lenient, cells, desk, []) == Entering(cells, desk)
  {
  }

  ghost function TradeOf<S, P, D>(cfg: Config<S, P, D>, w: World<S, D>, input: CycleInput): Trade<S, P, D> {
    CycleTrade(cfg, input.codes, input.lenient, Facing(w, input))
  }

  /** The ids queued in the first i cycles, in order. */
  ghost function QueuedOver<S, P, D>(
    cfg: Config<S, P, D>, worlds: seq<World<S, D>>, inputs: seq<CycleInput>, i: nat): seq<string>
    requires |worlds| == |inputs| + 1 && i <= |inputs|
  {
    if i == 0 then []
    else QueuedOver(cfg, worlds, inputs, i - 1) + QueuedIds(TradeOf(cfg, worlds[i - 1], inputs[i - 1]).ledger.queued)
  }

  /** The ids reported as executed in the first i cycles, in order. */
  ghost function ReportedOver<S, P, D>(
    cfg: Config<S, P, D>, worlds: seq<World<S, D>>, inputs: seq<CycleInput>, i: nat): seq<string>
    requires |worlds| == |inputs| + 1 && i <= |inputs|
  {
    if i == 0 then []
    else ReportedOver(cfg, worlds, inputs, i - 1) + ExecutedIds(TradeOf(cfg, worlds[i - 1], inputs[i - 1]).ledger.items)
  }

  /** One more cycle: what it queued has entered, and what it reports has left. */
  lemma CycleMovesOrders<S, P(!new), B(!new)>(
    cfg: Config<S, P, Floor<B>>, ops: Backends<B, P>, recording: bool, w: World<S, Floor<B>>, input: CycleInput)
    requires cfg.ops == QueueDesk(ops, recording)
    ensures
      var x, f := TradeOf(cfg, w, input), Next(cfg, w, input).desk;
      && Entered(f) == Entered(w.desk) + QueuedIds(x.ledger.queued)
      && w.desk.gone + ExecutedIds(x.ledger.items) <= f.gone
      && (x.error.None? ==>
            && f.gone == w.desk.gone + ExecutedIds(x.ledger.items)
            && (QueuedIds(x.ledger.queued) != [] ==> f.waiting == []))
  {
    var at := Facing(w, input);
    CycleDesk(cfg, input.codes, input.lenient, at, input.number);
    QueueIsFirstInFirstOut(ops, recording);
    var x := TradeOf(cfg, w, input);
    EachOrderExecutedOnce(
      cfg.strategy, cfg.ops, Entered<B>, Gone<B>, input.lenient, w.cells, w.desk,
      Sorting.Sort(CycleBars(cfg, input.codes, at), PriceLeq));
    hide FirstInFirstOut, TradeAll, RunCycle, CycleBars, QueuedIds, ExecutedIds;
    if x.error.None? && QueuedIds(x.ledger.queued) != [] {
      assert |Entered(x.desk)| > |Entered(w.desk)|;
      NoneWait(x.desk);
    }
  }

  lemma NoneWait<B>(f: Floor<B>)
    ensures f.gone == Entered(f) ==> f.waiting == []
  {
    IdCount(f.waiting);
  }

  lemma {:induction false} IdCount(orders: seq<Order>)
    ensures |Ids(orders)| == |orders|
  {
    if orders == [] {
    } else {
      IdCount(orders[..|orders| - 1]);
    }
  }

  /**
   Over any sequence of cycles, whatever raised in them, the orders that left the
   queue are the first of those that waited at the start and were queued since, in
   that order and each once; the rest waits. While no cycle's trading ended in an
   error, what left is what was reported.
   */
  lemma {:induction false} OrdersOverCycles<S, P(!new), B(!new)>(
    cfg: Config<S, P, Floor<B>>, ops: Backends<B, P>, recording: bool, worlds: seq<World<S, Floor<B>>>,
    inputs: seq<CycleInput>, i: nat)
    requires Trace(cfg, worlds, inputs) && i <= |inputs| && cfg.ops == QueueDesk(ops, recording)
    ensures
      var start, f := worlds[0].desk, worlds[i].desk;
      && f.gone + Ids(f.waiting) == start.gone + Ids(start.waiting) + QueuedOver(cfg, worlds, inputs, i)
      && start.gone <= f.gone
      && ((forall j :: 0 <= j < i ==> TradeOf(cfg, worlds[j], inputs[j]).error.None?) ==>
            f.gone == start.gone + ReportedOver(cfg, worlds, inputs, i))
  {
    hide TradeOf, Next, QueueDesk;
    if i == 0 {
      assert worlds[0].desk.gone + [] == worlds[0].desk.gone;
      assert Entered(worlds[0].desk) + [] == Entered(worlds[0].desk);
    } else {
      OrdersOverCycles(cfg, ops, recording, worlds, inputs, i - 1);
      CycleMovesOrders(cfg, ops, recording, worlds[i - 1], inputs[i - 1]);
      assert worlds[i] == Next(cfg, worlds[i - 1], inputs[i - 1]);
      var start, queued := worlds[0].desk, QueuedIds(TradeOf(cfg, worlds[i - 1], inputs[i - 1]).ledger.queued);
      var items := ExecutedIds(TradeOf(cfg, worlds[i - 1], inputs[i - 1]).ledger.items);
      Sorting.Associate(Entered(start), QueuedOver(cfg, worlds, inputs, i - 1), queued);
      Sorting.Associate(start.gone, ReportedOver(cfg, worlds, inputs, i - 1), items);
      hide Trace;
    }
  }

  /** The same of any live run: it ends with every order either gone, in its turn, or waiting. */
  lemma RunMovesOrders<S, P(!new), B(!new)>(
    cfg: Config<S, P, Floor<B>>, ops: Backends<B, P>, recording: bool, codes: seq<string>, lenient: bool,
    pollInterval: int, maxCycles: Option<int>, w: World<S, Floor<B>>, horizon: nat)
    returns (worlds: seq<World<S, Floor<B>>>, inputs: seq<CycleInput>)
    requires Ends(cfg, maxCycles, w.asked, horizon) && cfg.ops == QueueDesk(ops, recording)
    ensures Trace(cfg, worlds, inputs) && SamePlace(worlds[0], w) && Numbered(inputs, codes, lenient, 0)
    ensures
      var start, f := w.desk, LiveRun(cfg, codes, lenient, pollInterval, maxCycles, w, horizon).0.desk;
      && f.gone + Ids(f.waiting) == start.gone + Ids(start.waiting) + QueuedOver(cfg, worlds, inputs, |inputs|)
      && start.gone <= f.gone
      && ((forall j :: 0 <= j < |inputs| ==> TradeOf(cfg, worlds[j], inputs[j]).error.None?) ==>
            f.gone == start.gone + ReportedOver(cfg, worlds, inputs, |inputs|))
  {
    worlds, inputs := RunIsTrace(cfg, codes, lenient, pollInterval, maxCycles, w, horizon);
    hide LiveRun, Trace, QueueDesk, QueuedOver, ReportedOver, TradeOf;
    OrdersOverCycles(cfg, ops, recording, worlds, inputs, |inputs|);
  }
}
