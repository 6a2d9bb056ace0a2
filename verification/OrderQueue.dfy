/**
 The order queue and the services at its two ends: signals become orders that
 wait, and orders are submitted and recorded in the order they came.
 */
module OrderQueue {
  import opened Wrappers
  import opened Text
  import opened MarketBars
  import opened SignalEngine
  import opened PaperTrading

  datatype Order = Order(id: string, enqueuedAt: int)

  /** The repositories, the broker and the clock, over their own state. */
  datatype Backends<!B, !P> = Backends(
    create: (B, TradeSignal<P>) -> (B, Outcome<Option<string>, string>),
    stamp: B -> (B, Outcome<int, string>),
    submit: (B, string) -> (B, Outcome<bool, string>),
    saveFill: (B, Order) -> (B, Outcome<Option<string>, string>),
    tick: (B, StockPrice) -> (B, Outcome<(), string>),
    apply: (B, seq<string>) -> (B, Outcome<seq<string>, string>))

  /** The orders that wait, the ids of those that have left the queue, and the backends' state. */
  datatype Floor<B> = Floor(waiting: seq<Order>, gone: seq<string>, back: B)

  const NO_ORDER := "order creation returned no order record"
  const NO_ID := "an order id is needed"
  const REUSED := "the order is already queued"
  const DUPLICATE := "the order id is already queued"
  const NO_RECORD := "no order record after synchronisation"
  const BAD_COUNT := "the number of orders must be positive"

  function Ids(orders: seq<Order>): seq<string> {
    if orders == [] then [] else Ids(orders[..|orders| - 1]) + [orders[|orders| - 1].id]
  }

  ghost predicate DistinctIds(orders: seq<Order>) {
    forall i, j :: 0 <= i < j < |orders| ==> orders[i].id != orders[j].id
  }

  lemma {:induction false} IdMember(orders: seq<Order>, id: string)
    ensures id in Ids(orders) <==> exists o :: o in orders && o.id == id
  {
    if orders == [] {
    } else {
      var init, last := orders[..|orders| - 1], orders[|orders| - 1];
      IdMember(init, id);
      assert forall o :: o in orders <==> o in init || o == last;
    }
  }

  lemma IdsSnoc(orders: seq<Order>, order: Order)
    ensures Ids(orders + [order]) == Ids(orders) + [order.id]
  {
    assert (orders + [order])[..|orders|] == orders;
  }

  lemma {:induction false} IdsFirst(orders: seq<Order>)
    requires orders != []
    ensures Ids(orders) == [orders[0].id] + Ids(orders[1..])
  {
    if |orders| == 1 {
    } else {
      var init := orders[..|orders| - 1];
      IdsFirst(init);
      assert init[1..] == orders[1..][..|orders| - 2];
    }
  }

  // ---- From a signal to a waiting order ----

  function Refused(lenient: bool, text: string): Outcome<QueueResult, string> {
    if lenient then Returned(QueueResult(None, false, true, Some(text))) else Raised(text)
  }

  function Existing(id: string): Outcome<QueueResult, string> {
    Returned(QueueResult(Some(id), false, false, Some(REUSED)))
  }

  /** The order's place in the queue; an id is looked up stripped and stored as it is. */
  function Placed<B, P>(ops: Backends<B, P>, lenient: bool, f: Floor<B>, id: string)
    : (Floor<B>, Outcome<QueueResult, string>)
  {
    if Strip(id) == "" then (f, Refused(lenient, NO_ID))
    else if Strip(id) in Ids(f.waiting) then
      (f, if |f.waiting| == 1 || id in Ids(f.waiting) then Existing(id) else Refused(lenient, ""))
    else
      var (back, at) := ops.stamp(f.back);
      var g := f.(back := back);
      if at.Raised? then (g, Refused(lenient, at.fault))
      else if id in Ids(f.waiting) then (g, Existing(id))
      else (g.(waiting := f.waiting + [Order(id, at.value)]), Returned(QueueResult(Some(id), true, false, None)))
  }

  /** One signal saved, made an order and queued. */
  function EnqueueRun<B, P>(ops: Backends<B, P>, lenient: bool, f: Floor<B>, signal: TradeSignal<P>)
    : (Floor<B>, Outcome<QueueResult, string>)
  {
    var (back, created) := ops.create(f.back, signal);
    var g := f.(back := back);
    if created.Raised? then (g, Refused(lenient, created.fault))
    else if created.value.None? then (g, Refused(lenient, NO_ORDER))
    else Placed(ops, lenient, g, created.value.value)
  }

  // ---- From the queue to the broker ----

  /** The order at the head submitted, and its fill saved. */
  function Attempted<B, P>(ops: Backends<B, P>, back: B, order: Order): (B, Outcome<Option<string>, string>) {
    var (b1, known) := ops.submit(back, order.id);
    if known.Raised? then (b1, Raised(known.fault))
    else if !known.value then (b1, Raised(NO_RECORD))
    else ops.saveFill(b1, order)
  }

  function ItemOf(order: Order, tried: Outcome<Option<string>, string>): Item {
    match tried
    case Returned(record) => Item(order.id, false, record, None)
    case Raised(text) => Item(order.id, true, None, Some(text))
  }

  /** The head leaves the queue, unless its attempt raises and errors are not to be recorded. */
  function NextRun<B, P>(ops: Backends<B, P>, lenient: bool, f: Floor<B>): (Floor<B>, Outcome<Item, string>)
    requires f.waiting != []
  {
    var order := f.waiting[0];
    var (back, tried) := Attempted(ops, f.back, order);
    if tried.Raised? && !lenient then (f.(back := back), Raised(tried.fault))
    else (Floor(f.waiting[1..], f.gone + [order.id], back), Returned(ItemOf(order, tried)))
  }

  function ManyRun<B, P>(ops: Backends<B, P>, lenient: bool, f: Floor<B>, n: nat)
    : (r: (Floor<B>, Outcome<seq<Item>, string>))
    requires n <= |f.waiting|
    ensures r.1.Returned? ==> r.0.waiting == f.waiting[n..]
  {
    if n == 0 then (f, Returned([]))
    else
      var (g, items) := ManyRun(ops, lenient, f, n - 1);
      if items.Raised? then (g, items)
      else
        var (h, item) := NextRun(ops, lenient, g);
        (h, if item.Raised? then Raised(item.fault) else Returned(items.value + [item.value]))
  }

  function AllRun<B, P>(ops: Backends<B, P>, lenient: bool, limit: Option<int>, f: Floor<B>)
    : (Floor<B>, Outcome<seq<Item>, string>)
  {
    if limit.Some? && limit.value <= 0 then (f, Raised(BAD_COUNT))
    else ManyRun(ops, lenient, f,
                 if limit.Some? && limit.value < |f.waiting| then limit.value else |f.waiting|)
  }

  /** The queue and its services as paper trading uses them. */
  function QueueDesk<B, P>(ops: Backends<B, P>, lenient: bool): Desk<Floor<B>, P> {
    Desk(
      (f: Floor<B>, p: StockPrice) => var (back, r) := ops.tick(f.back, p); (f.(back := back), r),
      (f: Floor<B>, s: TradeSignal<P>) => EnqueueRun(ops, lenient, f, s),
      (f: Floor<B>) => AllRun(ops, lenient, None, f),
      (f: Floor<B>, rs: seq<string>) => var (back, r) := ops.apply(f.back, rs); (f.(back := back), r))
  }

  // ---- The queue object ----

  class BacktestOrderQueue {
    var items: seq<Order>
    var orderIds: set<string>
    ghost var gone: seq<string>

    ghost predicate Valid()
      reads this
    {
      DistinctIds(items) && forall id :: id in orderIds <==> id in Ids(items)
    }

    constructor ()
      ensures Valid() && items == [] && gone == []
    {
      items, orderIds, gone := [], {}, [];
    }

    method Enqueue(item: Order) returns (r: Outcome<(), string>)
      requires Valid()
      modifies this
      ensures Valid()
      ensures r == if item.id in Ids(old(items)) then Raised(DUPLICATE) else Returned(())
      ensures items == if item.id in Ids(old(items)) then old(items) else old(items) + [item]
      ensures gone == old(gone)
    {
      if item.id in orderIds {
        return Raised(DUPLICATE);
      }
      IdsSnoc(items, item);
      IdMember(items, item.id);
      items := items + [item];
      orderIds := orderIds + {item.id};
      r := Returned(());
    }

    method Peek() returns (r: Option<Order>)
      requires Valid()
      ensures r == if items == [] then None else Some(items[0])
    {
      r := if items == [] then None else Some(items[0]);
    }

    method Pop() returns (r: Option<Order>)
      requires Valid()
      modifies this
      ensures Valid()
      ensures old(items) == [] ==> r.None? && items == [] && gone == old(gone)
      ensures old(items) != [] ==>
                r == Some(old(items)[0]) && items == old(items)[1..] && gone == old(gone) + [old(items)[0].id]
    {
      if items == [] {
        return None;
      }
      var item := items[0];
      IdsFirst(items);
      IdMember(items[1..], item.id);
      items, orderIds, gone := items[1..], orderIds - {item.id}, gone + [item.id];
      r := Some(item);
    }

    method Contains(orderId: string) returns (r: Outcome<bool, string>)
      requires Valid()
      ensures r == if Strip(orderId) == "" then Raised(NO_ID) else Returned(Strip(orderId) in Ids(items))
    {
      var normalized := Strip(orderId);
      if normalized == "" {
        return Raised(NO_ID);
      }
      r := Returned(normalized in orderIds);
    }
  }

  // ---- The services at its ends ----

  /** What both services share. */
  class Repositories<B> {
    var state: B

    constructor (state: B)
      ensures this.state == state
    {
      this.state := state;
    }
  }

  class BacktestOrderQueueService<B, P> {
    const ops: Backends<B, P>
    const queue: BacktestOrderQueue
    const repositories: Repositories<B>

    constructor (ops: Backends<B, P>, queue: BacktestOrderQueue, repositories: Repositories<B>)
      ensures this.ops == ops && this.queue == queue && this.repositories == repositories
    {
      this.ops, this.queue, this.repositories := ops, queue, repositories;
    }

    method EnqueueSignal(signal: TradeSignal<P>, lenient: bool) returns (r: Outcome<QueueResult, string>)
      requires queue.Valid()
      modifies queue, repositories
      ensures queue.Valid()
      ensures
        (Floor(queue.items, queue.gone, repositories.state), r) ==
        EnqueueRun(ops, lenient, old(Floor(queue.items, queue.gone, repositories.state)), signal)
    {
      var (back, created) := ops.create(repositories.state, signal);
      repositories.state := back;
      if created.Raised? {
        return Refused(lenient, created.fault);
      }
      if created.value.None? {
        return Refused(lenient, NO_ORDER);
      }
      var id := created.value.value;
      var known := queue.Contains(id);
      if known.Raised? {
        return Refused(lenient, known.fault);
      }
      if known.value {
        var found := |queue.items| == 1 || id in Ids(queue.items);
        return if found then Existing(id) else Refused(lenient, "");
      }
      var (back', at) := ops.stamp(repositories.state);
      repositories.state := back';
      if at.Raised? {
        return Refused(lenient, at.fault);
      }
      var queued := queue.Enqueue(Order(id, at.value));
      r := if queued.Raised? then Existing(id) else Returned(QueueResult(Some(id), true, false, None));
    }
  }

  class BacktestQueueExecutionService<B, P> {
    const ops: Backends<B, P>
    const queue: BacktestOrderQueue
    const repositories: Repositories<B>

    constructor (ops: Backends<B, P>, queue: BacktestOrderQueue, repositories: Repositories<B>)
      ensures this.ops == ops && this.queue == queue && this.repositories == repositories
    {
      this.ops, this.queue, this.repositories := ops, queue, repositories;
    }

    method ExecuteNext(lenient: bool) returns (r: Outcome<Option<Item>, string>)
      requires queue.Valid()
      modifies queue, repositories
      ensures queue.Valid()
      ensures old(queue.items) == [] ==>
                r == Returned(None) && queue.items == [] && queue.gone == old(queue.gone) &&
                repositories.state == old(repositories.state)
      ensures old(queue.items) != [] ==>
                var (f, item) := NextRun(ops, lenient, old(Floor(queue.items, queue.gone, repositories.state)));
                && Floor(queue.items, queue.gone, repositories.state) == f
                && r == if item.Raised? then Raised(item.fault) else Returned(Some(item.value))
    {
      var order := queue.Peek();
      if order.None? {
        return Returned(None);
      }
      var tried := Attempt(order.value);
      if tried.Raised? && !lenient {
        return Raised(tried.fault);
      }
      var popped := queue.Pop();
      assert popped == order;
      r := Returned(Some(ItemOf(order.value, tried)));
    }

    method Attempt(order: Order) returns (r: Outcome<Option<string>, string>)
      modifies repositories
      ensures (repositories.state, r) == Attempted(ops, old(repositories.state), order)
    {
      var (back, known) := ops.submit(repositories.state, order.id);
      repositories.state := back;
      if known.Raised? {
        return Raised(known.fault);
      }
      if !known.value {
        return Raised(NO_RECORD);
      }
      var (back', saved) := ops.saveFill(repositories.state, order);
      repositories.state := back';
      r := saved;
    }

    method ExecuteAll(limit: Option<int>, lenient: bool) returns (r: Outcome<seq<Item>, string>)
      requires queue.Valid()
      modifies queue, repositories
      ensures queue.Valid()
      ensures
        (Floor(queue.items, queue.gone, repositories.state), r) ==
        AllRun(ops, lenient, limit, old(Floor(queue.items, queue.gone, repositories.state)))
    {
      if limit.Some? && limit.value <= 0 {
        return Raised(BAD_COUNT);
      }
      var count := |queue.items|;
      if limit.Some? && limit.value < count {
        count := limit.value;
      }
      ghost var f := Floor(queue.items, queue.gone, repositories.state);
      var results: seq<Item> := [];
      for i := 0 to count
        invariant queue.Valid()
        invariant (Floor(queue.items, queue.gone, repositories.state), Returned(results)) == ManyRun(ops, lenient, f, i)
      {
        var item := ExecuteNext(lenient);
        if item.Raised? {
          ManyStops(ops, lenient, f, i + 1, count);
          return Raised(item.fault);
        }
        results := results + [item.value.value];
      }
      r := Returned(results);
    }
  }

  lemma {:induction false} ManyStops<B, P>(ops: Backends<B, P>, lenient: bool, f: Floor<B>, i: nat, n: nat)
    requires i <= n <= |f.waiting| && ManyRun(ops, lenient, f, i).1.Raised?
    ensures ManyRun(ops, lenient, f, n) == ManyRun(ops, lenient, f, i)
  {
    if i == n {
    } else {
      ManyStops(ops, lenient, f, i, n - 1);
    }
  }
}
