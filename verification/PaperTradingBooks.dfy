/** What paper trading books: the record of every item it reports, once and in order, and what booking answered. */
module PaperTradingBooks {
  import opened Wrappers
  import opened Text
  import opened Sorting
  import opened MarketBars
  import opened SignalEngine
  import opened PaperTrading
  import opened PaperTradingTheorems
  import opened OrderQueue

  // ---- Records ----

  predicate HasRecord(item: Item) {
    item.record.Some?
  }

  /** The records of the items that have one, in order. */
  function RecordsOf(items: seq<Item>): seq<string> {
    var filled := Keep(items, HasRecord);
    seq(|filled|, i requires 0 <= i < |filled| => if filled[i].record.Some? then filled[i].record.value else "")
  }

  lemma RecordsOfAppend(a: seq<Item>, b: seq<Item>)
    ensures RecordsOf(a + b) == RecordsOf(a) + RecordsOf(b)
  {
    KeepAppend(a, b, HasRecord);
    hide Keep;
  }

  lemma {:induction false} RecordsMeaning(items: seq<Item>)
    ensures Records(items) == RecordsOf(items)
  {
    if items == [] {
    } else {
      var init, last := items[..|items| - 1], items[|items| - 1];
      RecordsMeaning(init);
      RecordsOfAppend(init, [last]);
      assert items == init + [last];
      KeepCons(last, [], HasRecord);
      assert [last] + [] == [last];
    }
  }

  // ---- Booking ----

  /**
   A desk on which `booked` are the records booked so far and `answered` what booking them
   gave: a booking that returns adds to both, and nothing else changes them.
   */
  ghost predicate KeepsBooks<D(!new), P(!new)>(
    ops: Desk<D, P>, booked: D -> seq<string>, answered: D -> seq<string>)
  {
    && (forall d, p :: SameLists(booked, answered, d, ops.tick(d, p).0))
    && (forall d, s :: SameLists(booked, answered, d, ops.enqueue(d, s).0))
    && (forall d :: SameLists(booked, answered, d, ops.execute(d).0))
    && (forall d, rs :: Booked(booked, answered, d, rs, ops.apply(d, rs)))
  }

  ghost predicate Booked<D>(
    booked: D -> seq<string>, answered: D -> seq<string>, d: D, rs: seq<string>,
    result: (D, Outcome<seq<string>, string>))
  {
    result.1.Returned? ==>
      booked(result.0) == booked(d) + rs && answered(result.0) == answered(d) + result.1.value
  }

  /** Since `start`, booked are the records of the ledger's items, and answered are its updates. */
  ghost predicate Balanced<D>(booked: D -> seq<string>, answered: D -> seq<string>, start: D, d: D, ledger: Ledger) {
    && booked(d) == booked(start) + RecordsOf(ledger.items)
    && answered(d) == answered(start) + ledger.updates
  }

  lemma {:induction false} BookBalances<D(!new), P(!new)>(
    ops: Desk<D, P>, booked: D -> seq<string>, answered: D -> seq<string>, lenient: bool, start: D, desk: D,
    ledger: Ledger, items: seq<Item>)
    requires KeepsBooks(ops, booked, answered) && Balanced(booked, answered, start, desk, ledger)
    ensures
      var (d, l, error) := Book(ops, lenient, desk, ledger.(items := ledger.items + items), items);
      error.None? ==> Balanced(booked, answered, start, d, l)
  {
    var applied := ops.apply(desk, Records(items));
    assert Booked(booked, answered, desk, Records(items), applied);
    hide KeepsBooks;
    RecordsMeaning(items);
    RecordsOfAppend(ledger.items, items);
    hide RecordsOf, Records, FirstFailed;
    Associate(booked(start), RecordsOf(ledger.items), RecordsOf(items));
    if applied.1.Returned? {
      Associate(answered(start), ledger.updates, applied.1.value);
    }
  }

  lemma {:induction false} DealBalances<D(!new), P(!new)>(
    ops: Desk<D, P>, booked: D -> seq<string>, answered: D -> seq<string>, lenient: bool, start: D, desk: D,
    ledger: Ledger, signal: TradeSignal<P>)
    requires KeepsBooks(ops, booked, answered) && Balanced(booked, answered, start, desk, ledger)
    ensures
      var (d, l, error) := Deal(ops, lenient, desk, ledger, signal);
      error.None? ==> Balanced(booked, answered, start, d, l)
  {
    var (d1, queued) := ops.enqueue(desk, signal);
    assert SameLists(booked, answered, desk, ops.enqueue(desk, signal).0);
    if queued.Returned? && !queued.value.failed {
      var (d2, executed) := ops.execute(d1);
      assert SameLists(booked, answered, d1, ops.execute(d1).0);
      if executed.Returned? {
        BookBalances(ops, booked, answered, lenient, start, d2,
                     ledger.(queued := ledger.queued + [queued.value]), executed.value);
      }
    }
    hide KeepsBooks, Book, RecordsOf;
  }

  lemma {:induction false} DealAllBalances<D(!new), P(!new)>(
    ops: Desk<D, P>, booked: D -> seq<string>, answered: D -> seq<string>, lenient: bool, start: D, desk: D,
    ledger: Ledger, signals: seq<TradeSignal<P>>)
    requires KeepsBooks(ops, booked, answered) && Balanced(booked, answered, start, desk, ledger)
    ensures
      var (d, l, error) := DealAll(ops, lenient, desk, ledger, signals);
      error.None? ==> Balanced(booked, answered, start, d, l)
  {
    hide KeepsBooks, Balanced, Deal;
    if signals == [] {
    } else {
      var init := signals[..|signals| - 1];
      DealAllBalances(ops, booked, answered, lenient, start, desk, ledger, init);
      var (d, l, error) := DealAll(ops, lenient, desk, ledger, init);
      if error.None? {
        DealBalances(ops, booked, answered, lenient, start, d, l, signals[|signals| - 1]);
      }
    }
  }

  lemma {:induction false} PriceBalances<S, P(!new), D(!new)>(
    st: Strategy<S, P>, ops: Desk<D, P>, booked: D -> seq<string>, answered: D -> seq<string>, lenient: bool,
    start: D, x: Trade<S, P, D>, p: StockPrice)
    requires KeepsBooks(ops, booked, answered) && x.error.None? && Balanced(booked, answered, start, x.desk, x.ledger)
    ensures
      var next := TradePrice(st, ops, lenient, x, p);
      next.error.None? ==> Balanced(booked, answered, start, next.desk, next.ledger)
  {
    var desk := ops.tick(x.desk, p).0;
    assert SameLists(booked, answered, x.desk, desk);
    assert Balanced(booked, answered, start, desk, x.ledger);
    hide KeepsBooks, Balanced, DealAll, FeedFrom;
    DealAllBalances(ops, booked, answered, lenient, start, desk, x.ledger, ProcessRun(st, x.cells, [p]).signals);
  }

  /** Trading that ends without an error has booked exactly the records of the items it reports. */
  lemma {:induction false} TradingBalances<S, P(!new), D(!new)>(
    st: Strategy<S, P>, ops: Desk<D, P>, booked: D -> seq<string>, answered: D -> seq<string>, lenient: bool,
    cells: Cells<S>, desk: D, prices: seq<StockPrice>)
    requires KeepsBooks(ops, booked, answered)
    ensures
      var x := TradeAll(st, ops, lenient, Entering(cells, desk), prices);
      x.error.None? ==> Balanced(booked, answered, desk, x.desk, x.ledger)
  {
    if prices == [] {
      assert RecordsOf([]) == [];
    } else {
      hide KeepsBooks, Balanced, TradePrice;
      var init := prices[..|prices| - 1];
      TradingBalances(st, ops, booked, answered, lenient, cells, desk, init);
      var x := TradeAll(st, ops, lenient, Entering(cells, desk), init);
      if x.error.None? {
        PriceBalances(st, ops, booked, answered, lenient, desk, x, prices[|prices| - 1]);
      }
    }
  }

  /** A completed result hands on what trading led to. */
  lemma CompletedCarries<S, P, D>(limit: int, x: Trade<S, P, D>, lenient: bool)
    requires CallOutcome(limit, x, lenient).Returned? && CallOutcome(limit, x, lenient).value.status.Completed?
    ensures
      var r := CallOutcome(limit, x, lenient).value;
      && x.error.None? && r.signalResult == Some(Combine(x.results)) && r.queueResults == x.ledger.queued
      && r.items == Some(x.ledger.items) && r.updates == Some(x.ledger.updates) && r.errorMessage.None?
  {
    hide Combine;
  }

  /**
   What a completed call reports is what happened: its queue results have entered the
   queue and its items have left it, the items' records are booked, the updates are what
   booking them answered, and its signal result is that of one engine call on all prices.
   */
  lemma CompletedCallReports<S, P(!new), D(!new)>(
    st: Strategy<S, P>, ops: Desk<D, P>, entered: D -> seq<string>, left: D -> seq<string>,
    booked: D -> seq<string>, answered: D -> seq<string>, limit: int, lenient: bool, cells: Cells<S>, desk: D,
    prices: seq<StockPrice>)
    requires FirstInFirstOut(ops, entered, left) && KeepsBooks(ops, booked, answered)
    requires
      var r := CallOutcome(limit, TradeRun(st, ops, lenient, cells, desk, prices), lenient);
      r.Returned? && r.value.status.Completed?
    ensures
      var x := TradeRun(st, ops, lenient, cells, desk, prices);
      var r := CallOutcome(limit, x, lenient).value;
      && r.items.Some? && r.updates.Some?
      && entered(x.desk) == entered(desk) + QueuedIds(r.queueResults)
      && left(x.desk) == left(desk) + ExecutedIds(r.items.value)
      && booked(x.desk) == booked(desk) + RecordsOf(r.items.value)
      && answered(x.desk) == answered(desk) + r.updates.value
      && r.signalResult == Some(Summarize(ProcessRun(st, cells, prices), |prices|))
      && r.errorMessage.None?
  {
    hide TradeAll, Sort, FirstInFirstOut, KeepsBooks, Combine, RecordsOf, ExecutedIds, QueuedIds, FeedFrom, CallOutcome;
    var ordered := Sort(prices, PriceLeq);
    CompletedCarries(limit, TradeRun(st, ops, lenient, cells, desk, prices), lenient);
    EachOrderExecutedOnce(st, ops, entered, left, lenient, cells, desk, ordered);
    TradingBalances(st, ops, booked, answered, lenient, cells, desk, ordered);
    PerBarRefinesBatch(st, ops, lenient, cells, desk, prices);
  }

  /** A failed call reports nothing but its error. */
  lemma FailedCallReports<S, P, D>(limit: int, x: Trade<S, P, D>)
    requires CallOutcome(limit, x, true).Returned? && CallOutcome(limit, x, true).value.status.Failed?
    ensures
      var r := CallOutcome(limit, x, true).value;
      && x.error.Some? && r.errorMessage == x.error
      && r.signalResult.None? && r.queueResults == [] && r.items.None? && r.updates.None?
  {
    hide Combine;
  }

  // ---- How dealing with a signal ends ----

  lemma {:induction false} FirstFailedAt(items: seq<Item>, i: nat)
    requires i < |items| && items[i].failed && forall j :: 0 <= j < i ==> !items[j].failed
    ensures FirstFailed(items) == Some(items[i])
  {
    if i == 0 {
    } else {
      FirstFailedAt(items[1..], i - 1);
    }
  }

  lemma {:induction false} NoneFailed(items: seq<Item>)
    requires forall j :: 0 <= j < |items| ==> !items[j].failed
    ensures FirstFailed(items).None?
  {
    if items == [] {
    } else {
      NoneFailed(items[1..]);
    }
  }

  /** The text of a failure, or the default for a missing or empty one. */
  ghost predicate Says(error: Option<string>, message: Option<string>, default: string) {
    error == Some(if message == None || message == Some("") then default else message.value)
  }

  /** When errors are not to be recorded, an order that could not be queued ends trading with its message. */
  lemma StrictQueueFailureStops<D, P>(ops: Desk<D, P>, desk: D, ledger: Ledger, signal: TradeSignal<P>)
    requires var queued := ops.enqueue(desk, signal).1; queued.Returned? && queued.value.failed
    ensures
      var (entering, after) := (ops.enqueue(desk, signal), Deal(ops, false, desk, ledger, signal));
      && after.0 == entering.0 && after.1 == ledger.(queued := ledger.queued + [entering.1.value])
      && Says(after.2, entering.1.value.message, QUEUE_FAILED)
  {
  }

  /** When errors are not to be recorded, the first failed item ends trading with its message, and nothing is booked. */
  lemma StrictFailureStops<D, P>(ops: Desk<D, P>, desk: D, ledger: Ledger, items: seq<Item>, i: nat)
    requires i < |items| && items[i].failed && forall j :: 0 <= j < i ==> !items[j].failed
    ensures
      var after := Book(ops, false, desk, ledger, items);
      after.0 == desk && after.1 == ledger && Says(after.2, items[i].message, EXECUTION_FAILED)
  {
    FirstFailedAt(items, i);
  }

  /** When errors are recorded, dealing ends in an error exactly when a service raises, with its text. */
  lemma LenientDealRaises<D, P>(ops: Desk<D, P>, desk: D, ledger: Ledger, signal: TradeSignal<P>)
    ensures
      var error := Deal(ops, true, desk, ledger, signal).2;
      var entering := ops.enqueue(desk, signal);
      var leaving := ops.execute(entering.0);
      if entering.1.Raised? then error == Some(entering.1.fault)
      else if entering.1.value.failed then error.None?
      else if leaving.1.Raised? then error == Some(leaving.1.fault)
      else
        var booking := ops.apply(leaving.0, RecordsOf(leaving.1.value));
        error == if booking.1.Raised? then Some(booking.1.fault) else None
  {
    var leaving := ops.execute(ops.enqueue(desk, signal).0);
    if leaving.1.Returned? {
      RecordsMeaning(leaving.1.value);
    }
    hide RecordsOf, Records;
  }

  /** The texts the services write themselves are not blank. */
  lemma OwnTextsSpeak()
    ensures !Blank(QUEUE_FAILED) && !Blank(EXECUTION_FAILED)
    ensures !Blank(BAD_CODE) && !Blank(FUTURE_BAR) && !Blank(BAD_LIMIT)
  {
    assert QUEUE_FAILED[0] == 't';
    NotBlank(QUEUE_FAILED);
    assert EXECUTION_FAILED[0] == 't';
    NotBlank(EXECUTION_FAILED);
    assert BAD_CODE[0] == 't';
    NotBlank(BAD_CODE);
    assert FUTURE_BAR[0] == 't';
    NotBlank(FUTURE_BAR);
    assert BAD_LIMIT[0] == 't';
    NotBlank(BAD_LIMIT);
  }

  lemma QueueTextsSpeak()
    ensures !Blank(NO_ORDER) && !Blank(NO_ID) && !Blank(NO_RECORD) && !Blank(BAD_COUNT)
  {
    assert NO_ORDER[0] == 'o';
    NotBlank(NO_ORDER);
    assert NO_ID[0] == 'a';
    NotBlank(NO_ID);
    assert NO_RECORD[0] == 'n';
    NotBlank(NO_RECORD);
    assert BAD_COUNT[0] == 't';
    NotBlank(BAD_COUNT);
  }

  // ---- The repository's desk ----

  /** On the queue's desk only the portfolio's own bookings count. */
  ghost predicate BackendsKeepBooks<B(!new), P(!new)>(
    ops: Backends<B, P>, booked: B -> seq<string>, answered: B -> seq<string>)
  {
    && (forall b, s :: SameLists(booked, answered, b, ops.create(b, s).0))
    && (forall b :: SameLists(booked, answered, b, ops.stamp(b).0))
    && (forall b, id :: SameLists(booked, answered, b, ops.submit(b, id).0))
    && (forall b, o :: SameLists(booked, answered, b, ops.saveFill(b, o).0))
    && (forall b, p :: SameLists(booked, answered, b, ops.tick(b, p).0))
    && (forall b, rs :: Booked(booked, answered, b, rs, ops.apply(b, rs)))
  }

  lemma {:induction false} ExecutionBooksNothing<B(!new), P(!new)>(
    ops: Backends<B, P>, booked: B -> seq<string>, answered: B -> seq<string>, lenient: bool, f: Floor<B>, n: nat)
    requires BackendsKeepBooks(ops, booked, answered) && n <= |f.waiting|
    ensures SameLists(booked, answered, f.back, ManyRun(ops, lenient, f, n).0.back)
  {
    if n == 0 {
    } else {
      ExecutionBooksNothing(ops, booked, answered, lenient, f, n - 1);
      var (g, items) := ManyRun(ops, lenient, f, n - 1);
      if items.Returned? {
        var order := g.waiting[0];
        assert SameLists(booked, answered, g.back, ops.submit(g.back, order.id).0);
        var b := ops.submit(g.back, order.id).0;
        assert SameLists(booked, answered, b, ops.saveFill(b, order).0);
      }
      hide BackendsKeepBooks;
    }
  }

  lemma EnqueueBooksNothing<B(!new), P(!new)>(
    ops: Backends<B, P>, booked: B -> seq<string>, answered: B -> seq<string>, lenient: bool, f: Floor<B>,
    signal: TradeSignal<P>)
    requires BackendsKeepBooks(ops, booked, answered)
    ensures SameLists(booked, answered, f.back, EnqueueRun(ops, lenient, f, signal).0.back)
  {
    var b := ops.create(f.back, signal).0;
    assert SameLists(booked, answered, f.back, b);
    assert SameLists(booked, answered, b, ops.stamp(b).0);
    hide BackendsKeepBooks;
  }

  lemma QueueDeskKeepsBooks<B(!new), P(!new)>(
    ops: Backends<B, P>, booked: B -> seq<string>, answered: B -> seq<string>, lenient: bool)
    requires BackendsKeepBooks(ops, booked, answered)
    ensures KeepsBooks(QueueDesk(ops, lenient), (f: Floor<B>) => booked(f.back), (f: Floor<B>) => answered(f.back))
  {
    var desk := QueueDesk(ops, lenient);
    var onFloor, answeredOn := (f: Floor<B>) => booked(f.back), (f: Floor<B>) => answered(f.back);
    forall f, s
      ensures SameLists(onFloor, answeredOn, f, desk.enqueue(f, s).0)
    {
      EnqueueBooksNothing(ops, booked, answered, lenient, f, s);
    }
    forall f
      ensures SameLists(onFloor, answeredOn, f, desk.execute(f).0)
    {
      ExecutionBooksNothing(ops, booked, answered, lenient, f, |f.waiting|);
    }
    forall f, p
      ensures SameLists(onFloor, answeredOn, f, desk.tick(f, p).0)
    {
      assert SameLists(booked, answered, f.back, ops.tick(f.back, p).0);
    }
    forall f, rs
      ensures Booked(onFloor, answeredOn, f, rs, desk.apply(f, rs))
    {
      assert Booked(booked, answered, f.back, rs, ops.apply(f.back, rs));
    }
    hide BackendsKeepBooks;
  }
}
