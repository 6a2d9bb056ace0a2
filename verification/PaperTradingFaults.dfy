/** Which failing stage of paper trading decides a call, and when every bar has reached the engine. */
module PaperTradingFaults {
  import opened Wrappers
  import opened Text
  import opened Sorting
  import opened MarketBars
  import opened SignalEngine
  import opened PaperTrading
  import opened PaperTradingTheorems

  /** The fault of the first stage that fails on a bar: the tick, the engine, or the dealing with its signals. */
  function StageFault<S, P, D>(st: Strategy<S, P>, ops: Desk<D, P>, lenient: bool, x: Trade<S, P, D>, p: StockPrice)
    : Option<string>
  {
    var (desk, ticked) := ops.tick(x.desk, p);
    if ticked.Raised? then Some(ticked.fault)
    else
      var run := ProcessRun(st, x.cells, [p]);
      if run.error.Some? then run.error else DealAll(ops, lenient, desk, x.ledger, run.signals).2
  }

  /** What trading had led to when bar `j` came. */
  function At<S, P, D>(
    st: Strategy<S, P>, ops: Desk<D, P>, lenient: bool, x: Trade<S, P, D>, prices: seq<StockPrice>, j: int)
    : Trade<S, P, D>
    requires 0 <= j <= |prices|
  {
    TradeAll(st, ops, lenient, x, prices[..j])
  }

  /** No stage fails on the first `n` bars. */
  ghost predicate ClearUpTo<S, P, D>(
    st: Strategy<S, P>, ops: Desk<D, P>, lenient: bool, x: Trade<S, P, D>, prices: seq<StockPrice>, n: int)
    requires 0 <= n <= |prices|
  {
    forall j :: 0 <= j < n ==> StageFault(st, ops, lenient, At(st, ops, lenient, x, prices, j), prices[j]).None?
  }

  /** Bar `j` is the first on which a stage fails, with this text. */
  ghost predicate FaultAt<S, P, D>(
    st: Strategy<S, P>, ops: Desk<D, P>, lenient: bool, x: Trade<S, P, D>, prices: seq<StockPrice>, j: int,
    text: string)
  {
    && 0 <= j < |prices|
    && ClearUpTo(st, ops, lenient, x, prices, j)
    && StageFault(st, ops, lenient, At(st, ops, lenient, x, prices, j), prices[j]) == Some(text)
  }

  lemma PriceFault<S, P, D>(st: Strategy<S, P>, ops: Desk<D, P>, lenient: bool, x: Trade<S, P, D>, p: StockPrice)
    requires x.error.None?
    ensures TradePrice(st, ops, lenient, x, p).error == StageFault(st, ops, lenient, x, p)
  {
  }

  /** What the first `n` bars do does not depend on the later ones. */
  lemma PrefixFaults<S, P, D>(
    st: Strategy<S, P>, ops: Desk<D, P>, lenient: bool, x: Trade<S, P, D>, prices: seq<StockPrice>, n: int, j: int)
    requires 0 <= j <= n <= |prices|
    ensures At(st, ops, lenient, x, prices[..n], j) == At(st, ops, lenient, x, prices, j)
    ensures ClearUpTo(st, ops, lenient, x, prices[..n], j) <==> ClearUpTo(st, ops, lenient, x, prices, j)
    ensures forall text :: j < n ==>
              (FaultAt(st, ops, lenient, x, prices[..n], j, text) <==> FaultAt(st, ops, lenient, x, prices, j, text))
  {
    hide StageFault, TradeAll;
    forall k | 0 <= k <= j
      ensures At(st, ops, lenient, x, prices[..n], k) == At(st, ops, lenient, x, prices, k)
    {
      assert prices[..n][..k] == prices[..k];
    }
  }

  lemma ClearOneMore<S, P, D>(
    st: Strategy<S, P>, ops: Desk<D, P>, lenient: bool, x: Trade<S, P, D>, prices: seq<StockPrice>, n: int)
    requires 0 <= n < |prices|
    ensures ClearUpTo(st, ops, lenient, x, prices, n + 1) <==>
            && ClearUpTo(st, ops, lenient, x, prices, n)
            && StageFault(st, ops, lenient, At(st, ops, lenient, x, prices, n), prices[n]).None?
  {
    hide StageFault, At;
  }

  /** Trading ends with the fault of the first failing stage, and without one when no stage fails. */
  lemma {:induction false} EndsWithFirstFault<S, P, D>(
    st: Strategy<S, P>, ops: Desk<D, P>, lenient: bool, x: Trade<S, P, D>, prices: seq<StockPrice>)
    requires x.error.None?
    ensures
      var error := TradeAll(st, ops, lenient, x, prices).error;
      && (error.None? ==> ClearUpTo(st, ops, lenient, x, prices, |prices|))
      && (error.Some? ==> exists j :: FaultAt(st, ops, lenient, x, prices, j, error.value))
  {
    hide StageFault, TradePrice, ClearUpTo;
    if prices == [] {
      NoneToClear(st, ops, lenient, x);
    } else {
      var n := |prices| - 1;
      EndsWithFirstFault(st, ops, lenient, x, prices[..n]);
      var before := TradeAll(st, ops, lenient, x, prices[..n]);
      if before.error.Some? {
        var j :| FaultAt(st, ops, lenient, x, prices[..n], j, before.error.value);
        PrefixFaults(st, ops, lenient, x, prices, n, j);
      } else {
        PrefixFaults(st, ops, lenient, x, prices, n, n);
        PriceFault(st, ops, lenient, before, prices[n]);
        ClearOneMore(st, ops, lenient, x, prices, n);
        var error := TradeAll(st, ops, lenient, x, prices).error;
        if error.Some? {
          assert FaultAt(st, ops, lenient, x, prices, n, error.value);
        }
      }
    }
  }

  lemma NoneToClear<S, P, D>(st: Strategy<S, P>, ops: Desk<D, P>, lenient: bool, x: Trade<S, P, D>)
    ensures ClearUpTo(st, ops, lenient, x, [], 0)
  {
  }

  lemma ClearHasNoFault<S, P, D>(
    st: Strategy<S, P>, ops: Desk<D, P>, lenient: bool, x: Trade<S, P, D>, prices: seq<StockPrice>, n: int)
    requires 0 <= n <= |prices|
    ensures ClearUpTo(st, ops, lenient, x, prices, n) <==>
            forall j, text :: j < n ==> !FaultAt(st, ops, lenient, x, prices, j, text)
    decreases n
  {
    hide StageFault, At;
    if n > 0 {
      ClearHasNoFault(st, ops, lenient, x, prices, n - 1);
      ClearOneMore(st, ops, lenient, x, prices, n - 1);
      var fault := StageFault(st, ops, lenient, At(st, ops, lenient, x, prices, n - 1), prices[n - 1]);
      if ClearUpTo(st, ops, lenient, x, prices, n - 1) && fault.Some? {
        assert FaultAt(st, ops, lenient, x, prices, n - 1, fault.value);
      }
    }
  }

  lemma OneFirstFault<S, P, D>(
    st: Strategy<S, P>, ops: Desk<D, P>, lenient: bool, x: Trade<S, P, D>, prices: seq<StockPrice>,
    i: int, s: string, j: int, t: string)
    requires FaultAt(st, ops, lenient, x, prices, i, s) && FaultAt(st, ops, lenient, x, prices, j, t)
    ensures i == j && s == t
  {
    hide StageFault, At;
  }

  /** Trading ends with a text exactly when that is the text of the first failure. */
  lemma EndsExactly<S, P, D>(
    st: Strategy<S, P>, ops: Desk<D, P>, lenient: bool, x: Trade<S, P, D>, prices: seq<StockPrice>, text: string)
    requires x.error.None?
    ensures TradeAll(st, ops, lenient, x, prices).error == Some(text) <==>
            exists j :: FaultAt(st, ops, lenient, x, prices, j, text)
  {
    hide StageFault, At, TradeAll, ClearUpTo, FaultAt;
    EndsWithFirstFault(st, ops, lenient, x, prices);
    ClearHasNoFault(st, ops, lenient, x, prices, |prices|);
    var error := TradeAll(st, ops, lenient, x, prices).error;
    forall j | FaultAt(st, ops, lenient, x, prices, j, text)
      ensures error == Some(text)
    {
      FaultInRange(st, ops, lenient, x, prices, j, text);
      if error.Some? {
        var i :| FaultAt(st, ops, lenient, x, prices, i, error.value);
        OneFirstFault(st, ops, lenient, x, prices, i, error.value, j, text);
      }
    }
  }

  /** The text of the first failure, if it counts: always, or when errors are recorded only if it is blank. */
  ghost predicate Fails<S, P, D>(
    st: Strategy<S, P>, ops: Desk<D, P>, lenient: bool, x: Trade<S, P, D>, prices: seq<StockPrice>)
  {
    exists j, text :: FaultAt(st, ops, lenient, x, prices, j, text) && (lenient ==> Blank(text))
  }

  lemma FailsExactly<S, P, D>(
    st: Strategy<S, P>, ops: Desk<D, P>, lenient: bool, x: Trade<S, P, D>, prices: seq<StockPrice>)
    requires x.error.None?
    ensures
      var error := TradeAll(st, ops, lenient, x, prices).error;
      Fails(st, ops, lenient, x, prices) <==> error.Some? && (lenient ==> Blank(error.value))
  {
    var error := TradeAll(st, ops, lenient, x, prices).error;
    forall text
      ensures error == Some(text) <==> exists j :: FaultAt(st, ops, lenient, x, prices, j, text)
    {
      EndsExactly(st, ops, lenient, x, prices, text);
    }
    hide TradeAll, FaultAt, Blank;
    if error.Some? && (lenient ==> Blank(error.value)) {
      var j :| FaultAt(st, ops, lenient, x, prices, j, error.value);
    }
  }

  /**
   A call raises exactly when the limit is bad, or some stage fails and errors are
   not to be recorded or the text of the first failure is blank. Otherwise its
   result passes its checks and is complete exactly when no stage failed.
   */
  lemma ProcessRaisesExactly<S, P, D>(
    st: Strategy<S, P>, ops: Desk<D, P>, limit: int, lenient: bool, cells: Cells<S>, desk: D, prices: seq<StockPrice>)
    ensures
      var r := CallOutcome(limit, TradeRun(st, ops, lenient, cells, desk, prices), lenient);
      var start, ordered := Entering(cells, desk), Sort(prices, PriceLeq);
      && (r.Raised? <==> limit <= 0 || Fails(st, ops, lenient, start, ordered))
      && (r.Raised? ==>
            if limit <= 0 then r.fault == BAD_LIMIT
            else if lenient then r.fault == NO_MESSAGE
            else exists j :: FaultAt(st, ops, lenient, start, ordered, j, r.fault))
      && (r.Returned? ==>
            && r.value.Accepted()
            && (r.value.status.Completed? <==> ClearUpTo(st, ops, lenient, start, ordered, |ordered|)))
  {
    var start, ordered := Entering(cells, desk), Sort(prices, PriceLeq);
    EndsWithFirstFault(st, ops, lenient, start, ordered);
    FailsExactly(st, ops, lenient, start, ordered);
    ClearEndsWell(st, ops, lenient, start, ordered);
    hide TradeAll, Combine, Sort, ClearUpTo, Fails, Blank;
  }

  lemma ClearEndsWell<S, P, D>(
    st: Strategy<S, P>, ops: Desk<D, P>, lenient: bool, x: Trade<S, P, D>, prices: seq<StockPrice>)
    requires x.error.None?
    ensures ClearUpTo(st, ops, lenient, x, prices, |prices|) ==> TradeAll(st, ops, lenient, x, prices).error.None?
  {
    hide StageFault, At, TradeAll, ClearUpTo, FaultAt;
    EndsWithFirstFault(st, ops, lenient, x, prices);
    ClearHasNoFault(st, ops, lenient, x, prices, |prices|);
    var error := TradeAll(st, ops, lenient, x, prices).error;
    if error.Some? {
      var j :| FaultAt(st, ops, lenient, x, prices, j, error.value);
      FaultInRange(st, ops, lenient, x, prices, j, error.value);
    }
  }

  lemma FaultInRange<S, P, D>(
    st: Strategy<S, P>, ops: Desk<D, P>, lenient: bool, x: Trade<S, P, D>, prices: seq<StockPrice>, j: int,
    text: string)
    requires FaultAt(st, ops, lenient, x, prices, j, text)
    ensures 0 <= j < |prices|
  {
  }

  /**
   Every bar reaches the engine exactly when no stage fails before the last bar
   and the last bar's tick does not fail either.
   */
  lemma FedToTheLast<S, P, D>(
    st: Strategy<S, P>, ops: Desk<D, P>, lenient: bool, x: Trade<S, P, D>, prices: seq<StockPrice>)
    requires x.error.None?
    ensures FedCount(st, ops, lenient, x, prices) == |prices| <==>
            prices == [] ||
            var n := |prices| - 1;
            && ClearUpTo(st, ops, lenient, x, prices, n)
            && ops.tick(At(st, ops, lenient, x, prices, n).desk, prices[n]).1.Returned?
  {
    hide StageFault, TradePrice, ClearUpTo, FaultAt;
    if prices != [] {
      var n := |prices| - 1;
      EndsWithFirstFault(st, ops, lenient, x, prices[..n]);
      ClearHasNoFault(st, ops, lenient, x, prices[..n], n);
      PrefixFaults(st, ops, lenient, x, prices, n, n);
      assert prices[..n][..n] == prices[..n];
      if TradeAll(st, ops, lenient, x, prices[..n]).error.Some? {
        var j :| FaultAt(st, ops, lenient, x, prices[..n], j, TradeAll(st, ops, lenient, x, prices[..n]).error.value);
        FaultInRange(st, ops, lenient, x, prices[..n], j, TradeAll(st, ops, lenient, x, prices[..n]).error.value);
      }
    }
  }

  // ---- A failure without a text ----

  /** A desk whose price update raises without a text. */
  function MuteDesk(): Desk<int, int> {
    Desk((d, p) => (d, Raised("")), (d, s) => (d, Raised("")), d => (d, Returned([])),
         (d, records) => (d, Returned([])))
  }

  /** Although errors are to be recorded, a failure without a text raises. */
  lemma BlankFailureRaises<S>(st: Strategy<S, int>, cells: Cells<S>, p: StockPrice, limit: int)
    requires limit > 0
    ensures CallOutcome(limit, TradeRun(st, MuteDesk(), true, cells, 0, [p]), true) == Raised(NO_MESSAGE)
  {
    var x := Entering<S, int, int>(cells, 0);
    assert Sort([p], PriceLeq) == [p];
    assert TradeAll(st, MuteDesk(), true, x, []) == x;
    assert TradeAll(st, MuteDesk(), true, x, [p]) == TradePrice(st, MuteDesk(), true, x, p);
    assert Blank("");
  }
}
