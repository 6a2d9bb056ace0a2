/** Five-minute bars, their codes and the order they are handled in. */
module MarketBars {
  import opened Wrappers
  import opened Text
  import opened Sorting

  datatype Quote = Quote(open: real, high: real, low: real, close: real, volume: int)

  /** A bar as the data provider delivers it; times are comparable instants. */
  datatype StockPrice = StockPrice(code: string, time: int, quote: Quote)

  /** A bar as strategies see it, under a validated code. */
  datatype HistoricalBar = HistoricalBar(code: string, openedAt: int, quote: Quote)

  predicate IsDigits(s: string) {
    s != "" && forall i :: 0 <= i < |s| ==> '0' <= s[i] <= '9'
  }

  /** The stripped code, if it is made of four or five digits. */
  function NormalizeCode(code: string): Option<string> {
    var n := Strip(code);
    if IsDigits(n) && |n| in {4, 5} then Some(n) else None
  }

  ghost predicate IsCode(code: string) {
    (|code| == 4 || |code| == 5) && forall i :: 0 <= i < |code| ==> code[i] in "0123456789"
  }

  /** A code is four or five digits, whatever spaces surround it; it is handed on without them. */
  lemma CodeMeaning(raw: string, code: string)
    ensures NormalizeCode(raw) == Some(code) <==>
            IsCode(code) &&
            exists before, after :: AllSpaces(before) && AllSpaces(after) && raw == before + code + after
  {
    DigitMeaning(code);
    if NormalizeCode(raw) == Some(code) {
      var before, after := StripMeaning(raw);
    }
    if before, after :| IsCode(code) && AllSpaces(before) && AllSpaces(after) && raw == before + code + after {
      StripOf(before, code, after);
    }
  }

  lemma DigitMeaning(code: string)
    ensures IsCode(code) <==> IsDigits(code) && |code| in {4, 5}
    ensures IsCode(code) ==> code[0] !in SPACES && code[|code| - 1] !in SPACES
  {
    forall i | 0 <= i < |code|
      ensures code[i] in "0123456789" <==> '0' <= code[i] <= '9'
    {
      OneDigit(code[i]);
    }
    if IsCode(code) {
      OneDigit(code[0]);
      OneDigit(code[|code| - 1]);
    }
  }

  lemma OneDigit(c: char)
    ensures c in "0123456789" <==> '0' <= c <= '9'
    ensures '0' <= c <= '9' ==> c !in SPACES
  {
    var digits := "0123456789";
    if '0' <= c <= '9' {
      assert digits[(c - '0') as int] == c;
    }
  }

  predicate PriceLeq(a: StockPrice, b: StockPrice) {
    a.time < b.time || (a.time == b.time && LexLeq(a.code, b.code))
  }

  lemma PriceOrder()
    ensures TotalPreorder(PriceLeq)
  {
    LexIsTotalOrder();
  }

  /** The bars among the prices whose normalized code is `code`. */
  function BarsOf(prices: seq<StockPrice>, code: string): seq<HistoricalBar> {
    if prices == [] then []
    else
      var init, last := prices[..|prices| - 1], prices[|prices| - 1];
      if NormalizeCode(last.code) == Some(code) then
        BarsOf(init, code) + [HistoricalBar(code, last.time, last.quote)]
      else BarsOf(init, code)
  }

  lemma BarsOfSnoc(prices: seq<StockPrice>, p: StockPrice, code: string)
    ensures BarsOf(prices + [p], code) ==
            if NormalizeCode(p.code) == Some(code)
            then BarsOf(prices, code) + [HistoricalBar(code, p.time, p.quote)]
            else BarsOf(prices, code)
  {
    assert (prices + [p])[..|prices|] == prices;
  }

  lemma {:induction false} BarsOfAppend(a: seq<StockPrice>, b: seq<StockPrice>, code: string)
    ensures BarsOf(a + b, code) == BarsOf(a, code) + BarsOf(b, code)
  {
    hide NormalizeCode;
    if b == [] {
      assert a + b == a;
    } else {
      var init, last := b[..|b| - 1], b[|b| - 1];
      BarsOfAppend(a, init, code);
      assert (a + b)[..|a + b| - 1] == a + init;
    }
  }

  ghost predicate Delivers(p: StockPrice, bar: HistoricalBar) {
    NormalizeCode(p.code) == Some(bar.code) && p.time == bar.openedAt && p.quote == bar.quote
  }

  lemma {:induction false} BarsOfMember(prices: seq<StockPrice>, code: string, bar: HistoricalBar)
    ensures bar in BarsOf(prices, code) <==> bar.code == code && exists p :: p in prices && Delivers(p, bar)
  {
    if prices == [] {
    } else {
      var init, last := prices[..|prices| - 1], prices[|prices| - 1];
      BarsOfMember(init, code, bar);
      assert forall p :: p in prices <==> p in init || p == last;
      if bar.code == code && Delivers(last, bar) {
        assert last in prices;
      }
    }
  }

  ghost predicate TimesOrdered(bars: seq<HistoricalBar>) {
    forall i, j :: 0 <= i < j < |bars| ==> bars[i].openedAt <= bars[j].openedAt
  }

  lemma {:induction false} BarsOfOrdered(prices: seq<StockPrice>, code: string)
    requires Ordered(prices, PriceLeq)
    ensures TimesOrdered(BarsOf(prices, code))
  {
    if prices == [] {
    } else {
      var init, last := prices[..|prices| - 1], prices[|prices| - 1];
      BarsOfOrdered(init, code);
      forall bar | bar in BarsOf(init, code)
        ensures bar.openedAt <= last.time
      {
        BarsOfMember(init, code, bar);
      }
    }
  }

  /** Sorting changes the order of a code's bars, not which they are. */
  lemma BarsOfSorted(prices: seq<StockPrice>, code: string)
    ensures TimesOrdered(BarsOf(Sort(prices, PriceLeq), code))
    ensures forall bar :: bar in BarsOf(Sort(prices, PriceLeq), code) <==> bar in BarsOf(prices, code)
  {
    PriceOrder();
    SortOrdered(prices, PriceLeq);
    SortMembers(prices, PriceLeq);
    BarsOfOrdered(Sort(prices, PriceLeq), code);
    forall bar
      ensures bar in BarsOf(Sort(prices, PriceLeq), code) <==> bar in BarsOf(prices, code)
    {
      BarsOfMember(Sort(prices, PriceLeq), code, bar);
      BarsOfMember(prices, code, bar);
    }
  }

  predicate IsAt(p: StockPrice, t: int, code: string) {
    p.time == t && p.code == code
  }

  /**
   The order in which prices are handled: all of them, by time and then by code in
   dictionary order, and those of one time and code in the order they came.
   */
  lemma HandledInOrder(prices: seq<StockPrice>, t: int, code: string)
    ensures
      var sorted, at := Sort(prices, PriceLeq), (p: StockPrice) => IsAt(p, t, code);
      && multiset(sorted) == multiset(prices)
      && (forall i, j :: 0 <= i < j < |sorted| ==>
            sorted[i].time < sorted[j].time
            || (sorted[i].time == sorted[j].time && LexLeq(sorted[i].code, sorted[j].code)))
      && Keep(sorted, at) == Keep(prices, at)
  {
    var at := (p: StockPrice) => IsAt(p, t, code);
    PriceOrder();
    SortOrdered(prices, PriceLeq);
    KeepSort(prices, PriceLeq, at);
    var kept := Keep(prices, at);
    forall p | p in kept
      ensures IsAt(p, t, code)
    {
      KeepMember(prices, at, p);
    }
    LexIsTotalOrder();
    forall i, j | 0 <= i < j < |kept|
      ensures PriceLeq(kept[i], kept[j])
    {
      assert kept[i] in kept && kept[j] in kept;
    }
    SortFixesOrdered(kept, PriceLeq);
  }
}
