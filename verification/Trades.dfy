/** Trades in the one order candles and bars share: venue, symbol, exchange time, receive time, venue id. */
module Trades {
  import opened Prelude
  import opened Sorting

  const SCALE := 100_000_000

  /** A `gold.trades` row; times are microseconds (exchange) and nanoseconds (receive). */
  datatype Trade = Trade(exchange: string, symbol: string, ts: int, recvNs: int, seqNo: int, price: int, qty: int)

  /** Python's `<=` on strings. */
  predicate StringLe(a: string, b: string) {
    a == [] || (b != [] && (a[0] < b[0] || (a[0] == b[0] && StringLe(a[1..], b[1..]))))
  }

  lemma {:induction false} StringTotal(a: string, b: string)
    ensures StringLe(a, b) || StringLe(b, a)
  {
    if a != [] && b != [] { StringTotal(a[1..], b[1..]); }
  }

  lemma {:induction false} StringTrans(a: string, b: string, c: string)
    requires StringLe(a, b) && StringLe(b, c)
    ensures StringLe(a, c)
  {
    if a != [] && a[0] == b[0] && b[0] == c[0] { StringTrans(a[1..], b[1..], c[1..]); }
  }

  lemma {:induction false} StringAnti(a: string, b: string)
    requires StringLe(a, b) && StringLe(b, a)
    ensures a == b
  {
    if a != [] {
      StringAnti(a[1..], b[1..]);
      assert a == [a[0]] + a[1..] && b == [b[0]] + b[1..];
    }
  }

  /** Tuple comparison on the order key. */
  predicate TradeLe(a: Trade, b: Trade) {
    if a.exchange != b.exchange then StringLe(a.exchange, b.exchange)
    else if a.symbol != b.symbol then StringLe(a.symbol, b.symbol)
    else if a.ts != b.ts then a.ts < b.ts
    else if a.recvNs != b.recvNs then a.recvNs < b.recvNs
    else a.seqNo <= b.seqNo
  }

  lemma {:induction false} TradeTrans(a: Trade, b: Trade, c: Trade)
    requires TradeLe(a, b) && TradeLe(b, c)
    ensures TradeLe(a, c)
  {
    if a.exchange != b.exchange || b.exchange != c.exchange {
      StringTotal(a.exchange, a.exchange);
      StringTotal(c.exchange, c.exchange);
      StringTrans(a.exchange, b.exchange, c.exchange);
      if a.exchange == c.exchange { StringAnti(a.exchange, b.exchange); }
    } else if a.symbol != b.symbol || b.symbol != c.symbol {
      StringTotal(a.symbol, a.symbol);
      StringTotal(c.symbol, c.symbol);
      StringTrans(a.symbol, b.symbol, c.symbol);
      if a.symbol == c.symbol { StringAnti(a.symbol, b.symbol); }
    }
  }

  lemma {:induction false} TradeOrder()
    ensures TotalPreorder(TradeLe)
  {
    forall a: Trade, b: Trade ensures TradeLe(a, b) || TradeLe(b, a) {
      StringTotal(a.exchange, b.exchange);
      StringTotal(a.symbol, b.symbol);
    }
    forall a: Trade, b: Trade, c: Trade | TradeLe(a, b) && TradeLe(b, c) ensures TradeLe(a, c) {
      TradeTrans(a, b, c);
    }
  }

  // ---- selecting trades ----

  /** The trades among the first `n` that satisfy `p`, in order. */
  function Filter(p: Trade -> bool, xs: seq<Trade>, n: nat): seq<Trade>
    requires n <= |xs|
  {
    if n == 0 then [] else Filter(p, xs, n - 1) + (if p(xs[n - 1]) then [xs[n - 1]] else [])
  }

  function Where(p: Trade -> bool, xs: seq<Trade>): seq<Trade> {
    Filter(p, xs, |xs|)
  }

  lemma {:induction false} FilterPrefix(p: Trade -> bool, xs: seq<Trade>, ys: seq<Trade>, n: nat)
    requires n <= |xs| && n <= |ys| && forall i :: 0 <= i < n ==> xs[i] == ys[i]
    ensures Filter(p, xs, n) == Filter(p, ys, n)
  {
    if n > 0 { FilterPrefix(p, xs, ys, n - 1); }
  }

  lemma {:induction false} WhereAppend(p: Trade -> bool, xs: seq<Trade>, x: Trade)
    ensures Where(p, xs + [x]) == if p(x) then Where(p, xs) + [x] else Where(p, xs)
  {
    FilterPrefix(p, xs + [x], xs, |xs|);
  }

  lemma {:induction false} FilterMeans(p: Trade -> bool, xs: seq<Trade>, n: nat, x: Trade)
    requires n <= |xs|
    ensures x in Filter(p, xs, n) <==> p(x) && x in xs[..n]
  {
    if n > 0 {
      FilterMeans(p, xs, n - 1, x);
      assert xs[..n] == xs[..n - 1] + [xs[n - 1]];
    }
  }

  lemma {:induction false} WhereMeans(p: Trade -> bool, xs: seq<Trade>, x: Trade)
    ensures x in Where(p, xs) <==> p(x) && x in xs
  {
    FilterMeans(p, xs, |xs|, x);
    assert xs[..|xs|] == xs;
  }

  /** Everything in a sorted sequence is at most `x` when its last element is. */
  lemma {:induction false} InsertAtEnd(s: seq<Trade>, x: Trade)
    requires forall y :: y in s ==> TradeLe(y, x)
    ensures Insert(TradeLe, s, x) == s + [x]
  {
    if s != [] { assert s[|s| - 1] in s; }
  }

  /** Selecting after placing is placing after selecting. */
  lemma {:induction false} WhereInsert(p: Trade -> bool, s: seq<Trade>, x: Trade)
    requires SortedBy(TradeLe, s)
    ensures Where(p, Insert(TradeLe, s, x)) == if p(x) then Insert(TradeLe, Where(p, s), x) else Where(p, s)
    decreases |s|, 1
  {
    if s == [] {
      WhereAppend(p, [], x);
      assert [] + [x] == [x];
    } else {
      var init, last := s[..|s| - 1], s[|s| - 1];
      assert s == init + [last];
      if TradeLe(last, x) {
        WhereAppend(p, s, x);
        forall y | y in Where(p, s) ensures TradeLe(y, x) {
          WhereMeans(p, s, y);
          TradeOrder();
        }
        InsertAtEnd(Where(p, s), x);
      } else {
        PlacedBefore(p, s, init, last, x);
      }
    }
  }

  lemma {:induction false} InsertBefore(s: seq<Trade>, last: Trade, x: Trade)
    requires !TradeLe(last, x)
    ensures Insert(TradeLe, s + [last], x) == Insert(TradeLe, s, x) + [last]
  {
    assert (s + [last])[..|s|] == s;
  }

  lemma {:induction false} PlacedBefore(p: Trade -> bool, s: seq<Trade>, init: seq<Trade>, last: Trade, x: Trade)
    requires SortedBy(TradeLe, s) && s == init + [last] && !TradeLe(last, x)
    ensures Where(p, Insert(TradeLe, s, x)) == if p(x) then Insert(TradeLe, Where(p, s), x) else Where(p, s)
    decreases |s|, 0
  {
    var w, placed := Where(p, init), Insert(TradeLe, init, x);
    assert Insert(TradeLe, s, x) == placed + [last] by { InsertBefore(init, last, x); }
    assert s[..|s| - 1] == init;
    assert Where(p, placed) == if p(x) then Insert(TradeLe, w, x) else w by { WhereInsert(p, init, x); }
    assert Where(p, placed + [last]) == if p(last) then Where(p, placed) + [last] else Where(p, placed) by {
      WhereAppend(p, placed, last);
    }
    assert Where(p, s) == if p(last) then w + [last] else w by { WhereAppend(p, init, last); }
    assert Insert(TradeLe, w + [last], x) == Insert(TradeLe, w, x) + [last] by { InsertBefore(w, last, x); }
  }

  lemma {:induction false} SortIsSorted(s: seq<Trade>)
    ensures SortedBy(TradeLe, Sort(TradeLe, s))
  {
    TradeOrder();
    SortSorted(TradeLe, s);
  }

  lemma {:induction false} SortAppend(s: seq<Trade>, x: Trade)
    ensures Sort(TradeLe, s + [x]) == Insert(TradeLe, Sort(TradeLe, s), x)
  {
    assert (s + [x])[..|s|] == s;
  }

  /** One more trade, sorted in before or after the selection. */
  lemma {:induction false} WhereSortStep(p: Trade -> bool, init: seq<Trade>, last: Trade, sorted: seq<Trade>,
                                         chosen: seq<Trade>)
    requires sorted == Sort(TradeLe, init) && chosen == Where(p, init) && Where(p, sorted) == Sort(TradeLe, chosen)
    ensures Where(p, Insert(TradeLe, sorted, last)) == Sort(TradeLe, if p(last) then chosen + [last] else chosen)
  {
    SortIsSorted(init);
    WhereInsert(p, sorted, last);
    SortAppend(chosen, last);
  }

  /** Sorting the selected trades is selecting from the sorted trades. */
  lemma {:induction false} WhereSort(p: Trade -> bool, s: seq<Trade>)
    ensures Where(p, Sort(TradeLe, s)) == Sort(TradeLe, Where(p, s))
  {
    if s == [] {
    } else {
      var init, last := s[..|s| - 1], s[|s| - 1];
      assert s == init + [last];
      WhereSort(p, init);
      WhereSortStep(p, init, last, Sort(TradeLe, init), Where(p, init));
      assert Sort(TradeLe, s) == Insert(TradeLe, Sort(TradeLe, init), last) by { SortAppend(init, last); }
      assert Where(p, s) == if p(last) then Where(p, init) + [last] else Where(p, init) by {
        WhereAppend(p, init, last);
      }
    }
  }

  lemma {:induction false} WhereConcat(p: Trade -> bool, xs: seq<Trade>, ys: seq<Trade>)
    ensures Where(p, xs + ys) == Where(p, xs) + Where(p, ys)
  {
    if ys == [] {
      assert xs + ys == xs;
    } else {
      var init, last := ys[..|ys| - 1], ys[|ys| - 1];
      WhereConcat(p, xs, init);
      assert ys == init + [last] && xs + ys == (xs + init) + [last];
      WhereAppend(p, xs + init, last);
      WhereAppend(p, init, last);
    }
  }

  lemma {:induction false} WhereNone(p: Trade -> bool, xs: seq<Trade>)
    requires forall x :: x in xs ==> !p(x)
    ensures Where(p, xs) == []
  {
    if xs != [] {
      var init, last := xs[..|xs| - 1], xs[|xs| - 1];
      assert xs == init + [last];
      WhereNone(p, init);
      WhereAppend(p, init, last);
    }
  }

  // ---- one aggregate row ----

  /** The columns of a bar or candle, volume in 1e-8 and notional in 1e-16 units. */
  datatype Bar = Bar(opens: int, high: int, low: int, close: int, volume: int, quote16: int, quote8: int, count: nat,
                     openTime: int, closeTime: int)

  /** What a bar measures: trades, base volume, or notional. */
  datatype Kind = Tick | Volume | Dollar

  function Unit(kind: Kind, x: Trade): int {
    match kind
    case Tick => 1
    case Volume => x.qty
    case Dollar => x.price * x.qty
  }

  /** The column a kind of bar is cut by. */
  function Column(kind: Kind, b: Bar): int {
    match kind
    case Tick => b.count
    case Volume => b.volume
    case Dollar => b.quote16
  }

  function FirstOf(x: Trade): Bar {
    Bar(x.price, x.price, x.price, x.price, 0, 0, 0, 0, x.ts, x.ts)
  }

  function Extended(b: Bar, x: Trade): Bar {
    var quote := b.quote16 + x.price * x.qty;
    Bar(b.opens, Max(b.high, x.price), Min(b.low, x.price), x.price,
        b.volume + x.qty, quote, quote / SCALE, b.count + 1, b.openTime, x.ts)
  }

  /** One row over `ys` taken in order; no row over no trades. */
  function Fold(ys: seq<Trade>): Option<Bar> {
    if ys == [] then None else
      var init, x := ys[..|ys| - 1], ys[|ys| - 1];
      match Fold(init)
      case None => Some(Extended(FirstOf(x), x))
      case Some(b) => Some(Extended(b, x))
  }

  lemma {:induction false} FoldAppend(ys: seq<Trade>, x: Trade)
    ensures Fold(ys + [x]) == Some(Extended(if Fold(ys).Some? then Fold(ys).value else FirstOf(x), x))
  {
    assert (ys + [x])[..|ys|] == ys;
  }

  /** The total of `kind` over the first `n` trades. */
  function PrefixTotal(kind: Kind, ys: seq<Trade>, n: nat): int
    requires n <= |ys|
  {
    if n == 0 then 0 else PrefixTotal(kind, ys, n - 1) + Unit(kind, ys[n - 1])
  }

  function Total(kind: Kind, ys: seq<Trade>): int {
    PrefixTotal(kind, ys, |ys|)
  }

  lemma {:induction false} PrefixTotalSame(kind: Kind, ys: seq<Trade>, zs: seq<Trade>, n: nat)
    requires n <= |ys| && n <= |zs| && forall i :: 0 <= i < n ==> ys[i] == zs[i]
    ensures PrefixTotal(kind, ys, n) == PrefixTotal(kind, zs, n)
  {
    if n > 0 { PrefixTotalSame(kind, ys, zs, n - 1); }
  }

  lemma {:induction false} TotalAppend(kind: Kind, ys: seq<Trade>, x: Trade)
    ensures Total(kind, ys + [x]) == Total(kind, ys) + Unit(kind, x)
  {
    PrefixTotalSame(kind, ys + [x], ys, |ys|);
  }

  /** What a row says about its trades: endpoints, extremes and exact totals. */
  ghost predicate Summarises(b: Bar, ys: seq<Trade>) {
    && ys != []
    && b.opens == ys[0].price && b.openTime == ys[0].ts
    && b.close == ys[|ys| - 1].price && b.closeTime == ys[|ys| - 1].ts
    && (forall i :: 0 <= i < |ys| ==> b.low <= ys[i].price <= b.high)
    && (exists i :: 0 <= i < |ys| && ys[i].price == b.high)
    && (exists i :: 0 <= i < |ys| && ys[i].price == b.low)
    && (forall kind :: Column(kind, b) == Total(kind, ys))
    && b.quote8 == b.quote16 / SCALE
  }

  lemma {:induction false} SummaryGrows(b: Bar, ys: seq<Trade>, x: Trade)
    requires Summarises(b, ys)
    ensures Summarises(Extended(b, x), ys + [x])
  {
    var zs, b' := ys + [x], Extended(b, x);
    forall kind ensures Column(kind, b') == Total(kind, zs) {
      TotalAppend(kind, ys, x);
      assert Column(kind, b) == Total(kind, ys);
    }
    var h :| 0 <= h < |ys| && ys[h].price == b.high;
    var l :| 0 <= l < |ys| && ys[l].price == b.low;
    assert zs[h].price == b.high && zs[l].price == b.low && zs[|ys|] == x;
    assert zs[if x.price > b.high then |ys| else h].price == b'.high;
    assert zs[if x.price < b.low then |ys| else l].price == b'.low;
  }

  lemma {:induction false} SummaryStarts(x: Trade)
    ensures Summarises(Extended(FirstOf(x), x), [x])
  {
    var b := Extended(FirstOf(x), x);
    forall kind ensures Column(kind, b) == Total(kind, [x]) {
      assert PrefixTotal(kind, [x], 0) == 0;
    }
    assert [x][0].price == b.high == b.low;
  }

  /** The streaming row is the declarative one, and there is a row exactly when there is a trade. */
  lemma {:induction false} FoldSummarises(ys: seq<Trade>)
    ensures Fold(ys).Some? <==> ys != []
    ensures Fold(ys).Some? ==> Summarises(Fold(ys).value, ys)
  {
    if ys != [] {
      var init, x := ys[..|ys| - 1], ys[|ys| - 1];
      InitLast(ys);
      FoldSummarises(init);
      FoldAppend(init, x);
      SummaryNext(Fold(init), init, x);
    }
  }

  lemma {:induction false} SummaryNext(b: Option<Bar>, ys: seq<Trade>, x: Trade)
    requires (b.Some? <==> ys != []) && (b.Some? ==> Summarises(b.value, ys))
    ensures Summarises(Extended(if b.Some? then b.value else FirstOf(x), x), ys + [x])
  {
    if b.None? {
      SummaryStarts(x);
      assert ys + [x] == [x];
    } else {
      SummaryGrows(b.value, ys, x);
    }
  }

  /** A summary determines the row. */
  lemma {:induction false} SummaryUnique(b: Bar, c: Bar, ys: seq<Trade>)
    requires Summarises(b, ys) && Summarises(c, ys)
    ensures b == c
  {
    assert Column(Tick, b) == Column(Tick, c);
    assert Column(Volume, b) == Column(Volume, c);
    assert Column(Dollar, b) == Column(Dollar, c);
  }

  /** A row is the streaming one exactly when it summarises the trades: the aggregate has no other solution. */
  lemma {:induction false} FoldIff(ys: seq<Trade>, b: Bar)
    ensures Fold(ys) == Some(b) <==> Summarises(b, ys)
  {
    FoldSummarises(ys);
    if Summarises(b, ys) { SummaryUnique(Fold(ys).value, b, ys); }
  }
}
