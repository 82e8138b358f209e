/** What a candle and a bar say, column by column, of the trades in them (docker/lake/gold.py, docker/lake/bars.py). */
module RowMeaning {
  import opened Prelude
  import opened Sorting
  import opened Trades
  import opened Bars
  import opened Gold

  // ---- the vocabulary ----

  /** Earlier by exchange time, then receive time, then venue id. */
  ghost predicate Precedes(a: Trade, b: Trade) {
    a.ts < b.ts || (a.ts == b.ts && (a.recvNs < b.recvNs || (a.recvNs == b.recvNs && a.seqNo < b.seqNo)))
  }

  /** What one trade adds to a bar of this kind. */
  function Units(kind: Kind, x: Trade): int {
    if kind == Tick then 1 else if kind == Volume then x.qty else x.price * x.qty
  }

  /** The units of those of the first `n` trades that satisfy `p`. */
  function UnitsOf(kind: Kind, p: Trade -> bool, xs: seq<Trade>, n: nat): int
    requires n <= |xs|
  {
    if n == 0 then 0 else UnitsOf(kind, p, xs, n - 1) + if p(xs[n - 1]) then Units(kind, xs[n - 1]) else 0
  }

  function AllUnits(kind: Kind, xs: seq<Trade>): int {
    UnitsOf(kind, x => true, xs, |xs|)
  }

  /** `ys` holds the trades of `trades` that satisfy `p`, as often as `trades` does. */
  ghost predicate Selects(ys: seq<Trade>, p: Trade -> bool, trades: seq<Trade>) {
    forall x: Trade :: multiset(ys)[x] == if p(x) then multiset(trades)[x] else 0
  }

  /** The columns of a row over `ys`, in whatever order these come. */
  ghost predicate Says(b: Bar, ys: seq<Trade>) {
    && (exists x :: x in ys && b.opens == x.price && b.openTime == x.ts && forall y :: y in ys ==> !Precedes(y, x))
    && (exists x :: x in ys && b.close == x.price && b.closeTime == x.ts && forall y :: y in ys ==> !Precedes(x, y))
    && (forall y :: y in ys ==> b.openTime <= y.ts <= b.closeTime && b.low <= y.price <= b.high)
    && (exists x :: x in ys && x.price == b.high)
    && (exists x :: x in ys && x.price == b.low)
    && b.count == |ys| && b.volume == AllUnits(Volume, ys) && b.quote16 == AllUnits(Dollar, ys)
    && b.quote8 == b.quote16 / 100_000_000
  }

  /** No trade comes after one it precedes. */
  ghost predicate InOrder(ys: seq<Trade>) {
    forall i, j :: 0 <= i < j < |ys| ==> !Precedes(ys[j], ys[i])
  }

  /** One venue and one symbol. */
  ghost predicate OneMarket(ys: seq<Trade>) {
    forall x, y :: x in ys && y in ys ==> x.exchange == y.exchange && x.symbol == y.symbol
  }

  // ---- the row over trades in order ----

  lemma {:induction false} UnitsAreTotals(kind: Kind, ys: seq<Trade>, n: nat)
    requires n <= |ys|
    ensures UnitsOf(kind, x => true, ys, n) == PrefixTotal(kind, ys, n)
  {
    if n > 0 { UnitsAreTotals(kind, ys, n - 1); }
  }

  lemma {:induction false} FoldSays(ys: seq<Trade>)
    requires InOrder(ys)
    ensures Fold(ys).Some? <==> ys != []
    ensures Fold(ys).Some? ==> Says(Fold(ys).value, ys)
  {
    FoldSummarises(ys);
    if ys != [] {
      var b := Fold(ys).value;
      Endpoints(b, ys);
      Extremes(b, ys);
      forall kind ensures AllUnits(kind, ys) == Column(kind, b) { UnitsAreTotals(kind, ys, |ys|); }
      UnitsAreTotals(Tick, ys, |ys|);
      TicksAreTrades(ys, |ys|);
      assert b.count == Column(Tick, b) && b.volume == Column(Volume, b) && b.quote16 == Column(Dollar, b);
    }
  }

  lemma {:induction false} TicksAreTrades(ys: seq<Trade>, n: nat)
    requires n <= |ys|
    ensures PrefixTotal(Tick, ys, n) == n
  {
    if n > 0 { TicksAreTrades(ys, n - 1); }
  }

  lemma {:induction false} Endpoints(b: Bar, ys: seq<Trade>)
    requires Summarises(b, ys) && InOrder(ys)
    ensures exists x :: x in ys && b.opens == x.price && b.openTime == x.ts && forall y :: y in ys ==> !Precedes(y, x)
    ensures exists x :: x in ys && b.close == x.price && b.closeTime == x.ts && forall y :: y in ys ==> !Precedes(x, y)
    ensures forall y :: y in ys ==> b.openTime <= y.ts <= b.closeTime
  {
    var first, last := ys[0], ys[|ys| - 1];
    assert first in ys && last in ys;
    forall y | y in ys ensures !Precedes(y, first) && !Precedes(last, y) && first.ts <= y.ts <= last.ts {
      var i :| 0 <= i < |ys| && ys[i] == y;
      assert i > 0 ==> !Precedes(ys[i], ys[0]);
      assert i < |ys| - 1 ==> !Precedes(ys[|ys| - 1], ys[i]);
    }
  }

  lemma {:induction false} Extremes(b: Bar, ys: seq<Trade>)
    requires Summarises(b, ys)
    ensures forall y :: y in ys ==> b.low <= y.price <= b.high
    ensures exists x :: x in ys && x.price == b.high
    ensures exists x :: x in ys && x.price == b.low
  {
    forall y | y in ys ensures b.low <= y.price <= b.high {
      var i :| 0 <= i < |ys| && ys[i] == y;
    }
    var h :| 0 <= h < |ys| && ys[h].price == b.high;
    var l :| 0 <= l < |ys| && ys[l].price == b.low;
    assert ys[h] in ys && ys[l] in ys;
  }

  // ---- selecting from the sorted trades ----

  lemma {:induction false} FilterCounts(p: Trade -> bool, xs: seq<Trade>, n: nat)
    requires n <= |xs|
    ensures Selects(Filter(p, xs, n), p, xs[..n])
  {
    if n > 0 {
      FilterCounts(p, xs, n - 1);
      assert xs[..n] == xs[..n - 1] + [xs[n - 1]];
    } else {
      assert xs[..0] == [];
    }
  }

  lemma {:induction false} WhereCounts(p: Trade -> bool, trades: seq<Trade>)
    ensures Selects(Where(p, Sort(TradeLe, trades)), p, trades)
  {
    var sorted := Sort(TradeLe, trades);
    FilterCounts(p, sorted, |sorted|);
    assert sorted[..|sorted|] == sorted;
  }

  lemma {:induction false} FilterSorted(p: Trade -> bool, xs: seq<Trade>, n: nat)
    requires n <= |xs| && SortedBy(TradeLe, xs)
    ensures SortedBy(TradeLe, Filter(p, xs, n))
  {
    if n > 0 {
      FilterSorted(p, xs, n - 1);
      var before := Filter(p, xs, n - 1);
      forall i | 0 <= i < |before| ensures TradeLe(before[i], xs[n - 1]) {
        FilterMeans(p, xs, n - 1, before[i]);
        assert before[i] in xs[..n - 1];
        var j :| 0 <= j < n - 1 && xs[j] == before[i];
      }
    }
  }

  lemma {:induction false} SortedInOrder(ys: seq<Trade>)
    requires SortedBy(TradeLe, ys) && OneMarket(ys)
    ensures InOrder(ys)
  {
    forall i, j | 0 <= i < j < |ys| ensures !Precedes(ys[j], ys[i]) {
      assert ys[i] in ys && ys[j] in ys && TradeLe(ys[i], ys[j]);
    }
  }

  lemma {:induction false} WhereInOrder(p: Trade -> bool, trades: seq<Trade>)
    requires forall x, y :: p(x) && p(y) ==> x.exchange == y.exchange && x.symbol == y.symbol
    ensures InOrder(Where(p, Sort(TradeLe, trades)))
  {
    TradeOrder();
    SortSorted(TradeLe, trades);
    var sorted := Sort(TradeLe, trades);
    FilterSorted(p, sorted, |sorted|);
    var ys := Where(p, sorted);
    forall x | x in ys ensures p(x) { WhereMeans(p, sorted, x); }
    SortedInOrder(ys);
  }

  lemma {:induction false} SelectsSame(ys: seq<Trade>, p: Trade -> bool, q: Trade -> bool, trades: seq<Trade>)
    requires Selects(ys, p, trades) && forall x :: p(x) == q(x)
    ensures Selects(ys, q, trades)
  {}

  // ---- candles ----

  /** The trades of one venue and symbol in the `s` seconds from `k.2`, a multiple of `s`. */
  function InStretch(s: int, k: Window): Trade -> bool
    requires s > 0
  {
    (x: Trade) =>
      x.exchange == k.0 && x.symbol == k.1 && k.2 % s == 0 && k.2 <= x.ts / 1_000_000 < k.2 + s
  }

  lemma {:induction false} WindowIsStretch(s: int, k: Window, x: Trade)
    requires s > 0
    ensures InWindow(s, k)(x) == InStretch(s, k)(x)
  {
    var sec := x.ts / 1_000_000;
    var q := sec / s;
    assert q * s <= sec < q * s + s;
    if k.2 % s == 0 && k.2 <= sec < k.2 + s {
      var r := k.2 / s;
      assert k.2 == r * s;
      QuotientIs(sec, s, r);
    }
    assert (q * s) % s == 0 by { WholeMultiple(q, s); }
  }

  lemma {:induction false} WholeMultiple(q: int, s: int)
    requires s > 0
    ensures (q * s) % s == 0
  {
    QuotientIs(q * s, s, q);
  }

  /** There is a candle exactly when its stretch holds a trade, and it says what those trades are. */
  lemma {:induction false} CandleSays(trades: seq<Trade>, s: int, k: Window)
    requires s > 0
    ensures CandleOf(trades, s, k).None? <==> forall x :: x in trades ==> !InStretch(s, k)(x)
    ensures CandleOf(trades, s, k).Some? ==>
              exists ys :: Selects(ys, InStretch(s, k), trades) && Says(CandleOf(trades, s, k).value, ys)
  {
    var ys := Where(InWindow(s, k), Sort(TradeLe, trades));
    WhereCounts(InWindow(s, k), trades);
    WhereInOrder(InWindow(s, k), trades);
    forall x ensures InWindow(s, k)(x) == InStretch(s, k)(x) { WindowIsStretch(s, k, x); }
    SelectsSame(ys, InWindow(s, k), InStretch(s, k), trades);
    FoldSays(ys);
    EmptyIff(ys, InStretch(s, k), trades);
  }

  lemma {:induction false} EmptyIff(ys: seq<Trade>, p: Trade -> bool, trades: seq<Trade>)
    requires Selects(ys, p, trades)
    ensures ys == [] <==> forall x :: x in trades ==> !p(x)
  {
    if ys != [] {
      assert ys[0] in multiset(ys);
      assert ys[0] in multiset(trades);
      assert ys[0] in trades;
    }
    if x :| x in trades && p(x) {
      assert x in multiset(trades);
      assert x in multiset(ys);
    }
  }

  // ---- bars ----

  /** The trades of one venue, symbol and UTC day. */
  function OnDay(g: Group): Trade -> bool {
    (x: Trade) =>
      x.exchange == g.0 && x.symbol == g.1 && g.2 * 86_400_000_000 <= x.ts < g.2 * 86_400_000_000 + 86_400_000_000
  }

  lemma {:induction false} GroupIsDay(g: Group, x: Trade)
    ensures InGroup(g)(x) == OnDay(g)(x)
  {
    var d := x.ts / 86_400_000_000;
    assert d * 86_400_000_000 <= x.ts < d * 86_400_000_000 + 86_400_000_000;
  }

  /** The trades of a day in order: those before which the units come to bucket `s` of size `t`. */
  function InBar(kind: Kind, t: int, ys: seq<Trade>, n: nat, s: int): seq<Trade>
    requires n <= |ys| && t > 0
  {
    if n == 0 then []
    else if UnitsOf(kind, x => true, ys, n - 1) / t == s then InBar(kind, t, ys, n - 1, s) + [ys[n - 1]]
    else InBar(kind, t, ys, n - 1, s)
  }

  lemma {:induction false} BarIsBucket(kind: Kind, t: int, ys: seq<Trade>, n: nat, s: int)
    requires n <= |ys| && t > 0
    ensures InBar(kind, t, ys, n, s) == Members(kind, t, ys, n, s)
  {
    if n > 0 {
      BarIsBucket(kind, t, ys, n - 1, s);
      UnitsAreTotals(kind, ys, n - 1);
    }
  }

  lemma {:induction false} InBarFrom(kind: Kind, t: int, ys: seq<Trade>, n: nat, s: int, x: Trade)
    requires n <= |ys| && t > 0 && x in InBar(kind, t, ys, n, s)
    ensures exists i :: 0 <= i < n && ys[i] == x
  {
    if n > 0 && x in InBar(kind, t, ys, n - 1, s) {
      InBarFrom(kind, t, ys, n - 1, s, x);
    }
  }

  lemma {:induction false} InBarInOrder(kind: Kind, t: int, ys: seq<Trade>, n: nat, s: int)
    requires n <= |ys| && t > 0 && InOrder(ys)
    ensures InOrder(InBar(kind, t, ys, n, s))
  {
    if n > 0 {
      InBarInOrder(kind, t, ys, n - 1, s);
      var before := InBar(kind, t, ys, n - 1, s);
      forall i | 0 <= i < |before| ensures !Precedes(ys[n - 1], before[i]) {
        InBarFrom(kind, t, ys, n - 1, s, before[i]);
        var j :| 0 <= j < n - 1 && ys[j] == before[i];
      }
    }
  }

  /**
   Bar `s` of a day: put the day's trades in order; the bar says what those are whose predecessors' units come to
   bucket `s`, and it is there exactly when there are any.
   */
  lemma {:induction false} BarSays(trades: seq<Trade>, kind: Kind, t: int, g: Group, s: int)
    requires t > 0
    ensures exists ys ::
              && Selects(ys, OnDay(g), trades) && InOrder(ys)
              && (BarOf(kind, t, Day(trades, g), s).None? <==> InBar(kind, t, ys, |ys|, s) == [])
              && (BarOf(kind, t, Day(trades, g), s).Some? ==>
                    Says(BarOf(kind, t, Day(trades, g), s).value, InBar(kind, t, ys, |ys|, s)))
  {
    var ys := Day(trades, g);
    WhereCounts(InGroup(g), trades);
    WhereInOrder(InGroup(g), trades);
    forall x ensures InGroup(g)(x) == OnDay(g)(x) { GroupIsDay(g, x); }
    SelectsSame(ys, InGroup(g), OnDay(g), trades);
    BarIsBucket(kind, t, ys, |ys|, s);
    InBarInOrder(kind, t, ys, |ys|, s);
    FoldSays(InBar(kind, t, ys, |ys|, s));
  }

  // ---- the stored tables ----

  /** So says every stored candle that is not behind. */
  lemma {:induction false} StoredCandleSays(table: map<Window, Bar>, trades: seq<Trade>, s: int, stale: set<Window>,
                                            k: Window)
    requires s > 0 && FreshCandles(table, trades, s, stale) && k !in stale
    ensures k in table <==> exists x :: x in trades && InStretch(s, k)(x)
    ensures k in table ==> exists ys :: Selects(ys, InStretch(s, k), trades) && Says(table[k], ys)
  {
    assert Stored(table, k) == CandleOf(trades, s, k);
    CandleSays(trades, s, k);
  }

  /** In all four tables, after any uninterrupted run: at a minute, five, an hour and a day. */
  lemma {:induction false} TablesSay(tables: Tables, th: Thresholds, s: int, k: Window)
    requires tables.Fresh(th, NothingStale(), {}) && (s == 60 || s == 300 || s == 3600 || s == 86400)
    ensures s in tables.candles
    ensures k in tables.candles[s] <==> exists x :: x in tables.trades && InStretch(s, k)(x)
    ensures k in tables.candles[s] ==>
              exists ys :: Selects(ys, InStretch(s, k), tables.trades) && Says(tables.candles[s][k], ys)
  {
    FourTimeframes(s);
    StoredCandleSays(tables.candles[s], tables.trades, s, {}, k);
  }

  /** And every stored bar that is not: cut at the threshold of its symbol and kind, and of no other. */
  lemma {:induction false} StoredBarSays(table: map<BarId, Bar>, trades: seq<Trade>, th: Thresholds, stale: set<Group>,
                                         kind: Kind, g: Group, s: int)
    requires FreshBars(table, trades, th, stale) && g !in stale
    ensures (kind, (g, s)) in table ==> (g.1, kind) in th
    ensures (g.1, kind) in th ==> exists ys ::
              && Selects(ys, OnDay(g), trades) && InOrder(ys)
              && ((kind, (g, s)) in table <==> InBar(kind, th[(g.1, kind)], ys, |ys|, s) != [])
              && ((kind, (g, s)) in table ==>
                    Says(table[(kind, (g, s))], InBar(kind, th[(g.1, kind)], ys, |ys|, s)))
  {
    assert Stored(table, (kind, (g, s))) == WantedBar(trades, th, (kind, (g, s)));
    if (g.1, kind) in th { BarSays(trades, kind, th[(g.1, kind)], g, s); }
  }

  // ---- which bucket, without putting anything in order ----

  /** Of any two different places one precedes the other: no two trades share their times and id. */
  ghost predicate Untied(ys: seq<Trade>) {
    forall i, j :: 0 <= i < |ys| && 0 <= j < |ys| && i != j ==> Precedes(ys[i], ys[j]) || Precedes(ys[j], ys[i])
  }

  /** On the day and before `x`. */
  function DayBefore(g: Group, x: Trade): Trade -> bool {
    (y: Trade) => OnDay(g)(y) && (y.ts < x.ts || (y.ts == x.ts && (y.recvNs < x.recvNs ||
                                  (y.recvNs == x.recvNs && y.seqNo < x.seqNo))))
  }

  lemma {:induction false} UnitsSame(kind: Kind, p: Trade -> bool, q: Trade -> bool, xs: seq<Trade>, n: nat)
    requires n <= |xs| && forall i :: 0 <= i < n ==> p(xs[i]) == q(xs[i])
    ensures UnitsOf(kind, p, xs, n) == UnitsOf(kind, q, xs, n)
  {
    if n > 0 { UnitsSame(kind, p, q, xs, n - 1); }
  }

  lemma {:induction false} UnitsPrefix(kind: Kind, p: Trade -> bool, xs: seq<Trade>, ys: seq<Trade>, n: nat)
    requires n <= |xs| && n <= |ys| && forall i :: 0 <= i < n ==> xs[i] == ys[i]
    ensures UnitsOf(kind, p, xs, n) == UnitsOf(kind, p, ys, n)
  {
    if n > 0 { UnitsPrefix(kind, p, xs, ys, n - 1); }
  }

  lemma {:induction false} UnitsConcat(kind: Kind, p: Trade -> bool, xs: seq<Trade>, ys: seq<Trade>, n: nat)
    requires n <= |ys|
    ensures UnitsOf(kind, p, xs + ys, |xs| + n) == UnitsOf(kind, p, xs, |xs|) + UnitsOf(kind, p, ys, n)
  {
    if n > 0 {
      UnitsConcat(kind, p, xs, ys, n - 1);
      assert (xs + ys)[|xs| + n - 1] == ys[n - 1];
    } else {
      UnitsPrefix(kind, p, xs + ys, xs, |xs|);
    }
  }

  /** The units do not depend on the order. */
  lemma {:induction false} UnitsPermuted(kind: Kind, p: Trade -> bool, xs: seq<Trade>, ys: seq<Trade>)
    requires forall x: Trade :: p(x) ==> multiset(xs)[x] == multiset(ys)[x]
    ensures UnitsOf(kind, p, xs, |xs|) == UnitsOf(kind, p, ys, |ys|)
    decreases |xs|
  {
    if xs == [] {
      forall i | 0 <= i < |ys| ensures !p(ys[i]) {
        assert ys[i] in multiset(ys);
      }
      UnitsNone(kind, p, ys, |ys|);
    } else {
      var n := |xs| - 1;
      var init, last := xs[..n], xs[n];
      RemoveAt(kind, p, xs, n);
      assert init + xs[n + 1..] == init;
      if p(last) {
        assert last in multiset(xs);
        assert last in multiset(ys);
        var k :| 0 <= k < |ys| && ys[k] == last;
        RemoveAt(kind, p, ys, k);
        UnitsPermuted(kind, p, init, ys[..k] + ys[k + 1..]);
      } else {
        UnitsPermuted(kind, p, init, ys);
      }
    }
  }

  lemma {:induction false} RemoveAt(kind: Kind, p: Trade -> bool, xs: seq<Trade>, k: nat)
    requires k < |xs|
    ensures var rest := xs[..k] + xs[k + 1..];
            && multiset(xs) == multiset(rest) + multiset{xs[k]}
            && UnitsOf(kind, p, xs, |xs|) == UnitsOf(kind, p, rest, |rest|) + if p(xs[k]) then Units(kind, xs[k]) else 0
  {
    var a, b := xs[..k], xs[k + 1..];
    assert xs == xs[..k + 1] + b;
    UnitsConcat(kind, p, xs[..k + 1], b, |b|);
    UnitsConcat(kind, p, a, b, |b|);
    UnitsPrefix(kind, p, xs[..k + 1], a, k);
    assert xs[..k + 1] == a + [xs[k]];
  }

  lemma {:induction false} UnitsNone(kind: Kind, p: Trade -> bool, xs: seq<Trade>, n: nat)
    requires n <= |xs| && forall i :: 0 <= i < n ==> !p(xs[i])
    ensures UnitsOf(kind, p, xs, n) == 0
  {
    if n > 0 { UnitsNone(kind, p, xs, n - 1); }
  }

  lemma {:induction false} PlaceIsUnitsBefore(kind: Kind, trades: seq<Trade>, g: Group, ys: seq<Trade>, i: nat)
    requires Selects(ys, OnDay(g), trades) && InOrder(ys) && Untied(ys) && i < |ys|
    ensures UnitsOf(kind, x => true, ys, i) == UnitsOf(kind, DayBefore(g, ys[i]), trades, |trades|)
  {
    var p := DayBefore(g, ys[i]);
    forall j | 0 <= j < |ys| ensures p(ys[j]) == (j < i) {
      assert ys[j] in multiset(ys);
      assert OnDay(g)(ys[j]);
      if j < i { assert !Precedes(ys[i], ys[j]); }
      if i < j { assert !Precedes(ys[j], ys[i]); }
    }
    UnitsSame(kind, x => true, p, ys, i);
    UnitsRest(kind, p, ys, i, |ys|);
    UnitsPermuted(kind, p, ys, trades);
  }

  lemma {:induction false} UnitsRest(kind: Kind, p: Trade -> bool, xs: seq<Trade>, i: nat, n: nat)
    requires i <= n <= |xs| && forall j :: i <= j < n ==> !p(xs[j])
    ensures UnitsOf(kind, p, xs, n) == UnitsOf(kind, p, xs, i)
    decreases n
  {
    if i < n { UnitsRest(kind, p, xs, i, n - 1); }
  }

  lemma {:induction false} InBarIff(kind: Kind, t: int, ys: seq<Trade>, n: nat, s: int, x: Trade)
    requires n <= |ys| && t > 0
    ensures x in InBar(kind, t, ys, n, s) <==>
            exists i :: 0 <= i < n && ys[i] == x && UnitsOf(kind, y => true, ys, i) / t == s
  {
    if n > 0 {
      InBarIff(kind, t, ys, n - 1, s, x);
      if x == ys[n - 1] && UnitsOf(kind, y => true, ys, n - 1) / t == s {
        assert x in InBar(kind, t, ys, n, s);
      }
    }
  }

  /** When no two trades of the day tie, a trade is in bar `s` exactly when the units before it come to bucket `s`. */
  lemma {:induction false} BucketByUnitsBefore(kind: Kind, t: int, trades: seq<Trade>, g: Group, ys: seq<Trade>, s: int,
                                               x: Trade)
    requires t > 0 && Selects(ys, OnDay(g), trades) && InOrder(ys) && Untied(ys) && x in ys
    ensures x in InBar(kind, t, ys, |ys|, s) <==> UnitsOf(kind, DayBefore(g, x), trades, |trades|) / t == s
  {
    InBarIff(kind, t, ys, |ys|, s, x);
    var k :| 0 <= k < |ys| && ys[k] == x;
    PlaceIsUnitsBefore(kind, trades, g, ys, k);
    forall i | 0 <= i < |ys| && ys[i] == x ensures i == k {}
  }

  // ---- the order of the rows ----

  /** `a` comes before `b` in a dictionary: a proper prefix of it, or smaller where they first differ. */
  ghost predicate Alphabetical(a: string, b: string) {
    exists k :: 0 <= k <= |a| && k <= |b| && a[..k] == b[..k] && k < |b| && (k == |a| || a[k] < b[k])
  }

  lemma {:induction false} StringLeMeans(a: string, b: string)
    requires StringLe(a, b) && a != b
    ensures Alphabetical(a, b)
  {
    if a == [] || a[0] != b[0] {
      assert a[..0] == b[..0];
    } else {
      assert a == [a[0]] + a[1..] && b == [b[0]] + b[1..];
      StringLeMeans(a[1..], b[1..]);
      var k :| 0 <= k <= |a[1..]| && k <= |b[1..]| && a[1..][..k] == b[1..][..k] && k < |b[1..]| &&
               (k == |a[1..]| || a[1..][k] < b[1..][k]);
      assert a[..k + 1] == [a[0]] + a[1..][..k] && b[..k + 1] == [b[0]] + b[1..][..k];
    }
  }

  /** Bars come out by exchange, symbol, day and bucket, each ascending. */
  lemma {:induction false} RowsAscend(kind: Kind, t: int, trades: seq<Trade>, rows: seq<Row>, i: nat, j: nat)
    requires t > 0 && IsReference(kind, t, trades, rows) && i < j < |rows|
    ensures var (g, s), (h, u) := rows[i].0, rows[j].0;
            || Alphabetical(g.0, h.0)
            || (g.0 == h.0 && Alphabetical(g.1, h.1))
            || (g.0 == h.0 && g.1 == h.1 && g.2 < h.2)
            || (g == h && s < u)
  {
    var a, b := rows[i].0, rows[j].0;
    assert KeyLe(a, b) && a != b;
    if a.0.0 != b.0.0 { StringLeMeans(a.0.0, b.0.0); }
    else if a.0.1 != b.0.1 { StringLeMeans(a.0.1, b.0.1); }
  }
}
