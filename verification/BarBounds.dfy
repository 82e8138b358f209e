/** How full a bar is, and what a late trade can and cannot change (docker/lake/bars.py, docker/lake/gold.py). */
module BarBounds {
  import opened Prelude
  import opened Sorting
  import opened Trades
  import opened Bars

  /** Every trade adds at least nothing: what prices and quantities give. */
  ghost predicate Grows(kind: Kind, ys: seq<Trade>) {
    forall x :: x in ys ==> Unit(kind, x) >= 0
  }

  lemma {:induction false} TotalsGrow(kind: Kind, ys: seq<Trade>, i: nat, n: nat)
    requires Grows(kind, ys) && i <= n <= |ys|
    ensures 0 <= PrefixTotal(kind, ys, i) <= PrefixTotal(kind, ys, n)
    decreases n
  {
    if i < n {
      TotalsGrow(kind, ys, i, n - 1);
      assert ys[n - 1] in ys;
    } else if n > 0 {
      TotalsGrow(kind, ys, i - 1, n - 1);
      assert ys[n - 1] in ys;
    }
  }

  /** How many of the first `n` trades have less than `b` before them. */
  function Cut(kind: Kind, ys: seq<Trade>, n: nat, b: int): (c: nat)
    requires n <= |ys|
    ensures c <= n
  {
    if n == 0 then 0 else Cut(kind, ys, n - 1, b) + (if PrefixTotal(kind, ys, n - 1) < b then 1 else 0)
  }

  /** The trades below a cut are a prefix. */
  lemma {:induction false} CutIsPrefix(kind: Kind, ys: seq<Trade>, n: nat, b: int)
    requires n <= |ys| && Grows(kind, ys)
    ensures var c := Cut(kind, ys, n, b);
            && (c > 0 ==> PrefixTotal(kind, ys, c - 1) < b)
            && (c < n ==> PrefixTotal(kind, ys, c) >= b)
  {
    if n > 0 {
      CutIsPrefix(kind, ys, n - 1, b);
      var c := Cut(kind, ys, n - 1, b);
      if c < n - 1 { TotalsGrow(kind, ys, c, n - 1); }
    }
  }

  lemma {:induction false} CutMonotone(kind: Kind, ys: seq<Trade>, n: nat, a: int, b: int)
    requires n <= |ys| && a <= b
    ensures Cut(kind, ys, n, a) <= Cut(kind, ys, n, b)
  {
    if n > 0 { CutMonotone(kind, ys, n - 1, a, b); }
  }

  lemma {:induction false} InBucket(p: int, t: int, s: int)
    requires t > 0
    ensures p / t == s <==> s * t <= p < (s + 1) * t
  {
    var q, r := p / t, p % t;
    assert p == q * t + r;
    assert (s + 1) * t == s * t + t;
    if q < s { Scale(q + 1, s, t); }
    if q > s { Scale(s + 1, q, t); }
    assert (q + 1) * t == q * t + t;
  }

  /** A bucket bounded by two totals is the stretch between their cuts. */
  lemma {:induction false} StretchBetween(kind: Kind, t: int, ys: seq<Trade>, n: nat, s: int, low: int, high: int)
    requires t > 0 && n <= |ys| && Grows(kind, ys) && low <= high
    requires forall i: nat :: i < |ys| ==>
               (PrefixTotal(kind, ys, i) / t == s <==> low <= PrefixTotal(kind, ys, i) < high)
    ensures var c, d := Cut(kind, ys, n, low), Cut(kind, ys, n, high);
            c <= d && Members(kind, t, ys, n, s) == ys[c..d]
  {
    CutMonotone(kind, ys, n, low, high);
    if n > 0 {
      StretchBetween(kind, t, ys, n - 1, s, low, high);
      CutNext(kind, ys, n, low);
      CutNext(kind, ys, n, high);
      StretchStep(ys, Cut(kind, ys, n - 1, low), Cut(kind, ys, n - 1, high), n);
    }
  }

  lemma {:induction false} CutNext(kind: Kind, ys: seq<Trade>, n: nat, b: int)
    requires 0 < n <= |ys| && Grows(kind, ys)
    ensures Cut(kind, ys, n, b) == if PrefixTotal(kind, ys, n - 1) < b then n else Cut(kind, ys, n - 1, b)
    ensures PrefixTotal(kind, ys, n - 1) < b ==> Cut(kind, ys, n - 1, b) == n - 1
  {
    if PrefixTotal(kind, ys, n - 1) < b { FullCut(kind, ys, n - 1, b); }
  }

  lemma {:induction false} StretchStep(ys: seq<Trade>, c: nat, d: nat, n: nat)
    requires c <= d < n <= |ys|
    ensures d == n - 1 ==> ys[c..d] + [ys[n - 1]] == ys[c..n]
  {}

  /** Bar `s` is the stretch of the day between two cuts. */
  lemma {:induction false} BucketIsStretch(kind: Kind, t: int, ys: seq<Trade>, n: nat, s: int)
    requires t > 0 && n <= |ys| && Grows(kind, ys)
    ensures var c, d := Cut(kind, ys, n, s * t), Cut(kind, ys, n, (s + 1) * t);
            c <= d && Members(kind, t, ys, n, s) == ys[c..d]
  {
    Scale(s, s + 1, t);
    forall i: nat | i < |ys|
      ensures PrefixTotal(kind, ys, i) / t == s <==> s * t <= PrefixTotal(kind, ys, i) < (s + 1) * t
    {
      InBucket(PrefixTotal(kind, ys, i), t, s);
    }
    StretchBetween(kind, t, ys, n, s, s * t, (s + 1) * t);
  }

  lemma {:induction false} FullCut(kind: Kind, ys: seq<Trade>, n: nat, b: int)
    requires n < |ys| && Grows(kind, ys) && PrefixTotal(kind, ys, n) < b
    ensures Cut(kind, ys, n, b) == n
  {
    CutIsPrefix(kind, ys, n, b);
    var c := Cut(kind, ys, n, b);
    if c < n { TotalsGrow(kind, ys, c, n); }
  }

  /** The total of `m` over bars `0..k`. */
  ghost function BarsTo(kind: Kind, t: int, m: Kind, ys: seq<Trade>, k: nat): int
    requires t > 0
  {
    Total(m, Bucket(kind, t, ys, k)) + (if k == 0 then 0 else BarsTo(kind, t, m, ys, k - 1))
  }

  lemma {:induction false} StretchTotal(m: Kind, ys: seq<Trade>, c: nat, d: nat)
    requires c <= d <= |ys|
    ensures PrefixTotal(m, ys, c) + Total(m, ys[c..d]) == PrefixTotal(m, ys, d)
  {
    if c < d {
      StretchTotal(m, ys, c, d - 1);
      assert ys[c..d] == ys[c..d - 1] + [ys[d - 1]];
      TotalAppend(m, ys[c..d - 1], ys[d - 1]);
    }
  }

  lemma {:induction false} NothingBelowZero(kind: Kind, ys: seq<Trade>, n: nat)
    requires n <= |ys| && Grows(kind, ys)
    ensures Cut(kind, ys, n, 0) == 0
  {
    if n > 0 {
      NothingBelowZero(kind, ys, n - 1);
      TotalsGrow(kind, ys, n - 1, n - 1);
    }
  }

  /** Bars `0..k` together are the day up to the cut at `(k + 1) * t`. */
  lemma {:induction false} BarsToIsPrefix(kind: Kind, t: int, m: Kind, ys: seq<Trade>, k: nat)
    requires t > 0 && Grows(kind, ys)
    ensures BarsTo(kind, t, m, ys, k) == PrefixTotal(m, ys, Cut(kind, ys, |ys|, (k + 1) * t))
  {
    BucketIsStretch(kind, t, ys, |ys|, k);
    var c, d := Cut(kind, ys, |ys|, k * t), Cut(kind, ys, |ys|, (k + 1) * t);
    StretchTotal(m, ys, c, d);
    if k == 0 {
      NothingBelowZero(kind, ys, |ys|);
      assert k * t == 0;
    } else {
      BarsToIsPrefix(kind, t, m, ys, k - 1);
      assert (k - 1) + 1 == k;
    }
  }

  /** Some bar after `k` holds a trade. */
  ghost predicate GoesOnPast(kind: Kind, t: int, ys: seq<Trade>, k: nat)
    requires t > 0
  {
    exists i: nat :: i < |ys| && PrefixTotal(kind, ys, i) / t > k
  }

  /**
   Once a later bar exists, bars `0..k` hold at least their thresholds together, and less than that plus the trade
   that crossed.
   */
  lemma {:induction false} BarBounds(kind: Kind, t: int, ys: seq<Trade>, k: nat)
    requires t > 0 && Grows(kind, ys) && GoesOnPast(kind, t, ys, k)
    ensures var last := Cut(kind, ys, |ys|, (k + 1) * t) - 1;
            && 0 <= last < |ys|
            && PrefixTotal(kind, ys, last) / t <= k
            && (k + 1) * t <= BarsTo(kind, t, kind, ys, k) < (k + 1) * t + Unit(kind, ys[last])
  {
    var i: nat :| i < |ys| && PrefixTotal(kind, ys, i) / t > k;
    BarsToIsPrefix(kind, t, kind, ys, k);
    CutIsPrefix(kind, ys, |ys|, (k + 1) * t);
    var c := Cut(kind, ys, |ys|, (k + 1) * t);
    BucketFloor(PrefixTotal(kind, ys, i), t, k);
    if c > i { TotalsGrow(kind, ys, i, c - 1); }
    Scale(1, k + 1, t);
    BucketCeiling(PrefixTotal(kind, ys, c - 1), t, k);
  }

  lemma {:induction false} BucketFloor(p: int, t: int, k: int)
    requires t > 0 && p / t > k
    ensures p >= (k + 1) * t
  {
    Scale(k + 1, p / t, t);
    assert p == (p / t) * t + p % t;
  }

  lemma {:induction false} BucketCeiling(p: int, t: int, k: int)
    requires t > 0 && p < (k + 1) * t
    ensures p / t <= k
  {
    if p / t > k { BucketFloor(p, t, k); }
  }

  lemma {:induction false} TicksCount(ys: seq<Trade>, n: nat)
    requires n <= |ys|
    ensures PrefixTotal(Tick, ys, n) == n
  {
    if n > 0 { TicksCount(ys, n - 1); }
  }

  /** A tick bar holds exactly its threshold, except the day's last. */
  lemma {:induction false} TickBarsExact(t: int, ys: seq<Trade>, k: nat)
    requires t > 0 && GoesOnPast(Tick, t, ys, k)
    ensures |Bucket(Tick, t, ys, k)| == t
  {
    BarBounds(Tick, t, ys, k);
    BarsToCount(t, ys, k);
    if k > 0 {
      var i: nat :| i < |ys| && PrefixTotal(Tick, ys, i) / t > k;
      assert PrefixTotal(Tick, ys, i) / t > k - 1 && GoesOnPast(Tick, t, ys, k - 1);
      BarBounds(Tick, t, ys, k - 1);
      assert (k + 1) * t == k * t + t;
    }
  }

  lemma {:induction false} BarsToCount(t: int, ys: seq<Trade>, k: nat)
    requires t > 0
    ensures BarsTo(Tick, t, Tick, ys, k) == |Bucket(Tick, t, ys, k)| +
            (if k == 0 then 0 else BarsTo(Tick, t, Tick, ys, k - 1))
  {
    TicksCount(Bucket(Tick, t, ys, k), |Bucket(Tick, t, ys, k)|);
  }

  // ---- a late trade ----

  /** Where `Insert` puts `x`. */
  function Place(ys: seq<Trade>, x: Trade): (p: nat)
    ensures p <= |ys|
  {
    if ys == [] || TradeLe(ys[|ys| - 1], x) then |ys| else Place(ys[..|ys| - 1], x)
  }

  ghost predicate Placed(r: seq<Trade>, ys: seq<Trade>, x: Trade, p: nat) {
    && |r| == |ys| + 1 && p <= |ys| && r[p] == x
    && (forall i :: 0 <= i < p ==> r[i] == ys[i])
    && (forall i :: p < i < |r| ==> r[i] == ys[i - 1])
  }

  lemma {:induction false} InsertPlaces(ys: seq<Trade>, x: Trade)
    ensures Placed(Insert(TradeLe, ys, x), ys, x, Place(ys, x))
  {
    if ys == [] || TradeLe(ys[|ys| - 1], x) {
      assert Insert(TradeLe, ys, x) == ys + [x];
    } else {
      var init, last := ys[..|ys| - 1], ys[|ys| - 1];
      InitLast(ys);
      InsertPlaces(init, x);
      InsertBefore(init, last, x);
      PlacedGrows(Insert(TradeLe, init, x), init, last, x, Place(init, x));
    }
  }

  lemma {:induction false} PlacedGrows(r: seq<Trade>, init: seq<Trade>, last: Trade, x: Trade, p: nat)
    requires Placed(r, init, x, p)
    ensures Placed(r + [last], init + [last], x, p)
  {}

  lemma {:induction false} CutSame(kind: Kind, ys: seq<Trade>, zs: seq<Trade>, n: nat, b: int)
    requires n <= |ys| && n <= |zs| && forall i :: 0 <= i < n ==> ys[i] == zs[i]
    ensures Cut(kind, ys, n, b) == Cut(kind, zs, n, b)
  {
    if n > 0 {
      CutSame(kind, ys, zs, n - 1, b);
      PrefixTotalSame(kind, ys, zs, n - 1);
    }
  }

  /** A cut reached by trade `p` lies within the first `p`. */
  lemma {:induction false} CutStops(kind: Kind, ys: seq<Trade>, p: nat, n: nat, b: int)
    requires p <= n <= |ys| && Grows(kind, ys) && PrefixTotal(kind, ys, p) >= b
    ensures Cut(kind, ys, n, b) == Cut(kind, ys, p, b)
    decreases n
  {
    if p < n {
      CutStops(kind, ys, p, n - 1, b);
      TotalsGrow(kind, ys, p, n - 1);
    }
  }

  /** Two days that agree on their first `p` trades agree on every bar complete by then. */
  lemma {:induction false} SharedStart(kind: Kind, t: int, ys: seq<Trade>, zs: seq<Trade>, p: nat, s: int)
    requires t > 0 && Grows(kind, ys) && Grows(kind, zs)
    requires p <= |ys| && p <= |zs| && (forall i :: 0 <= i < p ==> ys[i] == zs[i])
    requires s < PrefixTotal(kind, ys, p) / t
    ensures Bucket(kind, t, ys, s) == Bucket(kind, t, zs, s)
  {
    PrefixTotalSame(kind, ys, zs, p);
    BucketFloor(PrefixTotal(kind, ys, p), t, s);
    Scale(s, s + 1, t);
    StartCuts(kind, ys, zs, p, s * t);
    StartCuts(kind, ys, zs, p, (s + 1) * t);
    BucketIsStretch(kind, t, ys, |ys|, s);
    BucketIsStretch(kind, t, zs, |zs|, s);
    var c, d := Cut(kind, ys, p, s * t), Cut(kind, ys, p, (s + 1) * t);
    assert ys[c..d] == zs[c..d];
  }

  lemma {:induction false} StartCuts(kind: Kind, ys: seq<Trade>, zs: seq<Trade>, p: nat, b: int)
    requires Grows(kind, ys) && Grows(kind, zs)
    requires p <= |ys| && p <= |zs| && (forall i :: 0 <= i < p ==> ys[i] == zs[i])
    requires b <= PrefixTotal(kind, ys, p)
    ensures Cut(kind, ys, |ys|, b) == Cut(kind, ys, p, b) == Cut(kind, zs, |zs|, b)
  {
    PrefixTotalSame(kind, ys, zs, p);
    CutStops(kind, ys, p, |ys|, b);
    CutStops(kind, zs, p, |zs|, b);
    CutSame(kind, ys, zs, p, b);
  }

  lemma {:induction false} DayInserts(trades: seq<Trade>, x: Trade, g: Group)
    ensures Day(trades + [x], g) == if GroupOf(x) == g then Insert(TradeLe, Day(trades, g), x) else Day(trades, g)
  {
    SortIsSorted(trades);
    SortAppend(trades, x);
    WhereInsert(InGroup(g), Sort(TradeLe, trades), x);
  }

  /**
   A late trade leaves every bar below its own `bar_seq` as it was, and every bar of another symbol or day. From its
   own bar on, later boundaries of that day move.
   */
  lemma {:induction false} LateTradeIsLocal(kind: Kind, t: int, trades: seq<Trade>, x: Trade, g: Group, s: int)
    requires t > 0 && Grows(kind, Day(trades, g)) && Unit(kind, x) >= 0
    requires GroupOf(x) == g ==>
               s < PrefixTotal(kind, Day(trades, g), Place(Day(trades, g), x)) / t
    ensures BarOf(kind, t, Day(trades + [x], g), s) == BarOf(kind, t, Day(trades, g), s)
  {
    DayInserts(trades, x, g);
    if GroupOf(x) == g {
      var ys := Day(trades, g);
      InsertPlaces(ys, x);
      var p, zs := Place(ys, x), Insert(TradeLe, ys, x);
      forall y | y in zs ensures Unit(kind, y) >= 0 {
        assert y in multiset(zs);
        assert y in multiset(ys) || y == x;
      }
      SharedStart(kind, t, ys, zs, p, s);
    }
  }

  /** The late trade's own `bar_seq` is the one the day gives it. */
  lemma {:induction false} LateTradeBucket(kind: Kind, t: int, trades: seq<Trade>, x: Trade)
    requires t > 0
    ensures var ys, zs := Day(trades, GroupOf(x)), Day(trades + [x], GroupOf(x));
            var p := Place(ys, x);
            && p < |zs| && zs[p] == x && PrefixTotal(kind, zs, p) == PrefixTotal(kind, ys, p)
            && x in Bucket(kind, t, zs, PrefixTotal(kind, ys, p) / t)
  {
    var ys, zs := Day(trades, GroupOf(x)), Day(trades + [x], GroupOf(x));
    DayInserts(trades, x, GroupOf(x));
    InsertPlaces(ys, x);
    var p := Place(ys, x);
    PrefixTotalSame(kind, zs, ys, p);
    Contains(kind, t, zs, |zs|, p);
  }

  lemma {:induction false} Contains(kind: Kind, t: int, ys: seq<Trade>, n: nat, i: nat)
    requires t > 0 && i < n <= |ys|
    ensures ys[i] in Members(kind, t, ys, n, PrefixTotal(kind, ys, i) / t)
  {
    if i < n - 1 { Contains(kind, t, ys, n - 1, i); }
  }
}
