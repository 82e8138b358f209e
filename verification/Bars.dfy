/** Tick, volume and dollar bars (docker/lake/bars.py): the streaming pass against the cumulative-bucket definition. */
module Bars {
  import opened Prelude
  import opened Sorting
  import opened Trades

  const DAY_US := 86_400_000_000

  /** `(exchange, canonical_symbol, UTC day)`. */
  type Group = (string, string, int)
  type BarKey = (Group, int)
  type Row = (BarKey, Bar)

  function GroupOf(x: Trade): Group {
    (x.exchange, x.symbol, x.ts / DAY_US)
  }

  function InGroup(g: Group): Trade -> bool {
    x => GroupOf(x) == g
  }

  /** A group's trades, in order. */
  function Day(trades: seq<Trade>, g: Group): seq<Trade> {
    Where(InGroup(g), Sort(TradeLe, trades))
  }

  /** The trades whose cumulative total before them falls in bucket `s`. */
  function Members(kind: Kind, t: int, ys: seq<Trade>, n: nat, s: int): seq<Trade>
    requires n <= |ys| && t > 0
  {
    if n == 0 then [] else
      Members(kind, t, ys, n - 1, s) + (if PrefixTotal(kind, ys, n - 1) / t == s then [ys[n - 1]] else [])
  }

  function Bucket(kind: Kind, t: int, ys: seq<Trade>, s: int): seq<Trade>
    requires t > 0
  {
    Members(kind, t, ys, |ys|, s)
  }

  /** Bar `s` of a day. */
  function BarOf(kind: Kind, t: int, ys: seq<Trade>, s: int): Option<Bar>
    requires t > 0
  {
    Fold(Bucket(kind, t, ys, s))
  }

  lemma {:induction false} MembersSame(kind: Kind, t: int, ys: seq<Trade>, zs: seq<Trade>, n: nat, s: int)
    requires t > 0 && n <= |ys| && n <= |zs| && forall i :: 0 <= i < n ==> ys[i] == zs[i]
    ensures Members(kind, t, ys, n, s) == Members(kind, t, zs, n, s)
  {
    if n > 0 {
      MembersSame(kind, t, ys, zs, n - 1, s);
      PrefixTotalSame(kind, ys, zs, n - 1);
    }
  }

  lemma {:induction false} BucketAppend(kind: Kind, t: int, ys: seq<Trade>, x: Trade, s: int)
    requires t > 0
    ensures Bucket(kind, t, ys + [x], s) ==
            if Total(kind, ys) / t == s then Bucket(kind, t, ys, s) + [x] else Bucket(kind, t, ys, s)
  {
    MembersSame(kind, t, ys + [x], ys, |ys|, s);
    PrefixTotalSame(kind, ys + [x], ys, |ys|);
  }

  /** What one more trade of the day does to bar `s`. */
  lemma {:induction false} BarAppend(kind: Kind, t: int, ys: seq<Trade>, x: Trade, s: int)
    requires t > 0
    ensures var b := BarOf(kind, t, ys, s);
            BarOf(kind, t, ys + [x], s) ==
            if Total(kind, ys) / t == s then Some(Extended(if b.Some? then b.value else FirstOf(x), x)) else b
  {
    BucketAppend(kind, t, ys, x, s);
    FoldAppend(Bucket(kind, t, ys, s), x);
  }

  // ---- the streaming reference ----

  /** A group's trades among the first `i`. */
  function DayTo(ordered: seq<Trade>, i: nat, g: Group): seq<Trade>
    requires i <= |ordered|
  {
    Filter(InGroup(g), ordered, i)
  }

  predicate KeyLe(a: BarKey, b: BarKey) {
    if a.0.0 != b.0.0 then StringLe(a.0.0, b.0.0)
    else if a.0.1 != b.0.1 then StringLe(a.0.1, b.0.1)
    else if a.0.2 != b.0.2 then a.0.2 < b.0.2
    else a.1 <= b.1
  }

  /** The dictionaries `cum` and `bars` after `i` trades. */
  ghost predicate Streamed(kind: Kind, t: int, ordered: seq<Trade>, i: nat, cum: map<Group, int>,
                           bars: map<BarKey, Bar>)
    requires i <= |ordered| && t > 0
  {
    && (forall g :: (if g in cum then cum[g] else 0) == Total(kind, DayTo(ordered, i, g)))
    && (forall k: BarKey :: Stored(bars, k) == BarOf(kind, t, DayTo(ordered, i, k.0), k.1))
  }

  function Stored<K, V>(m: map<K, V>, k: K): Option<V> {
    if k in m then Some(m[k]) else None
  }

  lemma {:induction false} DayStep(ordered: seq<Trade>, i: nat, g: Group)
    requires i < |ordered|
    ensures DayTo(ordered, i + 1, g) ==
            if GroupOf(ordered[i]) == g then DayTo(ordered, i, g) + [ordered[i]] else DayTo(ordered, i, g)
  {}

  /** One entry of the new dictionaries. */
  lemma {:induction false} BarStep(kind: Kind, t: int, ys: seq<Trade>, x: Trade, g: Group, bars: map<BarKey, Bar>,
                                   key: BarKey, s: int)
    requires t > 0 && key == (g, Total(kind, ys) / t)
    requires Stored(bars, (g, s)) == BarOf(kind, t, ys, s)
    ensures Stored(bars[key := Extended(if key in bars then bars[key] else FirstOf(x), x)], (g, s)) ==
            BarOf(kind, t, ys + [x], s)
  {
    BarAppend(kind, t, ys, x, s);
  }

  lemma {:induction false} CumStep(kind: Kind, t: int, ordered: seq<Trade>, i: nat, cum: map<Group, int>,
                                   bars: map<BarKey, Bar>, h: Group)
    requires i < |ordered| && t > 0 && Streamed(kind, t, ordered, i, cum, bars)
    ensures var x := ordered[i];
            var g := GroupOf(x);
            var cum' := cum[g := (if g in cum then cum[g] else 0) + Unit(kind, x)];
            (if h in cum' then cum'[h] else 0) == Total(kind, DayTo(ordered, i + 1, h))
  {
    DayStep(ordered, i, h);
    TotalAppend(kind, DayTo(ordered, i, h), ordered[i]);
  }

  lemma {:induction false} BarsStep(kind: Kind, t: int, ordered: seq<Trade>, i: nat, bars: map<BarKey, Bar>,
                                    key: BarKey, k: BarKey)
    requires i < |ordered| && t > 0 && Stored(bars, k) == BarOf(kind, t, DayTo(ordered, i, k.0), k.1)
    requires key == (GroupOf(ordered[i]), Total(kind, DayTo(ordered, i, GroupOf(ordered[i]))) / t)
    ensures Stored(bars[key := Extended(if key in bars then bars[key] else FirstOf(ordered[i]), ordered[i])], k) ==
            BarOf(kind, t, DayTo(ordered, i + 1, k.0), k.1)
  {
    DayStep(ordered, i, k.0);
    if k.0 == key.0 {
      BarStep(kind, t, DayTo(ordered, i, k.0), ordered[i], k.0, bars, key, k.1);
      assert k == (k.0, k.1);
    }
  }

  /** The entries `bars` and `cum` after one more trade. */
  function CumWith(kind: Kind, cum: map<Group, int>, x: Trade): map<Group, int> {
    cum[GroupOf(x) := (if GroupOf(x) in cum then cum[GroupOf(x)] else 0) + Unit(kind, x)]
  }

  function KeyWith(t: int, cum: map<Group, int>, x: Trade): BarKey
    requires t > 0
  {
    (GroupOf(x), (if GroupOf(x) in cum then cum[GroupOf(x)] else 0) / t)
  }

  function BarsWith(bars: map<BarKey, Bar>, key: BarKey, x: Trade): map<BarKey, Bar> {
    bars[key := Extended(if key in bars then bars[key] else FirstOf(x), x)]
  }

  lemma {:induction false} StreamStep(kind: Kind, t: int, ordered: seq<Trade>, i: nat, cum: map<Group, int>,
                                      bars: map<BarKey, Bar>)
    requires i < |ordered| && t > 0 && Streamed(kind, t, ordered, i, cum, bars)
    ensures Streamed(kind, t, ordered, i + 1, CumWith(kind, cum, ordered[i]),
                     BarsWith(bars, KeyWith(t, cum, ordered[i]), ordered[i]))
  {
    var x := ordered[i];
    var key := KeyWith(t, cum, x);
    forall h
      ensures var c := CumWith(kind, cum, x); (if h in c then c[h] else 0) == Total(kind, DayTo(ordered, i + 1, h))
    {
      CumStep(kind, t, ordered, i, cum, bars, h);
    }
    assert key.1 == Total(kind, DayTo(ordered, i, GroupOf(x))) / t;
    forall k: BarKey ensures Stored(BarsWith(bars, key, x), k) == BarOf(kind, t, DayTo(ordered, i + 1, k.0), k.1) {
      assert Stored(bars, k) == BarOf(kind, t, DayTo(ordered, i, k.0), k.1);
      BarsStep(kind, t, ordered, i, bars, key, k);
    }
  }

  /** The rows are exactly the non-empty buckets, each with its own bar, in key order. */
  ghost predicate IsReference(kind: Kind, t: int, trades: seq<Trade>, rows: seq<Row>)
    requires t > 0
  {
    && (forall i, j :: 0 <= i < j < |rows| ==> KeyLe(rows[i].0, rows[j].0) && rows[i].0 != rows[j].0)
    && (forall i :: 0 <= i < |rows| ==> BarOf(kind, t, Day(trades, rows[i].0.0), rows[i].0.1) == Some(rows[i].1))
    && (forall k: BarKey :: BarOf(kind, t, Day(trades, k.0), k.1).Some? ==>
          exists i :: 0 <= i < |rows| && rows[i].0 == k)
  }

  lemma {:induction false} KeyTrans(a: BarKey, b: BarKey, c: BarKey)
    requires KeyLe(a, b) && KeyLe(b, c)
    ensures KeyLe(a, c)
  {
    StringTotal(a.0.0, a.0.0);
    StringTotal(c.0.0, c.0.0);
    StringTotal(a.0.1, a.0.1);
    StringTotal(c.0.1, c.0.1);
    if a.0.0 != b.0.0 || b.0.0 != c.0.0 {
      StringTrans(a.0.0, b.0.0, c.0.0);
      if a.0.0 == c.0.0 { StringAnti(a.0.0, b.0.0); }
    } else if a.0.1 != b.0.1 || b.0.1 != c.0.1 {
      StringTrans(a.0.1, b.0.1, c.0.1);
      if a.0.1 == c.0.1 { StringAnti(a.0.1, b.0.1); }
    }
  }

  lemma {:induction false} KeyOrder()
    ensures TotalPreorder(KeyLe)
  {
    forall a: BarKey, b: BarKey ensures KeyLe(a, b) || KeyLe(b, a) {
      StringTotal(a.0.0, b.0.0);
      StringTotal(a.0.1, b.0.1);
    }
    forall a: BarKey, b: BarKey, c: BarKey | KeyLe(a, b) && KeyLe(b, c) ensures KeyLe(a, c) {
      KeyTrans(a, b, c);
    }
  }

  lemma {:induction false} KeyAnti(a: BarKey, b: BarKey)
    requires KeyLe(a, b) && KeyLe(b, a)
    ensures a == b
  {
    if a.0.0 != b.0.0 { StringAnti(a.0.0, b.0.0); }
    else if a.0.1 != b.0.1 { StringAnti(a.0.1, b.0.1); }
  }

  lemma {:induction false} KeysDistinct(keys: seq<BarKey>)
    requires forall i, j :: 0 <= i < j < |keys| ==> keys[i] != keys[j]
    ensures Distinct(KeyLe, keys)
  {
    forall i, j | 0 <= i < |keys| && 0 <= j < |keys| && i != j
      ensures !(KeyLe(keys[i], keys[j]) && KeyLe(keys[j], keys[i]))
    {
      assert keys[i] != keys[j];
      if KeyLe(keys[i], keys[j]) && KeyLe(keys[j], keys[i]) { KeyAnti(keys[i], keys[j]); }
    }
  }

  /** `sorted(bars)`: the keys once each, in order. */
  lemma {:induction false} SortedKeys(keys: seq<BarKey>)
    requires forall i, j :: 0 <= i < j < |keys| ==> keys[i] != keys[j]
    ensures var s := Sort(KeyLe, keys);
            && (forall i, j :: 0 <= i < j < |s| ==> KeyLe(s[i], s[j]) && s[i] != s[j])
            && (forall k :: k in s <==> k in keys)
  {
    KeyOrder();
    KeysDistinct(keys);
    var s := Sort(KeyLe, keys);
    SortSorted(KeyLe, keys);
    DistinctPermutation(KeyLe, keys, s);
    forall k ensures k in s <==> k in keys {
      assert k in s <==> k in multiset(s);
      assert k in keys <==> k in multiset(keys);
    }
  }

  lemma {:induction false} RowsAreReference(kind: Kind, t: int, trades: seq<Trade>, bars: map<BarKey, Bar>,
                                            sorted: seq<BarKey>, rows: seq<Row>)
    requires t > 0 && |rows| == |sorted|
    requires forall k: BarKey :: Stored(bars, k) == BarOf(kind, t, Day(trades, k.0), k.1)
    requires forall i, j :: 0 <= i < j < |sorted| ==> KeyLe(sorted[i], sorted[j]) && sorted[i] != sorted[j]
    requires forall k :: k in sorted <==> k in bars
    requires forall i :: 0 <= i < |rows| ==> rows[i].0 == sorted[i] && Stored(bars, sorted[i]) == Some(rows[i].1)
    ensures IsReference(kind, t, trades, rows)
  {
    forall k: BarKey | BarOf(kind, t, Day(trades, k.0), k.1).Some?
      ensures exists i :: 0 <= i < |rows| && rows[i].0 == k
    {
      assert Stored(bars, k).Some? && k in sorted;
      var i :| 0 <= i < |sorted| && sorted[i] == k;
      assert rows[i].0 == k;
    }
  }

  /** The dictionary's keys in the order they were first stored. */
  ghost predicate Lists(keys: seq<BarKey>, bars: map<BarKey, Bar>) {
    && (forall k :: k in keys <==> k in bars)
    && (forall a, b :: 0 <= a < b < |keys| ==> keys[a] != keys[b])
  }

  lemma {:induction false} StreamStart(kind: Kind, t: int, ordered: seq<Trade>)
    requires t > 0
    ensures Streamed(kind, t, ordered, 0, map[], map[])
  {}

  lemma {:induction false} ListedRows(kind: Kind, t: int, trades: seq<Trade>, bars: map<BarKey, Bar>, keys: seq<BarKey>,
                                      rows: seq<Row>)
    requires t > 0 && Lists(keys, bars)
    requires forall k: BarKey :: Stored(bars, k) == BarOf(kind, t, Day(trades, k.0), k.1)
    requires |rows| == |keys| && RowsOf(bars, Sort(KeyLe, keys), rows)
    ensures IsReference(kind, t, trades, rows)
  {
    SortedKeys(keys);
    RowsAreReference(kind, t, trades, bars, Sort(KeyLe, keys), rows);
  }

  ghost predicate RowsOf(bars: map<BarKey, Bar>, sorted: seq<BarKey>, rows: seq<Row>)
    requires |rows| <= |sorted|
  {
    forall j :: 0 <= j < |rows| ==> rows[j].0 == sorted[j] && Stored(bars, sorted[j]) == Some(rows[j].1)
  }

  /** The entries of `bars` at `sorted`, in that order. */
  method Rows(bars: map<BarKey, Bar>, sorted: seq<BarKey>) returns (rows: seq<Row>)
    requires forall k :: k in sorted ==> k in bars
    ensures |rows| == |sorted| && RowsOf(bars, sorted, rows)
  {
    rows := [];
    for i := 0 to |sorted|
      invariant |rows| == i && RowsOf(bars, sorted, rows)
    {
      assert sorted[i] in sorted;
      rows := rows + [(sorted[i], bars[sorted[i]])];
    }
  }

  lemma {:induction false} StreamedAll(kind: Kind, t: int, trades: seq<Trade>, bars: map<BarKey, Bar>)
    requires t > 0 && exists cum :: Streamed(kind, t, Sort(TradeLe, trades), |trades|, cum, bars)
    ensures forall k: BarKey :: Stored(bars, k) == BarOf(kind, t, Day(trades, k.0), k.1)
  {}

  /** One trade into the dictionaries. */
  method Take(kind: Kind, t: int, x: Trade, cum: map<Group, int>, bars: map<BarKey, Bar>, keys: seq<BarKey>)
    returns (cum': map<Group, int>, bars': map<BarKey, Bar>, keys': seq<BarKey>)
    requires t > 0 && Lists(keys, bars)
    ensures cum' == CumWith(kind, cum, x) && bars' == BarsWith(bars, KeyWith(t, cum, x), x) && Lists(keys', bars')
  {
    var group := GroupOf(x);
    var before := if group in cum then cum[group] else 0;
    cum' := cum[group := before + Unit(kind, x)];
    var key := (group, before / t);
    keys', bars' := keys, bars;
    if key !in bars {
      keys' := keys + [key];
      bars' := bars[key := FirstOf(x)];
    }
    bars' := bars'[key := Extended(bars'[key], x)];
  }

  method Stream(kind: Kind, t: int, ordered: seq<Trade>) returns (bars: map<BarKey, Bar>, keys: seq<BarKey>)
    requires t > 0
    ensures exists cum :: Streamed(kind, t, ordered, |ordered|, cum, bars)
    ensures Lists(keys, bars)
  {
    bars, keys := map[], [];
    var cum: map<Group, int> := map[];
    StreamStart(kind, t, ordered);
    for i := 0 to |ordered|
      invariant Streamed(kind, t, ordered, i, cum, bars)
      invariant Lists(keys, bars)
    {
      StreamStep(kind, t, ordered, i, cum, bars);
      cum, bars, keys := Take(kind, t, ordered[i], cum, bars, keys);
    }
  }

  /** `reference`: one pass over the sorted trades with two dictionaries. */
  method Reference(trades: seq<Trade>, kind: Kind, t: int) returns (rows: seq<Row>)
    requires t > 0
    ensures IsReference(kind, t, trades, rows)
  {
    var bars, keys := Stream(kind, t, Sort(TradeLe, trades));
    StreamedAll(kind, t, trades, bars);
    SortedKeys(keys);
    rows := Rows(bars, Sort(KeyLe, keys));
    ListedRows(kind, t, trades, bars, keys, rows);
  }

  lemma {:induction false} IndexedKeys(kind: Kind, t: int, trades: seq<Trade>, rows: seq<Row>, more: seq<Row>)
    requires t > 0 && IsReference(kind, t, trades, rows) && IsReference(kind, t, trades, more)
    ensures forall k :: k in KeysOf(rows) ==> k in KeysOf(more)
  {
    forall k | k in KeysOf(rows) ensures k in KeysOf(more) {
      var i :| 0 <= i < |rows| && KeysOf(rows)[i] == k;
      assert BarOf(kind, t, Day(trades, k.0), k.1).Some?;
      var j :| 0 <= j < |more| && more[j].0 == k;
      assert KeysOf(more)[j] == k;
    }
  }

  ghost function KeysOf(rows: seq<Row>): seq<BarKey> {
    seq(|rows|, i requires 0 <= i < |rows| => rows[i].0)
  }

  lemma {:induction false} FirstElement(r: seq<BarKey>)
    ensures r != [] ==> exists k :: k in r
  {
    if r != [] { assert r[0] in r; }
  }

  ghost predicate Increasing(s: seq<BarKey>) {
    forall i, j :: 0 <= i < j < |s| ==> KeyLe(s[i], s[j]) && s[i] != s[j]
  }

  /** Dropping the greatest key drops that key only. */
  lemma {:induction false} InitKeys(s: seq<BarKey>)
    requires s != [] && Increasing(s)
    ensures var init, last := s[..|s| - 1], s[|s| - 1];
            Increasing(init) && forall k :: k in init <==> k in s && k != last
  {
    var init, last := s[..|s| - 1], s[|s| - 1];
    forall k ensures k in init <==> k in s && k != last {
      if k in init {
        var m :| 0 <= m < |init| && init[m] == k;
        assert s[m] == k;
      }
      if k in s && k != last {
        var m :| 0 <= m < |s| && s[m] == k;
        assert init[m] == k;
      }
    }
  }

  lemma {:induction false} SameLastKey(s: seq<BarKey>, r: seq<BarKey>)
    requires s != [] && r != [] && Increasing(s) && Increasing(r) && forall k :: k in s <==> k in r
    ensures s[|s| - 1] == r[|r| - 1]
  {
    var a, b := s[|s| - 1], r[|r| - 1];
    assert a in s && a in r && b in r && b in s;
    var i :| 0 <= i < |s| && s[i] == b;
    var j :| 0 <= j < |r| && r[j] == a;
    if i < |s| - 1 && j < |r| - 1 { KeyAnti(a, b); }
  }

  /** Two strictly increasing listings of the same keys are one. */
  lemma {:induction false} SameListing(s: seq<BarKey>, r: seq<BarKey>)
    requires Increasing(s) && Increasing(r) && forall k :: k in s <==> k in r
    ensures s == r
  {
    FirstElement(s);
    FirstElement(r);
    if s != [] {
      SameLastKey(s, r);
      InitKeys(s);
      InitKeys(r);
      SameListing(s[..|s| - 1], r[..|r| - 1]);
      InitLast(s);
      InitLast(r);
    }
  }

  lemma {:induction false} SameDays(kind: Kind, t: int, trades: seq<Trade>, others: seq<Trade>, rows: seq<Row>)
    requires t > 0 && multiset(trades) == multiset(others) && Distinct(TradeLe, trades)
    requires IsReference(kind, t, others, rows)
    ensures IsReference(kind, t, trades, rows)
  {
    assert Sort(TradeLe, trades) == Sort(TradeLe, others) by {
      TradeOrder();
      SortPermutation(TradeLe, trades, others);
    }
  }

  lemma {:induction false} SameRows(kind: Kind, t: int, trades: seq<Trade>, rows: seq<Row>, more: seq<Row>)
    requires t > 0 && IsReference(kind, t, trades, rows) && IsReference(kind, t, trades, more)
    requires KeysOf(rows) == KeysOf(more)
    ensures rows == more
  {
    assert |rows| == |KeysOf(rows)| == |more|;
    forall i | 0 <= i < |rows| ensures rows[i] == more[i] {
      assert KeysOf(rows)[i] == KeysOf(more)[i];
    }
  }

  /** The rows depend on which trades there are, never on the order they were handed over in. */
  lemma {:induction false} PermutationInvariant(kind: Kind, t: int, trades: seq<Trade>, others: seq<Trade>,
                                                rows: seq<Row>, more: seq<Row>)
    requires t > 0 && multiset(trades) == multiset(others) && Distinct(TradeLe, trades)
    requires IsReference(kind, t, trades, rows) && IsReference(kind, t, others, more)
    ensures rows == more
  {
    SameDays(kind, t, trades, others, more);
    IndexedKeys(kind, t, trades, rows, more);
    IndexedKeys(kind, t, trades, more, rows);
    SameListing(KeysOf(rows), KeysOf(more));
    SameRows(kind, t, trades, rows, more);
  }

  // ---- conservation ----

  /** The total of column `m` over the rows of one group among the first `n`. */
  ghost function RowsTotal(m: Kind, rows: seq<Row>, g: Group, n: nat): int
    requires n <= |rows|
  {
    if n == 0 then 0 else
      RowsTotal(m, rows, g, n - 1) + (if rows[n - 1].0.0 == g then Column(m, rows[n - 1].1) else 0)
  }

  /** The total of `m` over the buckets among the first `n` keys that belong to `g`. */
  ghost function BucketsTotal(kind: Kind, t: int, m: Kind, ys: seq<Trade>, keys: seq<BarKey>, g: Group, n: nat): int
    requires n <= |keys| && t > 0
  {
    if n == 0 then 0 else
      BucketsTotal(kind, t, m, ys, keys, g, n - 1)
      + (if keys[n - 1].0 == g then Total(m, Bucket(kind, t, ys, keys[n - 1].1)) else 0)
  }

  lemma {:induction false} BucketsGrow(kind: Kind, t: int, m: Kind, ys: seq<Trade>, x: Trade, keys: seq<BarKey>,
                                       g: Group, n: nat)
    requires n <= |keys| && t > 0 && forall i, j :: 0 <= i < j < |keys| ==> keys[i] != keys[j]
    ensures BucketsTotal(kind, t, m, ys + [x], keys, g, n) ==
            BucketsTotal(kind, t, m, ys, keys, g, n) + (if (g, Total(kind, ys) / t) in keys[..n] then Unit(m, x) else 0)
  {
    if n > 0 {
      BucketsGrow(kind, t, m, ys, x, keys, g, n - 1);
      var last, key := keys[n - 1], (g, Total(kind, ys) / t);
      assert keys[..n] == keys[..n - 1] + [last];
      BucketAppend(kind, t, ys, x, last.1);
      TotalAppend(m, Bucket(kind, t, ys, last.1), x);
      if last == key { assert key !in keys[..n - 1]; }
    }
  }

  lemma {:induction false} NoTradesNoTotal(kind: Kind, t: int, m: Kind, keys: seq<BarKey>, g: Group, n: nat)
    requires n <= |keys| && t > 0
    ensures BucketsTotal(kind, t, m, [], keys, g, n) == 0
  {
    if n > 0 { NoTradesNoTotal(kind, t, m, keys, g, n - 1); }
  }

  /** Buckets over a listing that misses none of the day's hold exactly what the day's trades hold. */
  lemma {:induction false} BucketsCover(kind: Kind, t: int, m: Kind, ys: seq<Trade>, keys: seq<BarKey>, g: Group)
    requires t > 0 && forall i, j :: 0 <= i < j < |keys| ==> keys[i] != keys[j]
    requires forall s :: Bucket(kind, t, ys, s) != [] ==> (g, s) in keys
    ensures BucketsTotal(kind, t, m, ys, keys, g, |keys|) == Total(m, ys)
  {
    if ys == [] {
      NoTradesNoTotal(kind, t, m, keys, g, |keys|);
    } else {
      var init, x := ys[..|ys| - 1], ys[|ys| - 1];
      assert ys == init + [x];
      forall s | Bucket(kind, t, init, s) != [] ensures (g, s) in keys {
        BucketAppend(kind, t, init, x, s);
      }
      BucketsCover(kind, t, m, init, keys, g);
      BucketsGrow(kind, t, m, init, x, keys, g, |keys|);
      BucketAppend(kind, t, init, x, Total(kind, init) / t);
      assert keys[..|keys|] == keys;
      TotalAppend(m, init, x);
    }
  }

  lemma {:induction false} RowColumn(kind: Kind, t: int, m: Kind, trades: seq<Trade>, rows: seq<Row>, i: nat)
    requires t > 0 && i < |rows| && IsReference(kind, t, trades, rows)
    ensures Column(m, rows[i].1) == Total(m, Bucket(kind, t, Day(trades, rows[i].0.0), rows[i].0.1))
  {
    FoldSummarises(Bucket(kind, t, Day(trades, rows[i].0.0), rows[i].0.1));
  }

  lemma {:induction false} RowsAreBuckets(kind: Kind, t: int, m: Kind, ys: seq<Trade>, rows: seq<Row>,
                                          keys: seq<BarKey>, g: Group, n: nat)
    requires t > 0 && n <= |rows| == |keys| && forall i :: 0 <= i < |rows| ==> keys[i] == rows[i].0
    requires forall i :: 0 <= i < |rows| && rows[i].0.0 == g ==>
               Column(m, rows[i].1) == Total(m, Bucket(kind, t, ys, rows[i].0.1))
    ensures RowsTotal(m, rows, g, n) == BucketsTotal(kind, t, m, ys, keys, g, n)
  {
    if n > 0 {
      RowsAreBuckets(kind, t, m, ys, rows, keys, g, n - 1);
      NextRow(kind, t, m, ys, rows, keys, g, n);
    }
  }

  lemma {:induction false} NextRow(kind: Kind, t: int, m: Kind, ys: seq<Trade>, rows: seq<Row>, keys: seq<BarKey>,
                                   g: Group, n: nat)
    requires t > 0 && 0 < n <= |rows| == |keys| && keys[n - 1] == rows[n - 1].0
    requires RowsTotal(m, rows, g, n - 1) == BucketsTotal(kind, t, m, ys, keys, g, n - 1)
    requires rows[n - 1].0.0 == g ==> Column(m, rows[n - 1].1) == Total(m, Bucket(kind, t, ys, rows[n - 1].0.1))
    ensures RowsTotal(m, rows, g, n) == BucketsTotal(kind, t, m, ys, keys, g, n)
  {}

  /** Every non-empty bucket of a day is listed. */
  lemma {:induction false} BucketsListed(kind: Kind, t: int, trades: seq<Trade>, rows: seq<Row>, g: Group)
    requires t > 0 && IsReference(kind, t, trades, rows)
    ensures forall s :: Bucket(kind, t, Day(trades, g), s) != [] ==> (g, s) in KeysOf(rows)
  {
    forall s | Bucket(kind, t, Day(trades, g), s) != [] ensures (g, s) in KeysOf(rows) {
      FoldSummarises(Bucket(kind, t, Day(trades, g), s));
      assert BarOf(kind, t, Day(trades, (g, s).0), (g, s).1).Some?;
      var i :| 0 <= i < |rows| && rows[i].0 == (g, s);
      assert KeysOf(rows)[i] == (g, s);
    }
  }

  /** Trade count, volume and notional of a group are conserved by its bars, whatever they are cut by. */
  lemma {:induction false} BarsConserve(kind: Kind, t: int, m: Kind, trades: seq<Trade>, rows: seq<Row>, g: Group)
    requires t > 0 && IsReference(kind, t, trades, rows)
    ensures RowsTotal(m, rows, g, |rows|) == Total(m, Day(trades, g))
  {
    forall i | 0 <= i < |rows| && rows[i].0.0 == g
      ensures Column(m, rows[i].1) == Total(m, Bucket(kind, t, Day(trades, g), rows[i].0.1))
    {
      RowColumn(kind, t, m, trades, rows, i);
    }
    BucketsListed(kind, t, trades, rows, g);
    RowsAreBuckets(kind, t, m, Day(trades, g), rows, KeysOf(rows), g, |rows|);
    BucketsCover(kind, t, m, Day(trades, g), KeysOf(rows), g);
  }
}
