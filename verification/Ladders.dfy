/** One side of an order book: prices in 1e-8 units, absolute quantities, and which levels are best. */
module Ladders {
  import opened Prelude

  datatype Side = Bid | Ask

  /** `{price: quantity}`. */
  type Ladder = map<int, int>

  type Level = (int, int)

  predicate Better(side: Side, a: int, b: int) {
    if side.Bid? then a > b else a < b
  }

  lemma {:induction false} BestExists(side: Side, s: set<int>)
    requires s != {}
    ensures exists b :: b in s && forall x :: x in s ==> x == b || Better(side, b, x)
  {
    SomeElement(s);
    var b: int :| b in s;
    if x: int :| x in s && Better(side, x, b) {
      assert x in s - {b};
      BestExists(side, s - {b});
      var best :| best in s - {b} && forall y :: y in s - {b} ==> y == best || Better(side, best, y);
      forall y | y in s ensures y == best || Better(side, best, y) {
        assert y == b || y in s - {b};
      }
    } else {
      forall x | x in s ensures x == b || Better(side, b, x) {}
    }
  }

  ghost function BestOf(side: Side, s: set<int>): (b: int)
    requires s != {}
    ensures b in s && forall x :: x in s ==> x == b || Better(side, b, x)
  {
    BestExists(side, s);
    var b :| b in s && forall x :: x in s ==> x == b || Better(side, b, x);
    b
  }

  /** The best `n` prices, best first. */
  ghost function BestKeys(side: Side, s: set<int>, n: nat): seq<int>
    decreases n
  {
    if n == 0 || s == {} then [] else
      var b := BestOf(side, s);
      [b] + BestKeys(side, s - {b}, n - 1)
  }

  /** What "best `n`" means: as many as there are, in strict order, and everything left out is worse. */
  lemma {:induction false} BestKeysMean(side: Side, s: set<int>, n: nat)
    ensures var r := BestKeys(side, s, n);
            && |r| == Min(n, |s|)
            && (forall x :: x in r ==> x in s)
            && (forall i, j :: 0 <= i < j < |r| ==> Better(side, r[i], r[j]))
            && (forall x, i :: x in s && x !in r && 0 <= i < |r| ==> Better(side, r[i], x))
    decreases n
  {
    if n > 0 && s != {} {
      var b := BestOf(side, s);
      var rest := BestKeys(side, s - {b}, n - 1);
      BestKeysMean(side, s - {b}, n - 1);
      var r := BestKeys(side, s, n);
      assert r == [b] + rest;
      forall i, j | 0 <= i < j < |r| ensures Better(side, r[i], r[j]) {
        assert r[j] == rest[j - 1] && r[j] in rest;
        if i > 0 { assert r[i] == rest[i - 1]; }
      }
      forall x, i | x in s && x !in r && 0 <= i < |r| ensures Better(side, r[i], x) {
        assert x in s - {b} && x !in rest;
        if i > 0 { assert r[i] == rest[i - 1]; }
      }
    }
  }

  lemma {:induction false} BestKeysFrom(side: Side, s: set<int>, n: nat)
    ensures forall x :: x in BestKeys(side, s, n) ==> x in s
    decreases n
  {
    if n > 0 && s != {} { BestKeysFrom(side, s - {BestOf(side, s)}, n - 1); }
  }

  lemma {:induction false} SameBest(side: Side, sub: set<int>, s: set<int>)
    requires sub <= s && s != {} && BestOf(side, s) in sub
    ensures BestOf(side, sub) == BestOf(side, s)
  {}

  /** Dropping prices outside the best `n` does not change the best `n`. */
  lemma {:induction false} BestOfSubset(side: Side, sub: set<int>, s: set<int>, n: nat)
    requires sub <= s && forall x :: x in BestKeys(side, s, n) ==> x in sub
    ensures BestKeys(side, sub, n) == BestKeys(side, s, n)
    decreases n
  {
    if n > 0 && s != {} {
      var b := BestOf(side, s);
      RestInSubset(side, sub, s, n);
      SameBest(side, sub, s);
      BestKeysNext(side, s, n);
      BestKeysNext(side, sub, n);
      BestOfSubset(side, sub - {b}, s - {b}, n - 1);
    }
  }

  lemma {:induction false} BestKeysNext(side: Side, s: set<int>, n: nat)
    requires n > 0 && s != {}
    ensures BestKeys(side, s, n) == [BestOf(side, s)] + BestKeys(side, s - {BestOf(side, s)}, n - 1)
  {}

  lemma {:induction false} RestInSubset(side: Side, sub: set<int>, s: set<int>, n: nat)
    requires n > 0 && s != {} && forall x :: x in BestKeys(side, s, n) ==> x in sub
    ensures var b := BestOf(side, s); b in sub && forall x :: x in BestKeys(side, s - {b}, n - 1) ==> x in sub - {b}
  {
    var b := BestOf(side, s);
    var all, rest := BestKeys(side, s, n), BestKeys(side, s - {b}, n - 1);
    BestKeysNext(side, s, n);
    assert all[0] == b && b in all;
    BestKeysFrom(side, s - {b}, n - 1);
    forall x | x in rest ensures x in sub - {b} {
      assert x in all;
    }
  }

  lemma {:induction false} FewerIsPrefix(side: Side, s: set<int>, n: nat, m: nat)
    requires n <= m
    ensures BestKeys(side, s, n) <= BestKeys(side, s, m)
    decreases n
  {
    if n > 0 && s != {} {
      FewerIsPrefix(side, s - {BestOf(side, s)}, n - 1, m - 1);
    }
  }

  /** The book a depth-limited subscription describes: the best `depth` levels. */
  ghost function Window(side: Side, m: Ladder, depth: nat): Ladder {
    map px | px in m && px in BestKeys(side, m.Keys, depth) :: m[px]
  }

  lemma {:induction false} WindowKeys(side: Side, m: Ladder, depth: nat)
    ensures forall px :: px in Window(side, m, depth) <==> px in BestKeys(side, m.Keys, depth)
    ensures |m| <= depth ==> Window(side, m, depth) == m
  {
    BestKeysMean(side, m.Keys, depth);
    if |m| <= depth {
      var r := BestKeys(side, m.Keys, depth);
      AllOf(side, m.Keys, r);
    }
  }

  lemma {:induction false} AllOf(side: Side, s: set<int>, r: seq<int>)
    requires |r| == |s| && (forall x :: x in r ==> x in s)
    requires forall i, j :: 0 <= i < j < |r| ==> Better(side, r[i], r[j])
    ensures forall x :: x in s ==> x in r
  {
    var elems := set x | x in r;
    DistinctSize(r);
    assert elems <= s;
    if elems != s {
      assert elems < s;
      SmallerSubset(elems, s);
    }
  }

  lemma {:induction false} SmallerSubset(a: set<int>, b: set<int>)
    requires a <= b && a != b
    ensures |a| < |b|
  {
    SomeElement(b - a);
    var x: int :| x in b - a;
    assert a <= b - {x};
    SubsetSize(a, b - {x});
  }

  lemma {:induction false} SubsetSize(a: set<int>, b: set<int>)
    requires a <= b
    ensures |a| <= |b|
  {
    assert b == a + (b - a);
  }

  lemma {:induction false} DistinctSize(r: seq<int>)
    requires forall i, j :: 0 <= i < j < |r| ==> r[i] != r[j]
    ensures |set x | x in r| == |r|
  {
    if r != [] {
      var init, last := r[..|r| - 1], r[|r| - 1];
      DistinctSize(init);
      assert last !in init;
      assert (set x | x in r) == (set x | x in init) + {last};
    }
  }

  /** The best `n` levels with their quantities, best first. */
  ghost function TopLevels(side: Side, m: Ladder, n: nat): seq<Level> {
    BestKeysIn(side, m, n);
    var keys := BestKeys(side, m.Keys, n);
    seq(|keys|, i requires 0 <= i < |keys| => (keys[i], m[keys[i]]))
  }

  lemma {:induction false} BestKeysIn(side: Side, m: Ladder, n: nat)
    ensures forall i :: 0 <= i < |BestKeys(side, m.Keys, n)| ==> BestKeys(side, m.Keys, n)[i] in m
  {
    BestKeysMean(side, m.Keys, n);
  }

  /** The top of a window is the top of the whole book. */
  lemma {:induction false} TopOfWindow(side: Side, m: Ladder, n: nat, depth: nat)
    requires n <= depth
    ensures TopLevels(side, Window(side, m, depth), n) == TopLevels(side, m, n)
  {
    var w := Window(side, m, depth);
    FewerIsPrefix(side, m.Keys, n, depth);
    WindowKeys(side, m, depth);
    BestOfSubset(side, w.Keys, m.Keys, n);
    BestKeysIn(side, m, n);
    BestKeysIn(side, w, n);
  }

  /** Removing the worst level of an over-full ladder does not change its window. */
  lemma {:induction false} DropWorstKeys(side: Side, s: set<int>, w: int, n: nat)
    requires w in s && n < |s| && forall x :: x in s ==> x == w || Better(side, x, w)
    ensures BestKeys(side, s - {w}, n) == BestKeys(side, s, n)
  {
    WorstIsOut(side, s, w, n);
    BestKeysFrom(side, s, n);
    BestOfSubset(side, s - {w}, s, n);
  }

  lemma {:induction false} WorstIsOut(side: Side, s: set<int>, w: int, n: nat)
    requires w in s && n < |s| && forall x :: x in s ==> x == w || Better(side, x, w)
    ensures w !in BestKeys(side, s, n)
    decreases n
  {
    if n > 0 {
      var b := BestOf(side, s);
      assert (forall x :: x in s ==> x == w) ==> s == {w};
      WorstIsOut(side, s - {b}, w, n - 1);
    }
  }

  lemma {:induction false} DropWorst(side: Side, m: Ladder, w: int, depth: nat)
    requires w in m && depth < |m| && forall x :: x in m ==> x == w || Better(side, x, w)
    ensures Window(side, m - {w}, depth) == Window(side, m, depth)
  {
    assert |m.Keys| == |m|;
    DropWorstKeys(side, m.Keys, w, depth);
    assert (m - {w}).Keys == m.Keys - {w};
    WindowKeys(side, m, depth);
    WindowKeys(side, m - {w}, depth);
  }

  // ---- absolute-quantity updates ----

  function ApplyLevel(m: Ladder, px: int, qty: int): Ladder {
    if qty == 0 then m - {px} else m[px := qty]
  }

  function ApplyUpTo(m: Ladder, updates: seq<Level>, n: nat): Ladder
    requires n <= |updates|
  {
    if n == 0 then m else ApplyLevel(ApplyUpTo(m, updates, n - 1), updates[n - 1].0, updates[n - 1].1)
  }

  function ApplyAll(m: Ladder, updates: seq<Level>): Ladder {
    ApplyUpTo(m, updates, |updates|)
  }

  /** The last quantity the first `n` updates give a price. */
  function LastQty(updates: seq<Level>, n: nat, px: int): Option<int>
    requires n <= |updates|
  {
    if n == 0 then None
    else if updates[n - 1].0 == px then Some(updates[n - 1].1)
    else LastQty(updates, n - 1, px)
  }

  /** Only the last word on a price counts. */
  lemma {:induction false} LastWins(m: Ladder, updates: seq<Level>, n: nat, px: int)
    requires n <= |updates|
    ensures var r, q := ApplyUpTo(m, updates, n), LastQty(updates, n, px);
            && (px in r <==> if q.Some? then q.value != 0 else px in m)
            && (px in r ==> r[px] == if q.Some? then q.value else m[px])
  {
    if n > 0 { LastWins(m, updates, n - 1, px); }
  }
}
