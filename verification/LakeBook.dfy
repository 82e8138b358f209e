/** The lake's replay book (docker/lake/book.py). */
module LakeBook {
  import opened Prelude
  import opened Ladders
  import Sorting

  datatype BookValue = BookValue(bids: Ladder, asks: Ladder)

  const EMPTY := BookValue(map[], map[])

  // ---- `sorted` over prices ----

  /** Worst price first, or best first. */
  predicate NotBetter(side: Side, a: int, b: int) {
    !Better(side, a, b)
  }

  function Flip(side: Side): Side {
    if side.Bid? then Ask else Bid
  }

  /** `order` lists `s` strictly from the worst to the best under `side`. */
  ghost predicate WorstFirst(side: Side, order: seq<int>, s: set<int>) {
    && (forall x :: x in s <==> x in order)
    && (forall i, j :: 0 <= i < j < |order| ==> Better(side, order[j], order[i]))
  }

  method SortedPrices(side: Side, m: Ladder) returns (order: seq<int>)
    ensures WorstFirst(side, order, m.Keys) && |order| == |m|
  {
    var keys := [];
    var todo := m.Keys;
    while todo != {}
      invariant todo <= m.Keys && |keys| + |todo| == |m.Keys|
      invariant forall x :: x in keys <==> x in m.Keys - todo
      invariant forall i, j :: 0 <= i < j < |keys| ==> keys[i] != keys[j]
      decreases todo
    {
      SomeElement(todo);
      var px: int :| px in todo;
      keys, todo := keys + [px], todo - {px};
    }
    order := Sorting.Sort((a, b) => NotBetter(side, a, b), keys);
    SortedIsWorstFirst(side, keys, order);
    forall x ensures x in m.Keys <==> x in order {
      assert x in order <==> x in multiset(order);
      assert x in keys <==> x in multiset(keys);
    }
  }

  lemma {:induction false} SortedIsWorstFirst(side: Side, keys: seq<int>, order: seq<int>)
    requires order == Sorting.Sort((a, b) => NotBetter(side, a, b), keys)
    requires forall i, j :: 0 <= i < j < |keys| ==> keys[i] != keys[j]
    ensures forall i, j :: 0 <= i < j < |order| ==> Better(side, order[j], order[i])
  {
    var le := (a, b) => NotBetter(side, a, b);
    assert Sorting.TotalPreorder(le);
    Sorting.SortSorted(le, keys);
    assert Sorting.Distinct(le, keys);
    Sorting.DistinctPermutation(le, keys, order);
    forall i, j | 0 <= i < j < |order| ensures Better(side, order[j], order[i]) {
      assert le(order[i], order[j]);
      assert !(le(order[i], order[j]) && le(order[j], order[i]));
    }
  }

  lemma {:induction false} WorstFirstTail(side: Side, order: seq<int>, s: set<int>)
    requires WorstFirst(side, order, s) && order != []
    ensures WorstFirst(side, order[1..], s - {order[0]}) && order[0] in s
    ensures forall x :: x in s ==> x == order[0] || Better(side, x, order[0])
  {
    var first, rest := order[0], order[1..];
    assert order == [first] + rest;
    assert first in order;
    forall i | 0 <= i < |rest| ensures Better(side, rest[i], first) {
      assert rest[i] == order[i + 1];
    }
    assert forall x :: x in order <==> x == first || x in rest;
    assert forall x :: x in rest ==> Better(side, x, first);
  }

  /** Read from the best end, such a list starts with the best prices. */
  lemma {:induction false} BestFirstTakes(side: Side, order: seq<int>, s: set<int>, n: nat)
    requires WorstFirst(Flip(side), order, s)
    ensures BestKeys(side, s, n) == order[..Min(n, |order|)]
    decreases n
  {
    SomeElement(s);
    if n > 0 && order != [] {
      WorstFirstTail(Flip(side), order, s);
      assert BestOf(side, s) == order[0];
      BestFirstTakes(side, order[1..], s - {order[0]}, n - 1);
      assert order[..Min(n, |order|)] == [order[0]] + order[1..][..Min(n - 1, |order[1..]|)];
    }
  }

  // ---- truncate ----

  /** Sort the prices, delete the worst ones past the depth. */
  method TruncateSide(side: Side, levels: Ladder, depth: nat) returns (kept: Ladder)
    ensures kept == Window(side, levels, depth)
  {
    kept := levels;
    if |kept| > depth {
      var order := SortedPrices(side, kept);
      var excess := |kept| - depth;
      for i := 0 to excess
        invariant WorstFirst(side, order[i..], kept.Keys) && |kept| == |levels| - i
        invariant Window(side, kept, depth) == Window(side, levels, depth)
      {
        WorstFirstTail(side, order[i..], kept.Keys);
        assert order[i..][1..] == order[i + 1..] && order[i..][0] == order[i];
        DropWorst(side, kept, order[i], depth);
        assert (kept - {order[i]}).Keys == kept.Keys - {order[i]};
        assert |kept.Keys| == |kept|;
        kept := kept - {order[i]};
        assert |kept.Keys| == |kept|;
      }
    }
    WindowKeys(side, kept, depth);
  }

  // ---- top ----

  method TopSide(side: Side, levels: Ladder, n: nat) returns (top: seq<Level>)
    ensures top == TopLevels(side, levels, n)
  {
    var order := SortedPrices(Flip(side), levels);
    BestFirstTakes(side, order, levels.Keys, n);
    BestKeysIn(side, levels, n);
    top := seq(Min(n, |order|), i requires 0 <= i < Min(n, |order|) => (order[i], levels[order[i]]));
  }

  /** Absolute-quantity levels per side; quantity 0 removes. */
  class Book {
    var bids: Ladder
    var asks: Ladder

    function Value(): BookValue
      reads this
    {
      BookValue(bids, asks)
    }

    constructor ()
      ensures Value() == EMPTY
    {
      bids, asks := map[], map[];
    }

    method Clear()
      modifies this
      ensures Value() == EMPTY
    {
      bids, asks := map[], map[];
    }

    method Apply(side: Side, px: int, qty: int)
      modifies this
      ensures side.Bid? ==> Value() == BookValue(ApplyLevel(old(bids), px, qty), old(asks))
      ensures side.Ask? ==> Value() == BookValue(old(bids), ApplyLevel(old(asks), px, qty))
    {
      var levels := if side.Bid? then bids else asks;
      if qty == 0 {
        levels := levels - {px};
      } else {
        levels := levels[px := qty];
      }
      if side.Bid? {
        bids := levels;
      } else {
        asks := levels;
      }
    }

    method Truncate(depth: nat)
      modifies this
      ensures Value() == BookValue(Window(Bid, old(bids), depth), Window(Ask, old(asks), depth))
    {
      bids := TruncateSide(Bid, bids, depth);
      asks := TruncateSide(Ask, asks, depth);
    }

    /** Best first, at most `n` each. */
    method Top(n: nat) returns (topBids: seq<Level>, topAsks: seq<Level>)
      ensures topBids == TopLevels(Bid, bids, n) && topAsks == TopLevels(Ask, asks, n)
    {
      topBids := TopSide(Bid, bids, n);
      topAsks := TopSide(Ask, asks, n);
    }
  }

  /** What one Kraken frame makes of one side. */
  ghost function KrakenSide(side: Side, m: Ladder, snapshot: bool, updates: seq<Level>, depth: nat): Ladder {
    Window(side, ApplyAll(if snapshot then map[] else m, updates), depth)
  }

  ghost function KrakenValue(v: BookValue, snapshot: bool, bids: seq<Level>, asks: seq<Level>, depth: nat): BookValue {
    BookValue(KrakenSide(Bid, v.bids, snapshot, bids, depth), KrakenSide(Ask, v.asks, snapshot, asks, depth))
  }

  /** A snapshot replaces, an update folds; then truncate to the subscription depth. */
  method KrakenApply(book: Book, snapshot: bool, bids: seq<Level>, asks: seq<Level>, depth: nat)
    modifies book
    ensures book.Value() == KrakenValue(old(book.Value()), snapshot, bids, asks, depth)
  {
    if snapshot {
      book.Clear();
    }
    ghost var start := book.Value();
    for i := 0 to |bids|
      invariant book.Value() == BookValue(ApplyUpTo(start.bids, bids, i), start.asks)
    {
      book.Apply(Bid, bids[i].0, bids[i].1);
    }
    for i := 0 to |asks|
      invariant book.Value() == BookValue(ApplyAll(start.bids, bids), ApplyUpTo(start.asks, asks, i))
    {
      book.Apply(Ask, asks[i].0, asks[i].1);
    }
    book.Truncate(depth);
  }
}
