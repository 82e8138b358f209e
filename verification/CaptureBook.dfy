/** The capture's live book (services/capture-rust/src/book.rs), the twin of the lake's. */
module CaptureBook {
  import opened Ladders
  import LakeBook

  /** `qty <= 0` removes. */
  function ApplyLive(m: Ladder, px: int, qty: int): Ladder {
    if qty <= 0 then m - {px} else m[px := qty]
  }

  /** The twins agree on an update exactly when its quantity is not negative. */
  lemma {:induction false} TwinsAgree(m: Ladder, px: int, qty: int)
    ensures ApplyLive(m, px, qty) == ApplyLevel(m, px, qty) <==> qty >= 0
  {
    assert px in m[px := qty] && px !in m - {px};
  }

  /** The worst entry of an ordered map: the first bid, the last ask. */
  method WorstOf(side: Side, m: Ladder) returns (w: int)
    requires m != map[]
    ensures w in m && forall x :: x in m ==> x == w || Better(side, x, w)
  {
    BestExists(LakeBook.Flip(side), m.Keys);
    w :| w in m.Keys && forall x :: x in m.Keys ==> x == w || Better(LakeBook.Flip(side), w, x);
  }

  /** Best `n` levels per side as parallel arrays. */
  datatype TopN = TopN(bidPx: seq<int>, bidQty: seq<int>, askPx: seq<int>, askQty: seq<int>)

  ghost function Prices(levels: seq<Level>): seq<int> {
    seq(|levels|, i requires 0 <= i < |levels| => levels[i].0)
  }

  ghost function Quantities(levels: seq<Level>): seq<int> {
    seq(|levels|, i requires 0 <= i < |levels| => levels[i].1)
  }

  /** Walk the map from its best end, at most `n` entries. */
  method Walk(side: Side, m: Ladder, n: nat) returns (px: seq<int>, qty: seq<int>)
    ensures px == Prices(TopLevels(side, m, n)) && qty == Quantities(TopLevels(side, m, n))
  {
    px, qty := [], [];
    ghost var all := BestKeys(side, m.Keys, n);
    var left := m.Keys;
    while left != {} && |px| < n
      invariant |px| == |qty| <= n
      invariant forall i :: 0 <= i < |qty| ==> px[i] in m && qty[i] == m[px[i]]
      invariant left <= m.Keys && all == px + BestKeys(side, left, n - |px|)
      decreases left
    {
      BestExists(side, left);
      var b :| b in left && forall x :: x in left ==> x == b || Better(side, b, x);
      assert b == BestOf(side, left);
      px, qty, left := px + [b], qty + [m[b]], left - {b};
    }
    assert px == all;
  }

  class Book {
    var bids: Ladder
    var asks: Ladder

    constructor ()
      ensures bids == map[] && asks == map[]
    {
      bids, asks := map[], map[];
    }

    method Clear()
      modifies this
      ensures bids == map[] && asks == map[]
    {
      bids, asks := map[], map[];
    }

    method Apply(side: Side, px: int, qty: int)
      modifies this
      ensures side.Bid? ==> bids == ApplyLive(old(bids), px, qty) && asks == old(asks)
      ensures side.Ask? ==> asks == ApplyLive(old(asks), px, qty) && bids == old(bids)
    {
      match side
      case Bid => bids := if qty <= 0 then bids - {px} else bids[px := qty];
      case Ask => asks := if qty <= 0 then asks - {px} else asks[px := qty];
    }

    /** Pop the worst level until the depth is met. */
    method Truncate(depth: nat)
      modifies this
      ensures bids == Window(Bid, old(bids), depth) && asks == Window(Ask, old(asks), depth)
    {
      while |bids| > depth
        invariant Window(Bid, bids, depth) == Window(Bid, old(bids), depth) && asks == old(asks)
      {
        var worst := WorstOf(Bid, bids);
        DropWorst(Bid, bids, worst, depth);
        bids := bids - {worst};
      }
      WindowKeys(Bid, bids, depth);
      while |asks| > depth
        invariant Window(Ask, asks, depth) == Window(Ask, old(asks), depth)
        invariant bids == Window(Bid, old(bids), depth)
      {
        var worst := WorstOf(Ask, asks);
        DropWorst(Ask, asks, worst, depth);
        asks := asks - {worst};
      }
      WindowKeys(Ask, asks, depth);
    }

    method TopOf(n: nat) returns (out: TopN)
      ensures out.bidPx == Prices(TopLevels(Bid, bids, n)) && out.bidQty == Quantities(TopLevels(Bid, bids, n))
      ensures out.askPx == Prices(TopLevels(Ask, asks, n)) && out.askQty == Quantities(TopLevels(Ask, asks, n))
    {
      var bidPx, bidQty := Walk(Bid, bids, n);
      var askPx, askQty := Walk(Ask, asks, n);
      out := TopN(bidPx, bidQty, askPx, askQty);
    }
  }
}
