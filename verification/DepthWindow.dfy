/** Why apply-then-truncate follows the venue: a truncated local book stays equal to the venue's visible window. */
module DepthWindow {
  import opened Prelude
  import opened Ladders
  import opened LakeBook

  /**
   What a frame must say about one side that moved from `before` to `after`: every level visible afterwards that is
   new or changed, every visible level that left the book, nothing false. A level that merely drifts out of the
   window needs no mention, and no later change or deletion of it does either.
   */
  ghost predicate Reports(side: Side, before: Ladder, after: Ladder, updates: seq<Level>, depth: nat) {
    && (forall px :: LastQty(updates, |updates|, px).Some? ==>
          var q := LastQty(updates, |updates|, px).value;
          if q == 0 then px !in Window(side, after, depth)
          else px in after && (px in Window(side, after, depth) ==> after[px] == q))
    && (forall px :: px in Window(side, after, depth) && LastQty(updates, |updates|, px).None? ==>
          px in Window(side, before, depth) && before[px] == after[px])
    && (forall px :: px in Window(side, before, depth) && px !in after ==> LastQty(updates, |updates|, px).Some?)
  }

  lemma {:induction false} WindowTracks(side: Side, before: Ladder, after: Ladder, updates: seq<Level>, depth: nat)
    requires Reports(side, before, after, updates, depth)
    ensures Window(side, ApplyAll(Window(side, before, depth), updates), depth) == Window(side, after, depth)
  {
    var local := ApplyAll(Window(side, before, depth), updates);
    LocalHolds(side, before, after, updates, depth);
    WindowKeys(side, after, depth);
    BestOfSubset(side, local.Keys, after.Keys, depth);
    SameWindow(side, local, after, depth);
  }

  lemma {:induction false} SameWindow(side: Side, a: Ladder, b: Ladder, depth: nat)
    requires BestKeys(side, a.Keys, depth) == BestKeys(side, b.Keys, depth)
    requires forall px :: px in Window(side, b, depth) ==> px in a && a[px] == b[px]
    ensures Window(side, a, depth) == Window(side, b, depth)
  {
    WindowKeys(side, a, depth);
    WindowKeys(side, b, depth);
    BestKeysIn(side, a, depth);
    BestKeysIn(side, b, depth);
    var x, y := Window(side, a, depth), Window(side, b, depth);
    assert x.Keys == y.Keys;
    forall px | px in y ensures x[px] == y[px] {
      assert px in a && a[px] == b[px];
    }
  }

  /** The updated local side is within the venue's, and right wherever the venue's window is. */
  lemma {:induction false} LocalHolds(side: Side, before: Ladder, after: Ladder, updates: seq<Level>, depth: nat)
    requires Reports(side, before, after, updates, depth)
    ensures var local := ApplyAll(Window(side, before, depth), updates);
            && local.Keys <= after.Keys
            && forall px :: px in Window(side, after, depth) ==> px in local && local[px] == after[px]
  {
    var local := ApplyAll(Window(side, before, depth), updates);
    WindowKeys(side, before, depth);
    WindowKeys(side, after, depth);
    forall px ensures px in local ==> px in after {
      LastWins(Window(side, before, depth), updates, |updates|, px);
    }
    forall px | px in Window(side, after, depth) ensures px in local && local[px] == after[px] {
      LastWins(Window(side, before, depth), updates, |updates|, px);
    }
  }

  /** One frame of a subscription: a snapshot starts the book afresh. */
  datatype BookFrame = BookFrame(snapshot: bool, bids: seq<Level>, asks: seq<Level>)

  ghost function LocalAfter(frames: seq<BookFrame>, n: nat, depth: nat): BookValue
    requires n <= |frames|
  {
    if n == 0 then EMPTY else
      var f := frames[n - 1];
      KrakenValue(LocalAfter(frames, n - 1, depth), f.snapshot, f.bids, f.asks, depth)
  }

  /** The venue's book the frame starts from: nothing, when it is a snapshot. */
  ghost function BookBefore(venue: seq<BookValue>, frames: seq<BookFrame>, i: nat): BookValue
    requires i < |frames| == |venue|
  {
    if frames[i].snapshot || i == 0 then EMPTY else venue[i - 1]
  }

  ghost predicate FrameReports(venue: seq<BookValue>, frames: seq<BookFrame>, i: nat, depth: nat)
    requires i < |frames| == |venue|
  {
    var before := BookBefore(venue, frames, i);
    && Reports(Bid, before.bids, venue[i].bids, frames[i].bids, depth)
    && Reports(Ask, before.asks, venue[i].asks, frames[i].asks, depth)
  }

  /** The venue's full books, one after each frame, and frames that report them. */
  ghost predicate Faithful(venue: seq<BookValue>, frames: seq<BookFrame>, depth: nat) {
    && |venue| == |frames|
    && forall i: nat :: i < |frames| ==> FrameReports(venue, frames, i, depth)
  }

  ghost function Visible(v: BookValue, depth: nat): BookValue {
    BookValue(Window(Bid, v.bids, depth), Window(Ask, v.asks, depth))
  }

  lemma {:induction false} EmptyWindow(side: Side, depth: nat)
    ensures Window(side, map[], depth) == map[]
  {}

  /** After every frame of every faithful feed the local book is the venue's window. */
  lemma {:induction false} LocalIsWindow(venue: seq<BookValue>, frames: seq<BookFrame>, depth: nat, n: nat)
    requires Faithful(venue, frames, depth) && 0 < n <= |frames|
    ensures LocalAfter(frames, n, depth) == Visible(venue[n - 1], depth)
  {
    var f := frames[n - 1];
    var before := BookBefore(venue, frames, n - 1);
    assert FrameReports(venue, frames, n - 1, depth);
    EmptyWindow(Bid, depth);
    EmptyWindow(Ask, depth);
    if n > 1 { LocalIsWindow(venue, frames, depth, n - 1); }
    WindowTracks(Bid, before.bids, venue[n - 1].bids, f.bids, depth);
    WindowTracks(Ask, before.asks, venue[n - 1].asks, f.asks, depth);
  }

  /** So the levels a checksum walks are the venue's own, for any count within the depth. */
  lemma {:induction false} SameTop(venue: seq<BookValue>, frames: seq<BookFrame>, depth: nat, n: nat, levels: nat)
    requires Faithful(venue, frames, depth) && 0 < n <= |frames| && levels <= depth
    ensures var local := LocalAfter(frames, n, depth);
            && TopLevels(Bid, local.bids, levels) == TopLevels(Bid, venue[n - 1].bids, levels)
            && TopLevels(Ask, local.asks, levels) == TopLevels(Ask, venue[n - 1].asks, levels)
  {
    LocalIsWindow(venue, frames, depth, n);
    TopOfWindow(Bid, venue[n - 1].bids, levels, depth);
    TopOfWindow(Ask, venue[n - 1].asks, levels, depth);
  }

  lemma {:induction false} WindowOfOne(side: Side, m: Ladder, best: int)
    requires best in m && forall x :: x in m ==> x == best || Better(side, best, x)
    ensures Window(side, m, 1) == map[best := m[best]]
  {
    assert BestOf(side, m.Keys) == best;
    assert BestKeys(side, m.Keys, 1) == [best] + BestKeys(side, m.Keys - {best}, 0);
  }

  /**
   Truncation is what makes it true: a book that has kept one level the venue no longer tracks shows the right top
   now and the wrong one as soon as the market moves back.
   */
  lemma {:induction false} StaleLevelReturns()
    ensures exists before: Ladder, after: Ladder, updates, untruncated: Ladder ::
              && Reports(Bid, before, after, updates, 1)
              && Window(Bid, untruncated, 1) == Window(Bid, before, 1)
              && Window(Bid, ApplyAll(untruncated, updates), 1) != Window(Bid, after, 1)
  {
    var before: Ladder, after: Ladder, untruncated: Ladder := map[101 := 1], map[99 := 1], map[101 := 1, 100 := 1];
    var updates: seq<Level> := [(101, 0), (99, 1)];
    WindowOfOne(Bid, before, 101);
    WindowOfOne(Bid, after, 99);
    WindowOfOne(Bid, untruncated, 101);
    assert ApplyUpTo(untruncated, updates, 1) == map[100 := 1];
    assert ApplyAll(untruncated, updates) == map[100 := 1, 99 := 1];
    WindowOfOne(Bid, ApplyAll(untruncated, updates), 100);
    forall px ensures LastQty(updates, 2, px) == if px == 99 then Some(1) else if px == 101 then Some(0) else None {
      assert LastQty(updates, 1, px) == if px == 101 then Some(0) else None;
    }
    assert Reports(Bid, before, after, updates, 1);
    assert 100 in Window(Bid, ApplyAll(untruncated, updates), 1);
  }
}
