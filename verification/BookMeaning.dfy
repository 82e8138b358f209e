/** What a book row, a verdict and a carried state say, column by column (docker/lake/books.py:202-299). */
module BookMeaning {
  import opened Prelude
  import opened Digits
  import opened Decimal
  import opened Ladders
  import opened LakeBook
  import opened DepthWindow
  import opened Replay
  import opened Connection
  import opened Sampling
  import opened Verification

  // ---- the best levels of a side ----

  /** As many levels of `m` as there are, at most `n`, each with its quantity. */
  ghost predicate LevelsOf(levels: seq<Level>, m: Ladder, n: nat) {
    && |levels| == (if |m| < n then |m| else n)
    && forall i :: 0 <= i < |levels| ==> levels[i].0 in m && levels[i].1 == m[levels[i].0]
  }

  /** Prices strictly falling, and every bid left out lower. */
  ghost predicate BestBids(levels: seq<Level>, m: Ladder, n: nat) {
    && LevelsOf(levels, m, n)
    && (forall i, j :: 0 <= i < j < |levels| ==> levels[i].0 > levels[j].0)
    && forall px, i :: px in m && 0 <= i < |levels| && (forall j :: 0 <= j < |levels| ==> levels[j].0 != px) ==>
         levels[i].0 > px
  }

  /** Prices strictly rising, and every ask left out higher. */
  ghost predicate BestAsks(levels: seq<Level>, m: Ladder, n: nat) {
    && LevelsOf(levels, m, n)
    && (forall i, j :: 0 <= i < j < |levels| ==> levels[i].0 < levels[j].0)
    && forall px, i :: px in m && 0 <= i < |levels| && (forall j :: 0 <= j < |levels| ==> levels[j].0 != px) ==>
         levels[i].0 < px
  }

  lemma {:induction false} TopIsBest(m: Ladder, n: nat)
    ensures BestBids(TopLevels(Bid, m, n), m, n)
    ensures BestAsks(TopLevels(Ask, m, n), m, n)
  {
    TopOnSide(Bid, m, n);
    TopOnSide(Ask, m, n);
  }

  lemma {:induction false} TopOnSide(side: Side, m: Ladder, n: nat)
    ensures var top := TopLevels(side, m, n);
            && LevelsOf(top, m, n)
            && (forall i, j :: 0 <= i < j < |top| ==> Better(side, top[i].0, top[j].0))
            && forall px, i :: px in m && 0 <= i < |top| && (forall j :: 0 <= j < |top| ==> top[j].0 != px) ==>
                 Better(side, top[i].0, px)
  {
    BestKeysMean(side, m.Keys, n);
    BestKeysIn(side, m, n);
    var top, keys := TopLevels(side, m, n), BestKeys(side, m.Keys, n);
    assert |m| == |m.Keys|;
    forall px | px in keys ensures exists j :: 0 <= j < |top| && top[j].0 == px {
      var j :| 0 <= j < |keys| && keys[j] == px;
      assert top[j].0 == px;
    }
    forall px, i | px in m && 0 <= i < |top| && (forall j :: 0 <= j < |top| ==> top[j].0 != px)
      ensures Better(side, top[i].0, px)
    {
      assert px !in keys && top[i].0 == keys[i];
    }
  }

  // ---- book rows ----

  /** The row is this book and this stamp. */
  ghost predicate Shows(row: BookRow, v: BookValue, stamp: Stamp) {
    && BestBids(row.bids, v.bids, 20) && BestAsks(row.asks, v.asks, 20)
    && row.depth == (if |row.bids| > |row.asks| then |row.bids| else |row.asks|)
    && row.stamp == stamp
  }

  lemma {:induction false} SnapshotShows(m: Machine, secondNs: int, row: BookRow)
    requires SnapshotRow(m, secondNs) == Book(row)
    ensures Shows(row, m.book, m.st.stamp)
  {
    TopIsBest(m.book.bids, 20);
    TopIsBest(m.book.asks, 20);
  }

  /** A price at one precision, then its quantity at the other. */
  function PriceThenQty(pp: Precision, qp: Precision): Level -> string {
    (l: Level) => SignedDigits(l.0, pp) + SignedDigits(l.1, qp)
  }

  function Spelled(levels: seq<Level>, pp: Precision, qp: Precision): string {
    Joined(PriceThenQty(pp, qp), levels, |levels|)
  }

  /**
   No verdict for an unknown pair; otherwise whether the venue's checksum is that of the ten best asks, then the ten
   best bids.
   */
  ghost predicate VerdictMeans(ok: Option<bool>, env: Env, symbol: string, v: BookValue, checksum: int) {
    if symbol !in env.precisions then ok == None else
      var (pp, qp) := env.precisions[symbol];
      exists asks, bids ::
        && BestAsks(asks, v.asks, 10) && BestBids(bids, v.bids, 10)
        && ok == Some(env.crc(Spelled(asks, pp, qp) + Spelled(bids, pp, qp)) == checksum)
  }

  lemma {:induction false} JoinedAlike(f: Level -> string, g: Level -> string, levels: seq<Level>, n: nat)
    requires n <= |levels| && forall l :: f(l) == g(l)
    ensures Joined(f, levels, n) == Joined(g, levels, n)
  {
    if n > 0 { JoinedAlike(f, g, levels, n - 1); }
  }

  lemma {:induction false} SideIsSpelled(levels: seq<Level>, pp: Precision, qp: Precision)
    ensures SideText(levels, |levels|, pp, qp) == Spelled(levels, pp, qp)
  {
    JoinedAlike((l: Level) => LevelText(l, pp, qp), PriceThenQty(pp, qp), levels, |levels|);
  }

  lemma {:induction false} JudgeMeans(env: Env, symbol: string, v: BookValue, checksum: int)
    ensures VerdictMeans(Judge(env, symbol, v, checksum), env, symbol, v, checksum)
  {
    if symbol in env.precisions {
      var (pp, qp) := env.precisions[symbol];
      var asks, bids := TopLevels(Ask, v.asks, 10), TopLevels(Bid, v.bids, 10);
      TopIsBest(v.asks, 10);
      TopIsBest(v.bids, 10);
      TextIsSpelled(asks, bids, pp, qp);
    }
  }

  /** The checksum's text, in general. */
  lemma {:induction false} TextIsSpelled(asks: seq<Level>, bids: seq<Level>, pp: Precision, qp: Precision)
    requires |asks| <= 10 && |bids| <= 10
    ensures ChecksumText(asks, bids, pp, qp) == Spelled(asks, pp, qp) + Spelled(bids, pp, qp)
  {
    SideIsSpelled(asks, pp, qp);
    SideIsSpelled(bids, pp, qp);
  }

  lemma {:induction false} JoinedOne(f: Level -> string, l: Level)
    ensures Joined(f, [l], 1) == f(l)
  {
    assert Joined(f, [l], 0) == "";
  }

  /** One level a side: the ask's price and quantity, then the bid's, each at its own precision. */
  lemma {:induction false} OneLevelText(ask: Level, bid: Level, pp: Precision, qp: Precision)
    requires ask.0 >= 0 && ask.1 >= 0 && bid.0 >= 0 && bid.1 >= 0
    ensures ChecksumText([ask], [bid], pp, qp) ==
            (ChecksumDigits(ask.0, pp) + ChecksumDigits(ask.1, qp)) +
            (ChecksumDigits(bid.0, pp) + ChecksumDigits(bid.1, qp))
  {
    TextIsSpelled([ask], [bid], pp, qp);
    JoinedOne(PriceThenQty(pp, qp), ask);
    JoinedOne(PriceThenQty(pp, qp), bid);
  }

  /** A negative number of units prints as minus the least count of the pair's steps that covers it. */
  lemma {:induction false} NegativeText(units: int, precision: Precision) returns (q: nat)
    requires units < 0
    ensures SignedDigits(units, precision) == "-" + ToString(q)
    ensures (q - 1) * Pow10(8 - precision) < -units <= q * Pow10(8 - precision)
  {
    var p := Pow10(8 - precision);
    Covering(units, p);
    q := -(units / p);
  }

  lemma {:induction false} Covering(units: int, p: int)
    requires units < 0 && p > 0
    ensures var q := -(units / p); q >= 0 && (q - 1) * p < -units <= q * p
  {
    var d := units / p;
    assert units == d * p + units % p;
    assert -d * p == -(d * p) && (-d - 1) * p == -d * p - p;
    if d >= 0 { Scale(0, d, p); }
  }

  // ---- frames ----

  /** The stamp after a frame a live connection took in. */
  ghost predicate StampMeans(env: Env, before: Stamp, after: Stamp, f: Frame, v: BookValue) {
    && after.recvNs == f.recvNs && after.connMsgSeq == f.connMsgSeq && after.src == f.src
    && after.symbol == before.symbol && after.canonical == before.canonical
    && after.connId == before.connId && after.topic == before.topic
    && match f.body
       case KrakenBody(_, _, _, checksum) =>
         VerdictMeans(after.checksumOk, env, f.symbol, v, checksum) && after.seqNum == before.seqNum
       case CoinbaseBody(_, _, sequenceNum) => after.seqNum == sequenceNum && after.checksumOk == before.checksumOk
  }

  lemma {:induction false} StepStamps(env: Env, m: Machine, f: Frame)
    requires m.st.live || f.body.snapshot
    ensures StampMeans(env, m.st.stamp, Step(env, m, f).st.stamp, f, Step(env, m, f).book)
  {
    if f.body.KrakenBody? {
      JudgeMeans(env, f.symbol, ApplyBody(m.book, f.body), f.body.checksum);
    }
  }

  /** Every Kraken frame is judged: not at all before the first snapshot, then against the book it leaves. */
  lemma {:induction false} FrameIsJudged(env: Env, m: Machine, f: Frame) returns (ok: Option<bool>)
    requires f.body.KrakenBody?
    ensures Verdicts(env, Flush(m, f.recvNs), f) == [Verdict(f.src, ok)]
    ensures if m.st.live || f.body.snapshot
            then VerdictMeans(ok, env, f.symbol, Step(env, m, f).book, f.body.checksum) else ok == None
  {
    ok := if m.st.live || f.body.snapshot
          then Judge(env, f.symbol, ApplyBody(m.book, f.body), f.body.checksum) else None;
    JudgeMeans(env, f.symbol, ApplyBody(m.book, f.body), f.body.checksum);
  }

  // ---- the rows of a connection ----

  /** The frames behind a row: those before `j`, the last of them at its times, and frame `j` after its second. */
  ghost predicate Bounded(frames: seq<Frame>, start: nat, row: BookRow, j: nat)
    requires j < |frames|
  {
    && frames[j].recvNs >= (row.second + 1) * 1_000_000_000
    && forall i :: start <= i < j ==> frames[i].recvNs < (row.second + 1) * 1_000_000_000
  }

  lemma {:induction false} DecidedShows(env: Env, m: Machine, frames: seq<Frame>, start: nat, row: BookRow, j: nat)
    requires j < |frames| && Decides(env, m, frames, start, row, j)
    ensures Shows(row, RunTo(env, m, frames, j).book, RunTo(env, m, frames, j).st.stamp)
    ensures Bounded(frames, start, row, j)
  {
    SnapshotShows(RunTo(env, m, frames, j), row.second * NS, row);
    assert (row.second + 1) * 1_000_000_000 == row.second * NS + NS;
  }

  lemma {:induction false} StaysLive(env: Env, m: Machine, frames: seq<Frame>, k: nat, n: nat)
    requires k <= n <= |frames| && RunTo(env, m, frames, k).st.live
    ensures RunTo(env, m, frames, n).st.live
    decreases n
  {
    if k < n { StaysLive(env, m, frames, k, n - 1); }
  }

  /**
   Every row of a connection that opens with the snapshot at `k`: the best twenty bids and asks of the book after
   frame `j - 1`, with that frame's times and place, and nothing received since.
   */
  lemma {:induction false} RowSays(env: Env, m: Machine, frames: seq<Frame>, k: nat, n: nat, row: BookRow)
    returns (j: nat)
    requires Sound(m) && !m.st.live && Timed(frames) && k < n <= |frames| && frames[k].body.snapshot
    requires forall i :: 0 <= i < k ==> !frames[i].body.snapshot
    requires row in BookRows(RunOut(env, m, frames, n))
    ensures k < j < n && Bounded(frames, k, row, j)
    ensures Shows(row, RunTo(env, m, frames, j).book, row.stamp)
    ensures StampMeans(env, RunTo(env, m, frames, j - 1).st.stamp, row.stamp, frames[j - 1],
                       RunTo(env, m, frames, j).book)
    ensures row.stamp.symbol == m.st.stamp.symbol && row.stamp.canonical == m.st.stamp.canonical
    ensures row.stamp.connId == m.st.stamp.connId && row.stamp.topic == m.st.stamp.topic
  {
    j := DecidingFrame(env, m, frames, k, n, row);
    DecidedShows(env, m, frames, k, row, j);
    RunKeepsNames(env, m, frames, j);
    OpenedStamps(env, m, frames, k, n, j);
  }

  lemma {:induction false} OpenedStamps(env: Env, m: Machine, frames: seq<Frame>, k: nat, n: nat, j: nat)
    requires Sound(m) && !m.st.live && Timed(frames) && k < j <= n <= |frames| && frames[k].body.snapshot
    requires forall i :: 0 <= i < k ==> !frames[i].body.snapshot
    ensures StampMeans(env, RunTo(env, m, frames, j - 1).st.stamp, RunTo(env, m, frames, j).st.stamp, frames[j - 1],
                       RunTo(env, m, frames, j).book)
  {
    TakenIn(env, m, frames, k, n, j - 1);
    StepStamps(env, RunTo(env, m, frames, j - 1), frames[j - 1]);
    OneMoreFrame(env, m, frames, j);
  }

  lemma {:induction false} OneMoreFrame(env: Env, m: Machine, frames: seq<Frame>, j: nat)
    requires 0 < j <= |frames|
    ensures RunTo(env, m, frames, j) == Step(env, RunTo(env, m, frames, j - 1), frames[j - 1])
  {}

  /** No frame from the opening snapshot on is ignored. */
  lemma {:induction false} TakenIn(env: Env, m: Machine, frames: seq<Frame>, k: nat, n: nat, i: nat)
    requires Sound(m) && !m.st.live && Timed(frames) && k < n <= |frames| && frames[k].body.snapshot && k <= i < n
    requires forall i :: 0 <= i < k ==> !frames[i].body.snapshot
    ensures RunTo(env, m, frames, i).st.live || frames[i].body.snapshot
  {
    if i > k {
      FreshSampling(env, m, frames, k, n);
      StepSound(env, m, frames[k]);
      StaysLive(env, m, frames, k + 1, i);
    }
  }

  /** The same for a connection resumed from stored state; before its first frame the row is the state it resumed. */
  lemma {:induction false} ResumedRowSays(env: Env, m: Machine, frames: seq<Frame>, n: nat, row: BookRow)
    returns (j: nat)
    requires Sound(m) && m.st.live && Timed(frames) && n <= |frames|
    requires row in BookRows(RunOut(env, m, frames, n))
    ensures j < n && Bounded(frames, 0, row, j)
    ensures Shows(row, RunTo(env, m, frames, j).book, row.stamp)
    ensures j == 0 ==> row.stamp == m.st.stamp && RunTo(env, m, frames, j).book == m.book
    ensures j > 0 ==> StampMeans(env, RunTo(env, m, frames, j - 1).st.stamp, row.stamp, frames[j - 1],
                                 RunTo(env, m, frames, j).book)
  {
    ResumedSampling(env, m, frames, n);
    NextIsWhole(m);
    j := RowDecided(env, m, frames, 0, n, NextSecond(m.st), BookRows(RunOut(env, m, frames, n)), row);
    DecidedShows(env, m, frames, 0, row, j);
    if j > 0 { LiveStamps(env, m, frames, j); }
  }

  lemma {:induction false} LiveStamps(env: Env, m: Machine, frames: seq<Frame>, j: nat)
    requires m.st.live && 0 < j <= |frames|
    ensures StampMeans(env, RunTo(env, m, frames, j - 1).st.stamp, RunTo(env, m, frames, j).st.stamp, frames[j - 1],
                       RunTo(env, m, frames, j).book)
  {
    StaysLive(env, m, frames, 0, j - 1);
    StepStamps(env, RunTo(env, m, frames, j - 1), frames[j - 1]);
    OneMoreFrame(env, m, frames, j);
  }

  /** On an honest Kraken feed the row's levels are the best twenty of the venue's own book at that frame. */
  lemma {:induction false} HonestRowSays(env: Env, m: Machine, venue: seq<BookValue>, frames: seq<Frame>, n: nat,
                                         row: BookRow)
    returns (j: nat)
    requires HonestFeed(env, venue, frames) && Sound(m) && !m.st.live && Timed(frames) && 0 < n <= |frames|
    requires row in BookRows(RunOut(env, m, frames, n))
    ensures 0 < j < n && Bounded(frames, 0, row, j)
    ensures BestBids(row.bids, venue[j - 1].bids, 20) && BestAsks(row.asks, venue[j - 1].asks, 20)
  {
    j := DecidingFrame(env, m, frames, 0, n, row);
    DecidedShows(env, m, frames, 0, row, j);
    ReplayedBook(env, m, frames, j);
    SameTop(venue, BookFrames(frames), KRAKEN_DEPTH, j, 20);
    TopIsBest(venue[j - 1].bids, 20);
    TopIsBest(venue[j - 1].asks, 20);
  }

  // ---- the carried state ----

  /** The carried row: every level the row has room for, and the stamp of the last frame. */
  lemma {:induction false} CarrySays(m: Machine, row: StateRow)
    requires CarryRow(m) == Some(row)
    ensures BestBids(row.bids, m.book.bids, 1_000_000) && BestAsks(row.asks, m.book.asks, 1_000_000)
    ensures row.symbol == m.st.stamp.symbol && row.connId == m.st.stamp.connId
    ensures row.seqNum == m.st.stamp.seqNum && row.checksumOk == m.st.stamp.checksumOk
    ensures row.lastConnMsgSeq == m.st.stamp.connMsgSeq && row.lastRecvNs == m.st.stamp.recvNs
    ensures row.lastSrc == m.st.stamp.src
    ensures m.st.lastSecondNs.value % NS == 0 ==> (row.lastSecond + 1) * 1_000_000_000 == NextSecond(m.st)
  {
    TopIsBest(m.book.bids, 1_000_000);
    TopIsBest(m.book.asks, 1_000_000);
  }

  // ---- what a Coinbase book holds ----

  /** The last quantity the first `n` updates give a price of one side. */
  function LastIn(updates: seq<Update>, n: nat, side: Side, px: int): Option<int>
    requires n <= |updates|
  {
    if n == 0 then None
    else if updates[n - 1].side == side && updates[n - 1].px == px then Some(updates[n - 1].qty)
    else LastIn(updates, n - 1, side, px)
  }

  /** The last quantity given to it from frame `k` up to frame `n`. */
  function LastGiven(frames: seq<Frame>, k: nat, n: nat, side: Side, px: int): Option<int>
    requires k <= n <= |frames| && forall i :: k <= i < n ==> frames[i].body.CoinbaseBody?
    decreases n
  {
    if n == k then None
    else
      var updates := frames[n - 1].body.updates;
      var last := LastIn(updates, |updates|, side, px);
      if last.Some? then last else LastGiven(frames, k, n - 1, side, px)
  }

  function SideOf(v: BookValue, side: Side): Ladder {
    if side == Bid then v.bids else v.asks
  }

  /** `m` holds what was last given, and where nothing was, what `before` held. */
  ghost predicate HoldsLast(m: Ladder, before: Ladder, px: int, given: Option<int>) {
    && (px in m <==> if given.Some? then given.value != 0 else px in before)
    && (px in m ==> m[px] == if given.Some? then given.value else before[px])
  }

  lemma {:induction false} UpdatesHold(v: BookValue, updates: seq<Update>, n: nat, side: Side, px: int)
    requires n <= |updates|
    ensures HoldsLast(SideOf(UpdatedBook(v, updates, n), side), SideOf(v, side), px, LastIn(updates, n, side, px))
  {
    if n > 0 { UpdatesHold(v, updates, n - 1, side, px); }
  }

  /** What a Coinbase run starts from: nothing, if its first frame is a snapshot. */
  ghost function BookBehind(env: Env, m: Machine, frames: seq<Frame>, k: nat): BookValue
    requires k < |frames|
  {
    if frames[k].body.snapshot then BookValue(map[], map[]) else RunTo(env, m, frames, k).book
  }

  lemma {:induction false} FrameHolds(env: Env, m: Machine, f: Frame, before: Ladder, side: Side, px: int,
                                      given: Option<int>)
    requires m.st.live && f.body.CoinbaseBody? && !f.body.snapshot
    requires HoldsLast(SideOf(m.book, side), before, px, given)
    ensures var last := LastIn(f.body.updates, |f.body.updates|, side, px);
            HoldsLast(SideOf(Step(env, m, f).book, side), before, px, if last.Some? then last else given)
  {
    UpdatesHold(m.book, f.body.updates, |f.body.updates|, side, px);
  }

  lemma {:induction false} FirstHolds(env: Env, m: Machine, f: Frame, side: Side, px: int)
    requires (m.st.live || f.body.snapshot) && f.body.CoinbaseBody?
    ensures Step(env, m, f).st.live
    ensures HoldsLast(SideOf(Step(env, m, f).book, side),
                      SideOf(if f.body.snapshot then BookValue(map[], map[]) else m.book, side), px,
                      LastIn(f.body.updates, |f.body.updates|, side, px))
  {
    UpdatesHold(if f.body.snapshot then EMPTY else m.book, f.body.updates, |f.body.updates|, side, px);
  }

  /**
   A Coinbase book holds, side by side, the last quantity each price was given since the last snapshot, and no price
   whose last quantity was zero or that was never given one.
   */
  lemma {:induction false} CoinbaseHolds(env: Env, m: Machine, frames: seq<Frame>, k: nat, n: nat, side: Side, px: int)
    requires k < n <= |frames| && forall i :: k <= i < n ==> frames[i].body.CoinbaseBody?
    requires RunTo(env, m, frames, k).st.live || frames[k].body.snapshot
    requires forall i :: k < i < n ==> !frames[i].body.snapshot
    ensures RunTo(env, m, frames, n).st.live
    ensures HoldsLast(SideOf(RunTo(env, m, frames, n).book, side), SideOf(BookBehind(env, m, frames, k), side), px,
                      LastGiven(frames, k, n, side, px))
    decreases n
  {
    var before, f := RunTo(env, m, frames, n - 1), frames[n - 1];
    assert RunTo(env, m, frames, n) == Step(env, before, f);
    if n == k + 1 {
      FirstHolds(env, before, f, side, px);
      assert LastGiven(frames, k, k, side, px) == None;
    } else {
      CoinbaseHolds(env, m, frames, k, n - 1, side, px);
      FrameHolds(env, before, f, SideOf(BookBehind(env, m, frames, k), side), side, px,
                 LastGiven(frames, k, n - 1, side, px));
    }
  }
}
