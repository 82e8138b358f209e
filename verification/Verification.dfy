/** A faithful venue's checksums verify on every frame. */
module Verification {
  import opened Prelude
  import opened Ladders
  import opened LakeBook
  import opened DepthWindow
  import opened Replay
  import opened Connection

  ghost function BookFrames(frames: seq<Frame>): seq<BookFrame>
    requires forall i :: 0 <= i < |frames| ==> frames[i].body.KrakenBody?
  {
    seq(|frames|, i requires 0 <= i < |frames| =>
      BookFrame(frames[i].body.snapshot, frames[i].body.bids, frames[i].body.asks))
  }

  /** The venue's own checksum over its own book. */
  ghost function VenueChecksum(env: Env, symbol: string, v: BookValue): int
    requires symbol in env.precisions
  {
    env.crc(ChecksumText(TopLevels(Ask, v.asks, CHECKSUM_LEVELS), TopLevels(Bid, v.bids, CHECKSUM_LEVELS),
                         env.precisions[symbol].0, env.precisions[symbol].1))
  }

  /** A Kraken feed that opens with a snapshot, reports the venue's book and carries its checksum. */
  ghost predicate HonestFeed(env: Env, venue: seq<BookValue>, frames: seq<Frame>) {
    && (forall i :: 0 <= i < |frames| ==> frames[i].body.KrakenBody? && frames[i].symbol in env.precisions)
    && (frames != [] ==> frames[0].body.snapshot)
    && Faithful(venue, BookFrames(frames), 25)
    && (forall i :: 0 <= i < |frames| ==>
          frames[i].body.checksum == VenueChecksum(env, frames[i].symbol, venue[i]))
  }

  lemma {:induction false} ReplayedBook(env: Env, m: Machine, frames: seq<Frame>, n: nat)
    requires n <= |frames| && m.book == EMPTY && forall i :: 0 <= i < |frames| ==> frames[i].body.KrakenBody?
    requires frames != [] ==> frames[0].body.snapshot
    ensures RunTo(env, m, frames, n).book == LocalAfter(BookFrames(frames), n, KRAKEN_DEPTH)
    ensures n > 0 ==> RunTo(env, m, frames, n).st.live
  {
    if n > 0 {
      ReplayedBook(env, m, frames, n - 1);
    }
  }

  lemma {:induction false} SameTopIsRight(env: Env, symbol: string, local: BookValue, venue: BookValue, checksum: int)
    requires symbol in env.precisions && checksum == VenueChecksum(env, symbol, venue)
    requires TopLevels(Bid, local.bids, CHECKSUM_LEVELS) == TopLevels(Bid, venue.bids, CHECKSUM_LEVELS)
    requires TopLevels(Ask, local.asks, CHECKSUM_LEVELS) == TopLevels(Ask, venue.asks, CHECKSUM_LEVELS)
    ensures Judge(env, symbol, local, checksum) == Some(true)
  {}

  /** Every frame of an honest feed is judged correct: truncation and replay never cost a checksum. */
  lemma {:induction false} HonestFeedVerifies(env: Env, m: Machine, venue: seq<BookValue>, frames: seq<Frame>, i: nat)
    requires HonestFeed(env, venue, frames) && i < |frames| && m.book == EMPTY && !m.st.live
    ensures Verdicts(env, Flush(RunTo(env, m, frames, i), frames[i].recvNs), frames[i]) ==
            [Verdict(frames[i].src, Some(true))]
  {
    var f, before := frames[i], Flush(RunTo(env, m, frames, i), frames[i].recvNs);
    ReplayedBook(env, m, frames, i);
    ReplayedBook(env, m, frames, i + 1);
    SameTop(venue, BookFrames(frames), KRAKEN_DEPTH, i + 1, CHECKSUM_LEVELS);
    assert !Ignored(before.st, f);
    assert ApplyBody(before.book, f.body) == LocalAfter(BookFrames(frames), i + 1, KRAKEN_DEPTH);
    SameTopIsRight(env, f.symbol, ApplyBody(before.book, f.body), venue[i], f.body.checksum);
  }
}
