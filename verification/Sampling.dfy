/** Which seconds the replay samples, and from which frames (docker/lake/books.py, notebooks/k2lake.py). */
module Sampling {
  import opened Prelude
  import opened Replay
  import opened Connection

  function RowOf(o: Out): Option<BookRow> {
    if o.Book? then Some(o.row) else None
  }

  function BookRows(outs: seq<Out>): seq<BookRow> {
    Collect(RowOf, outs, |outs|)
  }

  lemma {:induction false} BookRowsConcat(a: seq<Out>, b: seq<Out>)
    ensures BookRows(a + b) == BookRows(a) + BookRows(b)
  {
    CollectConcat(RowOf, a, b, |b|);
  }

  /** The latest second any frame from `start` up to `n` falls in, or `s0`. */
  function Latest(s0: int, frames: seq<Frame>, start: nat, n: nat): int
    requires start <= n <= |frames|
    decreases n
  {
    if n == start then s0 else Max(Latest(s0, frames, start, n - 1), FloorSecond(frames[n - 1].recvNs))
  }

  lemma {:induction false} LatestCovers(s0: int, frames: seq<Frame>, start: nat, n: nat, i: nat)
    requires start <= i < n <= |frames|
    ensures FloorSecond(frames[i].recvNs) <= Latest(s0, frames, start, n)
    decreases n
  {
    if i < n - 1 { LatestCovers(s0, frames, start, n - 1, i); }
  }

  /**
   The row is the book after the first `j` frames, frame `j` is the first since `start` to arrive after the row's
   second, and so every frame since `start` behind the row arrived before that second was over.
   */
  ghost predicate Decides(env: Env, m: Machine, frames: seq<Frame>, start: nat, row: BookRow, j: nat)
    requires j < |frames|
  {
    && SnapshotRow(RunTo(env, m, frames, j), row.second * NS) == Book(row)
    && frames[j].recvNs >= row.second * NS + NS
    && forall i :: start <= i < j ==> frames[i].recvNs < row.second * NS + NS
  }

  ghost predicate Decided(env: Env, m: Machine, frames: seq<Frame>, start: nat, n: nat, row: BookRow)
    requires n <= |frames|
  {
    exists j: nat :: start <= j < n && Decides(env, m, frames, start, row, j)
  }

  /** Rows for the whole seconds from `sec` up to, not including, `boundary`. */
  ghost predicate EachSecond(m: Machine, sec: int, boundary: int, rows: seq<BookRow>) {
    && |rows| == Max(0, (boundary - sec) / NS)
    && forall k :: 0 <= k < |rows| ==> rows[k].second == sec / NS + k && Book(rows[k]) == SnapshotRow(m, sec + k * NS)
  }

  lemma {:induction false} OneSecondMore(sec: int, boundary: int)
    requires sec % NS == 0 && boundary % NS == 0 && sec < boundary
    ensures (sec + NS) / NS == sec / NS + 1
    ensures Max(0, (boundary - sec) / NS) == Max(0, (boundary - (sec + NS)) / NS) + 1
  {}

  lemma {:induction false} OneMoreSecond(m: Machine, sec: int, boundary: int, first: BookRow, tail: seq<BookRow>)
    requires sec % NS == 0 && boundary % NS == 0 && sec < boundary
    requires Book(first) == SnapshotRow(m, sec) && EachSecond(m, sec + NS, boundary, tail)
    ensures EachSecond(m, sec, boundary, [first] + tail)
  {
    var rows := [first] + tail;
    OneSecondMore(sec, boundary);
    forall k | 0 <= k < |rows| ensures rows[k].second == sec / NS + k && Book(rows[k]) == SnapshotRow(m, sec + k * NS) {
      if k > 0 { assert rows[k] == tail[k - 1]; }
    }
  }

  lemma {:induction false} RowsFromNext(m: Machine, sec: int, boundary: int)
    requires sec < boundary
    ensures BookRows(RowsFrom(m, sec, boundary)) ==
            [SnapshotRow(m, sec).row] + BookRows(RowsFrom(m, sec + NS, boundary))
  {
    var first, rest := SnapshotRow(m, sec), RowsFrom(m, sec + NS, boundary);
    BookRowsConcat([first], rest);
    assert BookRows([first]) == [first.row] by { assert Collect(RowOf, [first], 0) == []; }
  }

  /** A flush emits one row for every whole second of its stretch. */
  lemma {:induction false} FlushedSeconds(m: Machine, sec: int, boundary: int)
    requires sec % NS == 0 && boundary % NS == 0
    ensures EachSecond(m, sec, boundary, BookRows(RowsFrom(m, sec, boundary)))
    decreases boundary - sec
  {
    if sec < boundary {
      FlushedSeconds(m, sec + NS, boundary);
      RowsFromNext(m, sec, boundary);
      OneMoreSecond(m, sec, boundary, SnapshotRow(m, sec).row, BookRows(RowsFrom(m, sec + NS, boundary)));
    }
  }

  lemma {:induction false} VerdictsHaveNoRows(env: Env, m: Machine, f: Frame)
    ensures BookRows(Verdicts(env, m, f)) == []
  {
    var v := Verdicts(env, m, f);
    if v != [] { assert Collect(RowOf, v, 0) == []; }
  }

  /** The rows one frame makes due. */
  lemma {:induction false} StepRows(env: Env, m: Machine, f: Frame)
    requires Sound(m) && f.recvNs >= NS
    ensures BookRows(StepOut(env, m, f)) == BookRows(FlushRows(m, f.recvNs))
  {
    VerdictsHaveNoRows(env, Flush(m, f.recvNs), f);
    BookRowsConcat(FlushRows(m, f.recvNs), Verdicts(env, Flush(m, f.recvNs), f));
  }

  /** Row `k` is second `s0 + k`, and it is decided by the frames. */
  ghost predicate RowsRight(env: Env, m: Machine, frames: seq<Frame>, start: nat, n: nat, s0: int, rows: seq<BookRow>)
    requires n <= |frames|
  {
    forall k :: 0 <= k < |rows| ==>
      rows[k].second == s0 / NS + k && Decided(env, m, frames, start, n, rows[k])
  }

  lemma {:induction false} WholeSeconds(s: int, k: nat, boundary: int)
    requires s % NS == 0 && boundary % NS == 0 && s + k * NS < boundary
    ensures (s / NS + k) * NS == s + k * NS && s + k * NS + NS <= boundary
  {
    var q, b := s / NS, boundary / NS;
    assert s == q * NS && boundary == b * NS;
    assert (q + k) * NS == q * NS + k * NS;
    assert q + k < b;
  }

  lemma {:induction false} NewRowDecided(env: Env, m: Machine, frames: seq<Frame>, start: nat, n: nat, s0: int,
                                         row: BookRow)
    requires start <= n < |frames| && Timed(frames)
    requires Latest(s0, frames, start, n) <= row.second * NS
    requires row.second * NS + NS <= FloorSecond(frames[n].recvNs)
    requires Book(row) == SnapshotRow(RunTo(env, m, frames, n), row.second * NS)
    ensures Decided(env, m, frames, start, n + 1, row)
  {
    FloorFacts(frames[n].recvNs);
    forall i: nat | start <= i < n ensures frames[i].recvNs < row.second * NS + NS {
      LatestCovers(s0, frames, start, n, i);
      FloorFacts(frames[i].recvNs);
    }
    assert Decides(env, m, frames, start, row, n);
  }

  /** The rows a frame makes due run from the next second to its own. */
  ghost predicate DueRows(m: Machine, recvNs: int, rows: seq<BookRow>) {
    EachSecond(m, NextSecond(m.st), FloorSecond(recvNs), rows)
  }

  lemma {:induction false} StepDue(env: Env, m: Machine, f: Frame)
    requires Sound(m) && m.st.live && f.recvNs >= NS
    ensures DueRows(m, f.recvNs, BookRows(StepOut(env, m, f)))
  {
    StepRows(env, m, f);
    NextIsWhole(m);
    FloorFacts(f.recvNs);
    FlushedSeconds(m, NextSecond(m.st), FloorSecond(f.recvNs));
  }

  /** The connection is live after `start` frames, owes its first row for `s0`, and has yielded none. */
  ghost predicate LiveFrom(env: Env, m: Machine, frames: seq<Frame>, start: nat, s0: int)
    requires start <= |frames|
  {
    var m' := RunTo(env, m, frames, start);
    && Sound(m') && m'.st.live && NextSecond(m'.st) == s0 && s0 % NS == 0
    && BookRows(RunOut(env, m, frames, start)) == []
  }

  /** Live, and owing its next row for second boundary `next`. */
  ghost predicate Owes(m: Machine, next: int) {
    Sound(m) && m.st.live && NextSecond(m.st) == next
  }

  lemma {:induction false} OwesNext(env: Env, m: Machine, f: Frame, next: int)
    requires Owes(m, next) && f.recvNs >= NS
    ensures Owes(Step(env, m, f), Max(next, FloorSecond(f.recvNs)))
  {
    StepSound(env, m, f);
  }

  lemma {:induction false} OwesFold(env: Env, step: (Machine, Frame) -> Machine, m: Machine, f: Frame, next: int)
    requires step(m, f) == Step(env, m, f) && Owes(m, next) && f.recvNs >= NS
    ensures Owes(step(m, f), Max(next, FloorSecond(f.recvNs)))
  {
    OwesNext(env, m, f, next);
  }

  lemma {:induction false} OwesLatest(env: Env, step: (Machine, Frame) -> Machine, m: Machine, frames: seq<Frame>,
                                      start: nat, n: nat, s0: int)
    requires forall m', f :: step(m', f) == Step(env, m', f)
    requires start <= n <= |frames| && Timed(frames) && Owes(FoldTo(step, m, frames, start), s0)
    ensures Owes(FoldTo(step, m, frames, n), Latest(s0, frames, start, n))
    decreases n
  {
    if n > start {
      OwesLatest(env, step, m, frames, start, n - 1, s0);
      OwesFold(env, step, FoldTo(step, m, frames, n - 1), frames[n - 1], Latest(s0, frames, start, n - 1));
    }
  }

  lemma {:induction false} LatestIsNext(env: Env, m: Machine, frames: seq<Frame>, start: nat, n: nat, s0: int)
    requires start <= n <= |frames| && Timed(frames) && LiveFrom(env, m, frames, start, s0)
    ensures Owes(RunTo(env, m, frames, n), Latest(s0, frames, start, n))
  {
    OwesLatest(env, (m, f) => Step(env, m, f), m, frames, start, n, s0);
  }

  ghost predicate SampledTo(env: Env, m: Machine, frames: seq<Frame>, start: nat, n: nat, s0: int, rows: seq<BookRow>)
    requires start <= n <= |frames|
  {
    RowsRight(env, m, frames, start, n, s0, rows) && |rows| * NS == Latest(s0, frames, start, n) - s0
  }

  lemma {:induction false} SamplingStep(env: Env, m: Machine, frames: seq<Frame>, start: nat, n: nat, s0: int,
                                        before: seq<BookRow>)
    requires start <= n < |frames| && Timed(frames) && LiveFrom(env, m, frames, start, s0)
    requires SampledTo(env, m, frames, start, n, s0, before)
    ensures SampledTo(env, m, frames, start, n + 1, s0,
                      before + BookRows(StepOut(env, RunTo(env, m, frames, n), frames[n])))
  {
    LatestIsNext(env, m, frames, start, n, s0);
    var mid := RunTo(env, m, frames, n);
    StepDue(env, mid, frames[n]);
    NextIsWhole(mid);
    AppendRows(env, m, frames, start, n, s0, mid, before, BookRows(StepOut(env, mid, frames[n])));
  }

  lemma {:induction false} AppendRows(env: Env, m: Machine, frames: seq<Frame>, start: nat, n: nat, s0: int,
                                      mid: Machine, before: seq<BookRow>, due: seq<BookRow>)
    requires start <= n < |frames| && Timed(frames) && s0 % NS == 0
    requires mid == RunTo(env, m, frames, n) && NextSecond(mid.st) == Latest(s0, frames, start, n)
    requires SampledTo(env, m, frames, start, n, s0, before) && DueRows(mid, frames[n].recvNs, due)
    requires NextSecond(mid.st) % NS == 0
    ensures SampledTo(env, m, frames, start, n + 1, s0, before + due)
  {
    var s, all, boundary := NextSecond(mid.st), before + due, FloorSecond(frames[n].recvNs);
    FloorFacts(frames[n].recvNs);
    forall k | 0 <= k < |all|
      ensures all[k].second == s0 / NS + k && Decided(env, m, frames, start, n + 1, all[k])
    {
      if k < |before| {
        assert all[k] == before[k];
        var j: nat :| start <= j < n && Decides(env, m, frames, start, before[k], j);
        assert j < n + 1 && Decides(env, m, frames, start, all[k], j);
      } else {
        var t := k - |before|;
        assert all[k] == due[t];
        DueBelow(s, boundary, |due|, t);
        WholeSeconds(s, t, boundary);
        NewRowDecided(env, m, frames, start, n, s0, due[t]);
        SecondsAdd(s, s0, |before|);
      }
    }
    LengthsAdd(s, s0, boundary, |before|, |due|);
  }

  lemma {:induction false} DueBelow(s: int, boundary: int, n: nat, t: nat)
    requires s % NS == 0 && boundary % NS == 0 && n == Max(0, (boundary - s) / NS) && t < n
    ensures s + t * NS < boundary
  {}

  lemma {:induction false} SecondsAdd(s: int, s0: int, n: nat)
    requires s % NS == 0 && s0 % NS == 0 && n * NS == s - s0
    ensures s / NS == s0 / NS + n
  {}

  lemma {:induction false} LengthsAdd(s: int, s0: int, boundary: int, n: nat, more: nat)
    requires s % NS == 0 && boundary % NS == 0 && n * NS == s - s0 && more == Max(0, (boundary - s) / NS)
    ensures (n + more) * NS == Max(s, boundary) - s0
  {}

  /**
   The sampling rule: from the point a connection is live, one row for every second from the first one due up to,
   not including, the latest second a frame fell in, in order, none missing, none twice.
   */
  lemma {:induction false} LiveSampling(env: Env, m: Machine, frames: seq<Frame>, start: nat, n: nat, s0: int)
    requires start <= n <= |frames| && Timed(frames) && LiveFrom(env, m, frames, start, s0)
    ensures SampledTo(env, m, frames, start, n, s0, BookRows(RunOut(env, m, frames, n)))
  {
    RowsAsPieces(env, m, frames, start);
    RowsAsPieces(env, m, frames, n);
    StepsKeep(env, m, frames, start, n, s0, Pieces(env, m, frames));
    SampledPieces(env, m, frames, start, n, s0, Pieces(env, m, frames));
  }

  /** What each frame makes due. */
  ghost function Pieces(env: Env, m: Machine, frames: seq<Frame>): seq<seq<BookRow>> {
    seq(|frames|, k requires 0 <= k < |frames| => BookRows(StepOut(env, RunTo(env, m, frames, k), frames[k])))
  }

  lemma {:induction false} RowsFold(step: (Machine, Frame) -> Machine, out: (Machine, Frame) -> seq<Out>, m: Machine,
                                    frames: seq<Frame>, n: nat, pieces: seq<seq<BookRow>>)
    requires n <= |frames| == |pieces|
    requires forall k :: 0 <= k < n ==> pieces[k] == BookRows(out(FoldTo(step, m, frames, k), frames[k]))
    ensures BookRows(FoldOut(step, out, m, frames, n)) == Flatten(pieces, n)
  {
    if n > 0 {
      RowsFold(step, out, m, frames, n - 1, pieces);
      BookRowsConcat(FoldOut(step, out, m, frames, n - 1), out(FoldTo(step, m, frames, n - 1), frames[n - 1]));
    }
  }

  lemma {:induction false} RowsAsPieces(env: Env, m: Machine, frames: seq<Frame>, n: nat)
    requires n <= |frames|
    ensures BookRows(RunOut(env, m, frames, n)) == Flatten(Pieces(env, m, frames), n)
  {
    RowsFold((m, f) => Step(env, m, f), (m, f) => StepOut(env, m, f), m, frames, n, Pieces(env, m, frames));
  }

  /** Induction over pieces laid end to end. */
  lemma {:induction false} FlattenInduct<A(!new)>(pieces: seq<seq<A>>, start: nat, n: nat, p: (nat, seq<A>) -> bool)
    requires start <= n <= |pieces| && Flatten(pieces, start) == [] && p(start, [])
    requires forall k: nat, rows :: start <= k < n && p(k, rows) ==> p(k + 1, rows + pieces[k])
    ensures p(n, Flatten(pieces, n))
    decreases n
  {
    if n > start { FlattenInduct(pieces, start, n - 1, p); }
  }

  lemma {:induction false} PieceStep(env: Env, m: Machine, frames: seq<Frame>, start: nat, n: nat, s0: int,
                                     before: seq<BookRow>, piece: seq<BookRow>)
    requires start <= n < |frames| && Timed(frames) && LiveFrom(env, m, frames, start, s0)
    requires SampledTo(env, m, frames, start, n, s0, before) && piece == Pieces(env, m, frames)[n]
    ensures SampledTo(env, m, frames, start, n + 1, s0, before + piece)
  {
    SamplingStep(env, m, frames, start, n, s0, before);
  }

  lemma {:induction false} StepsKeep(env: Env, m: Machine, frames: seq<Frame>, start: nat, n: nat, s0: int,
                                     pieces: seq<seq<BookRow>>)
    requires start <= n <= |frames| && Timed(frames) && LiveFrom(env, m, frames, start, s0)
    requires pieces == Pieces(env, m, frames)
    ensures forall k: nat, rows :: start <= k < n && SampledTo(env, m, frames, start, k, s0, rows) ==>
              SampledTo(env, m, frames, start, k + 1, s0, rows + pieces[k])
  {
    forall k: nat, rows | start <= k < n && SampledTo(env, m, frames, start, k, s0, rows)
      ensures SampledTo(env, m, frames, start, k + 1, s0, rows + pieces[k])
    {
      PieceStep(env, m, frames, start, k, s0, rows, pieces[k]);
    }
  }

  lemma {:induction false} SampledPieces(env: Env, m: Machine, frames: seq<Frame>, start: nat, n: nat, s0: int,
                                         pieces: seq<seq<BookRow>>)
    requires start <= n <= |frames| == |pieces| && Flatten(pieces, start) == []
    requires forall k: nat, rows :: start <= k < n && SampledTo(env, m, frames, start, k, s0, rows) ==>
               SampledTo(env, m, frames, start, k + 1, s0, rows + pieces[k])
    ensures SampledTo(env, m, frames, start, n, s0, Flatten(pieces, n))
  {
    FlattenInduct(pieces, start, n, (k: nat, rows: seq<BookRow>) =>
      start <= k <= |frames| && SampledTo(env, m, frames, start, k, s0, rows));
  }

  // ---- a connection from its opening snapshot, and one resumed ----

  lemma {:induction false} DormantFrame(env: Env, m: Machine, f: Frame)
    requires Sound(m) && !m.st.live && f.recvNs >= NS && !f.body.snapshot
    ensures Step(env, m, f) == m && BookRows(StepOut(env, m, f)) == []
  {
    StepSound(env, m, f);
    StepRows(env, m, f);
  }

  lemma {:induction false} StillRun(step: (Machine, Frame) -> Machine, out: (Machine, Frame) -> seq<Out>, m: Machine,
                                    frames: seq<Frame>, n: nat)
    requires n <= |frames| && forall i :: 0 <= i < n ==> step(m, frames[i]) == m && BookRows(out(m, frames[i])) == []
    ensures FoldTo(step, m, frames, n) == m && BookRows(FoldOut(step, out, m, frames, n)) == []
  {
    if n > 0 {
      StillRun(step, out, m, frames, n - 1);
      BookRowsConcat(FoldOut(step, out, m, frames, n - 1), out(m, frames[n - 1]));
    }
  }

  lemma {:induction false} DormantRun(env: Env, m: Machine, frames: seq<Frame>, n: nat)
    requires Sound(m) && !m.st.live && Timed(frames) && n <= |frames|
    requires forall i :: 0 <= i < n ==> !frames[i].body.snapshot
    ensures RunTo(env, m, frames, n) == m && BookRows(RunOut(env, m, frames, n)) == []
  {
    forall i | 0 <= i < n ensures Step(env, m, frames[i]) == m && BookRows(StepOut(env, m, frames[i])) == [] {
      DormantFrame(env, m, frames[i]);
    }
    StillRun((m, f) => Step(env, m, f), (m, f) => StepOut(env, m, f), m, frames, n);
  }

  lemma {:induction false} OpeningFrame(env: Env, m: Machine, f: Frame)
    requires Sound(m) && !m.st.live && f.recvNs >= NS && f.body.snapshot
    ensures Owes(Step(env, m, f), FloorSecond(f.recvNs)) && BookRows(StepOut(env, m, f)) == []
  {
    StepSound(env, m, f);
    StepRows(env, m, f);
  }

  lemma {:induction false} FoldNext(step: (Machine, Frame) -> Machine, out: (Machine, Frame) -> seq<Out>, m: Machine,
                                    frames: seq<Frame>, k: nat)
    requires k < |frames| && FoldTo(step, m, frames, k) == m && BookRows(FoldOut(step, out, m, frames, k)) == []
    ensures FoldTo(step, m, frames, k + 1) == step(m, frames[k])
    ensures BookRows(FoldOut(step, out, m, frames, k + 1)) == BookRows(out(m, frames[k]))
  {
    BookRowsConcat(FoldOut(step, out, m, frames, k), out(m, frames[k]));
  }

  lemma {:induction false} RunOpens(env: Env, m: Machine, frames: seq<Frame>, k: nat)
    requires Sound(m) && !m.st.live && Timed(frames) && k < |frames| && frames[k].body.snapshot
    requires RunTo(env, m, frames, k) == m && BookRows(RunOut(env, m, frames, k)) == []
    ensures RunTo(env, m, frames, k + 1) == Step(env, m, frames[k])
    ensures LiveFrom(env, m, frames, k + 1, FloorSecond(frames[k].recvNs))
  {
    OpeningFrame(env, m, frames[k]);
    FoldNext((m, f) => Step(env, m, f), (m, f) => StepOut(env, m, f), m, frames, k);
    FloorFacts(frames[k].recvNs);
  }

  lemma {:induction false} LatestFromOpening(s0: int, frames: seq<Frame>, k: nat, n: nat)
    requires k < n <= |frames| && s0 == FloorSecond(frames[k].recvNs)
    ensures Latest(s0, frames, k, n) == Latest(s0, frames, k + 1, n)
    decreases n
  {
    if n > k + 1 {
      LatestFromOpening(s0, frames, k, n - 1);
    } else {
      assert Latest(s0, frames, k, k) == s0;
    }
  }

  /** The opening frame itself arrived before the end of every second it opened. */
  lemma {:induction false} OpeningBelongs(env: Env, m: Machine, frames: seq<Frame>, k: nat, n: nat, s0: int,
                                          row: BookRow)
    requires k < n <= |frames| && s0 == FloorSecond(frames[k].recvNs) && row.second * NS >= s0
    requires Decided(env, m, frames, k + 1, n, row)
    ensures Decided(env, m, frames, k, n, row)
  {
    FloorFacts(frames[k].recvNs);
    var j: nat :| k + 1 <= j < n && Decides(env, m, frames, k + 1, row, j);
    assert Decides(env, m, frames, k, row, j);
  }

  lemma {:induction false} SampledFromOpening(env: Env, m: Machine, frames: seq<Frame>, k: nat, n: nat, s0: int,
                                              rows: seq<BookRow>)
    requires k < n <= |frames| && s0 == FloorSecond(frames[k].recvNs)
    requires SampledTo(env, m, frames, k + 1, n, s0, rows)
    ensures SampledTo(env, m, frames, k, n, s0, rows)
  {
    LatestFromOpening(s0, frames, k, n);
    FloorFacts(frames[k].recvNs);
    forall i | 0 <= i < |rows| ensures rows[i].second == s0 / NS + i && Decided(env, m, frames, k, n, rows[i]) {
      OpeningBelongs(env, m, frames, k, n, s0, rows[i]);
    }
  }

  /**
   A connection that opens with the snapshot at `k` samples every second from that frame's own up to, not
   including, the latest one a frame fell in. Each row is decided by the frames from the snapshot on; those before it
   leave no row and no trace.
   */
  lemma {:induction false} FreshSampling(env: Env, m: Machine, frames: seq<Frame>, k: nat, n: nat)
    requires Sound(m) && !m.st.live && Timed(frames) && k < n <= |frames| && frames[k].body.snapshot
    requires forall i :: 0 <= i < k ==> !frames[i].body.snapshot
    ensures SampledTo(env, m, frames, k, n, FloorSecond(frames[k].recvNs), BookRows(RunOut(env, m, frames, n)))
    ensures RunTo(env, m, frames, k) == m && RunTo(env, m, frames, k + 1) == Step(env, m, frames[k])
  {
    var s0 := FloorSecond(frames[k].recvNs);
    DormantRun(env, m, frames, k);
    RunOpens(env, m, frames, k);
    LiveSampling(env, m, frames, k + 1, n, s0);
    SampledFromOpening(env, m, frames, k, n, s0, BookRows(RunOut(env, m, frames, n)));
  }

  /** A connection resumed from its carried state goes on with the second it owed. */
  lemma {:induction false} ResumedSampling(env: Env, m: Machine, frames: seq<Frame>, n: nat)
    requires Sound(m) && m.st.live && Timed(frames) && n <= |frames|
    ensures SampledTo(env, m, frames, 0, n, NextSecond(m.st), BookRows(RunOut(env, m, frames, n)))
  {
    NextIsWhole(m);
    assert RunTo(env, m, frames, 0) == m && RunOut(env, m, frames, 0) == [];
    LiveSampling(env, m, frames, 0, n, NextSecond(m.st));
  }

  /** `row` is the book after `j` frames, exactly those from `k` on received before the row's second ended. */
  ghost predicate HoldsExactly(env: Env, m: Machine, frames: seq<Frame>, k: nat, row: BookRow, j: nat)
    requires j < |frames|
  {
    && SnapshotRow(RunTo(env, m, frames, j), row.second * NS) == Book(row)
    && forall i :: k <= i < |frames| ==> (i < j <==> frames[i].recvNs < row.second * NS + NS)
  }

  /**
   When receive times do not go back, each row of a fresh connection holds every frame received before its second was
   over and no other, the opening snapshot included.
   */
  lemma {:induction false} MonotoneHoldsAll(env: Env, m: Machine, frames: seq<Frame>, k: nat, n: nat, row: BookRow)
    requires Sound(m) && !m.st.live && Timed(frames) && k < n <= |frames| && frames[k].body.snapshot
    requires forall i :: 0 <= i < k ==> !frames[i].body.snapshot
    requires forall a, b :: 0 <= a < b < |frames| ==> frames[a].recvNs <= frames[b].recvNs
    requires row in BookRows(RunOut(env, m, frames, n))
    ensures exists j: nat :: k < j < n && HoldsExactly(env, m, frames, k, row, j)
  {
    var j := DecidingFrame(env, m, frames, k, n, row);
    assert HoldsExactly(env, m, frames, k, row, j);
  }

  /** The frame that decides a row of a fresh connection comes after its opening snapshot. */
  lemma {:induction false} DecidingFrame(env: Env, m: Machine, frames: seq<Frame>, k: nat, n: nat, row: BookRow)
    returns (j: nat)
    requires Sound(m) && !m.st.live && Timed(frames) && k < n <= |frames| && frames[k].body.snapshot
    requires forall i :: 0 <= i < k ==> !frames[i].body.snapshot
    requires row in BookRows(RunOut(env, m, frames, n))
    ensures k < j < n && Decides(env, m, frames, k, row, j)
  {
    FreshSampling(env, m, frames, k, n);
    FloorFacts(frames[k].recvNs);
    j := RowDecided(env, m, frames, k, n, FloorSecond(frames[k].recvNs), BookRows(RunOut(env, m, frames, n)), row);
  }

  lemma {:induction false} RowDecided(env: Env, m: Machine, frames: seq<Frame>, start: nat, n: nat, s0: int,
                                      rows: seq<BookRow>, row: BookRow) returns (j: nat)
    requires start <= n <= |frames| && s0 % NS == 0 && SampledTo(env, m, frames, start, n, s0, rows) && row in rows
    ensures start <= j < n && Decides(env, m, frames, start, row, j) && row.second * NS >= s0
  {
    var i :| 0 <= i < |rows| && rows[i] == row;
    assert rows[i].second == s0 / NS + i;
    j :| start <= j < n && Decides(env, m, frames, start, rows[i], j);
  }

  /**
   A quote paired at `second + 1s` knows nothing received at or after the trade: not one of the frames behind the row,
   the opening snapshot among them.
   */
  lemma {:induction false} NoLookahead(env: Env, m: Machine, frames: seq<Frame>, k: nat, n: nat, row: BookRow,
                                       tradeNs: int)
    requires Sound(m) && !m.st.live && Timed(frames) && k < n <= |frames| && frames[k].body.snapshot
    requires forall i :: 0 <= i < k ==> !frames[i].body.snapshot
    requires row in BookRows(RunOut(env, m, frames, n)) && tradeNs >= (row.second + 1) * NS
    ensures exists j: nat :: k < j < n && SnapshotRow(RunTo(env, m, frames, j), row.second * NS) == Book(row)
                             && forall i :: k <= i < j ==> frames[i].recvNs < tradeNs
  {
    var j := DecidingFrame(env, m, frames, k, n, row);
    assert (row.second + 1) * NS == row.second * NS + NS;
  }

  /** The same for a connection resumed from its carried state, of the frames this run has seen. */
  lemma {:induction false} NoLookaheadResumed(env: Env, m: Machine, frames: seq<Frame>, n: nat, row: BookRow,
                                              tradeNs: int)
    requires Sound(m) && m.st.live && Timed(frames) && n <= |frames|
    requires row in BookRows(RunOut(env, m, frames, n)) && tradeNs >= (row.second + 1) * NS
    ensures exists j: nat :: j < n && SnapshotRow(RunTo(env, m, frames, j), row.second * NS) == Book(row)
                             && forall i :: 0 <= i < j ==> frames[i].recvNs < tradeNs
  {
    ResumedSampling(env, m, frames, n);
    NextIsWhole(m);
    var j := RowDecided(env, m, frames, 0, n, NextSecond(m.st), BookRows(RunOut(env, m, frames, n)), row);
    assert (row.second + 1) * NS == row.second * NS + NS;
  }
}
