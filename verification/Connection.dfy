/** One connection through the replay: what is carried between ticks, and which seconds are sampled. */
module Connection {
  import opened Prelude
  import opened Ladders
  import opened LakeBook
  import opened Replay

  // ---- running one connection ----

  ghost function RunTo(env: Env, m: Machine, frames: seq<Frame>, n: nat): Machine
    requires n <= |frames|
  {
    FoldTo((m, f) => Step(env, m, f), m, frames, n)
  }

  ghost function RunOut(env: Env, m: Machine, frames: seq<Frame>, n: nat): seq<Out>
    requires n <= |frames|
  {
    FoldOut((m, f) => Step(env, m, f), (m, f) => StepOut(env, m, f), m, frames, n)
  }

  lemma {:induction false} RunAppend(env: Env, m: Machine, a: seq<Frame>, b: seq<Frame>, n: nat)
    requires n <= |b|
    ensures var mid := RunTo(env, m, a, |a|);
            && RunTo(env, m, a + b, |a| + n) == RunTo(env, mid, b, n)
            && RunOut(env, m, a + b, |a| + n) == RunOut(env, m, a, |a|) + RunOut(env, mid, b, n)
  {
    FoldToAppend((m, f) => Step(env, m, f), m, a, b, n);
    FoldOutAppend((m, f) => Step(env, m, f), (m, f) => StepOut(env, m, f), m, a, b, n, RunTo(env, m, a, |a|));
  }

  /** Receive times are after the first second of 1970. */
  ghost predicate Timed(frames: seq<Frame>) {
    forall i :: 0 <= i < |frames| ==> frames[i].recvNs >= NS
  }

  /** What holds of a connection between frames. */
  ghost predicate Sound(m: Machine) {
    && (!m.st.live ==> m.st.lastSecondNs.None? && m.st.firstNs.None? && m.book == EMPTY)
    && (m.st.live ==>
          && (m.st.lastSecondNs.Some? || m.st.firstNs.Some?)
          && (m.st.lastSecondNs.Some? ==> m.st.lastSecondNs.value >= 0 && m.st.lastSecondNs.value % NS == 0)
          && NextSecond(m.st) >= FloorSecond(m.st.stamp.recvNs)
          && NextSecond(m.st) >= NS)
  }

  /** A carried state as this code writes it. */
  ghost predicate CarriedOk(r: StateRow) {
    r.lastSecond >= 0 && r.lastSecond * NS + NS >= FloorSecond(r.lastRecvNs)
  }

  lemma {:induction false} FloorFacts(t: int)
    ensures FloorSecond(t) % NS == 0 && FloorSecond(t) <= t < FloorSecond(t) + NS
    ensures t >= NS ==> FloorSecond(t) >= NS
    ensures t % NS == 0 ==> FloorSecond(t) == t
  {}

  lemma {:induction false} SecondAfterIsMax(sec: int, boundary: int)
    requires sec % NS == 0 && boundary % NS == 0
    ensures SecondAfter(sec, boundary) == Max(sec, boundary)
    decreases boundary - sec
  {
    if sec < boundary {
      assert sec + NS <= boundary;
      SecondAfterIsMax(sec + NS, boundary);
    }
  }

  lemma {:induction false} NextIsWhole(m: Machine)
    requires Sound(m) && m.st.live
    ensures NextSecond(m.st) % NS == 0
  {
    if m.st.lastSecondNs.None? { FloorFacts(m.st.firstNs.value); }
  }

  /** A flush moves the next second to the frame's own, and never back. */
  lemma {:induction false} FlushMoves(m: Machine, t: int)
    requires Sound(m) && m.st.live && t >= NS
    ensures var m' := Flush(m, t);
            && m'.st == m.st.(lastSecondNs := m'.st.lastSecondNs) && m'.st.lastSecondNs.Some?
            && NextSecond(m'.st) == Max(NextSecond(m.st), FloorSecond(t))
            && Sound(m'.(st := m'.st))
  {
    NextIsWhole(m);
    FloorFacts(t);
    SecondAfterIsMax(NextSecond(m.st), FloorSecond(t));
  }

  lemma {:induction false} StepSound(env: Env, m: Machine, f: Frame)
    requires Sound(m) && f.recvNs >= NS
    ensures Sound(Step(env, m, f))
    ensures Step(env, m, f).st.live <==> m.st.live || f.body.snapshot
    ensures Step(env, m, f).st.live ==> Step(env, m, f).st.stamp.recvNs == f.recvNs
    ensures m.st.live ==> Step(env, m, f).st.lastSecondNs.Some?
    ensures m.st.live ==> NextSecond(Step(env, m, f).st) == Max(NextSecond(m.st), FloorSecond(f.recvNs))
    ensures !m.st.live && f.body.snapshot ==>
              Step(env, m, f).st.lastSecondNs.None? && NextSecond(Step(env, m, f).st) == FloorSecond(f.recvNs)
    ensures !m.st.live && !f.body.snapshot ==> Step(env, m, f) == m
  {
    FloorFacts(f.recvNs);
    if m.st.live { FlushMoves(m, f.recvNs); }
  }

  lemma {:induction false} BeginSound(env: Env, f: Frame)
    requires f.Key() in env.states ==> CarriedOk(env.states[f.Key()])
    ensures Sound(Begin(env, f))
  {}

  lemma {:induction false} RunSound(env: Env, m: Machine, frames: seq<Frame>, n: nat)
    requires Sound(m) && Timed(frames) && n <= |frames|
    ensures Sound(RunTo(env, m, frames, n))
  {
    if n > 0 {
      RunSound(env, m, frames, n - 1);
      StepSound(env, RunTo(env, m, frames, n - 1), frames[n - 1]);
    }
  }

  lemma {:induction false} RunKeepsNames(env: Env, m: Machine, frames: seq<Frame>, n: nat)
    requires n <= |frames|
    ensures var s, s' := m.st.stamp, RunTo(env, m, frames, n).st.stamp;
            s'.symbol == s.symbol && s'.canonical == s.canonical && s'.connId == s.connId && s'.topic == s.topic
  {
    if n > 0 { RunKeepsNames(env, m, frames, n - 1); }
  }

  // ---- the carry-over loses nothing ----

  lemma {:induction false} LadderOfLevels(levels: seq<Level>, n: nat, m: Ladder)
    requires n <= |levels|
    requires forall i :: 0 <= i < |levels| ==> levels[i].0 in m && m[levels[i].0] == levels[i].1
    ensures var r := LadderOf(levels, n);
            && (forall px :: px in r <==> exists i :: 0 <= i < n && levels[i].0 == px)
            && (forall px :: px in r ==> px in m && r[px] == m[px])
  {
    if n > 0 {
      LadderOfLevels(levels, n - 1, m);
      var r, r' := LadderOf(levels, n - 1), LadderOf(levels, n);
      forall px ensures px in r' <==> exists i :: 0 <= i < n && levels[i].0 == px {
        if px in r' {
          if px in r {
            var i :| 0 <= i < n - 1 && levels[i].0 == px;
          } else {
            assert levels[n - 1].0 == px;
          }
        }
      }
    }
  }

  /** Writing the top `n` levels and reading them back gives the window of that depth. */
  lemma {:induction false} TopRoundTrips(side: Side, m: Ladder, n: nat)
    ensures var top := TopLevels(side, m, n); LadderOf(top, |top|) == Window(side, m, n)
  {
    var top, keys := TopLevels(side, m, n), BestKeys(side, m.Keys, n);
    BestKeysIn(side, m, n);
    WindowKeys(side, m, n);
    LadderOfLevels(top, |top|, m);
    forall px ensures px in LadderOf(top, |top|) <==> px in keys {
      if px in keys {
        var i :| 0 <= i < |keys| && keys[i] == px;
        assert top[i].0 == px;
      }
    }
    forall px | px in keys ensures LadderOf(top, |top|)[px] == Window(side, m, n)[px] {}
    assert LadderOf(top, |top|).Keys == Window(side, m, n).Keys;
  }

  /** The carried book is the book exactly when neither side has more levels than the row keeps. */
  lemma {:induction false} CarryKeepsBook(v: BookValue)
    ensures var b, a := TopLevels(Bid, v.bids, STATE_LEVELS), TopLevels(Ask, v.asks, STATE_LEVELS);
            BookValue(LadderOf(b, |b|), LadderOf(a, |a|)) == v <==> Fits(v)
  {
    TopRoundTrips(Bid, v.bids, STATE_LEVELS);
    TopRoundTrips(Ask, v.asks, STATE_LEVELS);
    WindowSize(Bid, v.bids, STATE_LEVELS);
    WindowSize(Ask, v.asks, STATE_LEVELS);
  }

  ghost predicate Fits(v: BookValue) {
    |v.bids| <= STATE_LEVELS && |v.asks| <= STATE_LEVELS
  }

  lemma {:induction false} WindowSize(side: Side, m: Ladder, n: nat)
    ensures |Window(side, m, n)| == Min(n, |m|)
    ensures Window(side, m, n) == m <==> |m| <= n
  {
    WindowKeys(side, m, n);
    BestKeysMean(side, m.Keys, n);
    var keys, w := BestKeys(side, m.Keys, n), Window(side, m, n);
    DistinctSize(keys);
    assert w.Keys == set x | x in keys;
    assert |w| == |w.Keys| && |m| == |m.Keys|;
  }

  /** Two machines that no later frame can tell apart. */
  ghost predicate Alike(m: Machine, m': Machine) {
    && m.book == m'.book && m.st.stamp == m'.st.stamp && m.st.live == m'.st.live
    && (m.st.live ==> NextSecond(m.st) == NextSecond(m'.st))
  }

  /** Environments that judge alike, whatever states they carry. */
  ghost predicate SameJudge(env: Env, env': Env) {
    env.precisions == env'.precisions && env.crc == env'.crc
  }

  lemma {:induction false} AlikeRows(m: Machine, m': Machine, sec: int, boundary: int)
    requires m.book == m'.book && m.st.stamp == m'.st.stamp
    ensures RowsFrom(m, sec, boundary) == RowsFrom(m', sec, boundary)
    decreases boundary - sec
  {
    if sec < boundary { AlikeRows(m, m', sec + NS, boundary); }
  }

  lemma {:induction false} AlikeStep(env: Env, env': Env, m: Machine, m': Machine, f: Frame)
    requires SameJudge(env, env')
    requires Sound(m) && Sound(m') && Alike(m, m') && f.recvNs >= NS
    ensures StepOut(env, m, f) == StepOut(env', m', f) && Alike(Step(env, m, f), Step(env', m', f))
  {
    if m.st.live {
      FlushMoves(m, f.recvNs);
      FlushMoves(m', f.recvNs);
      AlikeRows(m, m', NextSecond(m.st), FloorSecond(f.recvNs));
    }
  }

  lemma {:induction false} AlikeRun(env: Env, env': Env, m: Machine, m': Machine, frames: seq<Frame>, n: nat)
    requires SameJudge(env, env')
    requires Sound(m) && Sound(m') && Alike(m, m') && Timed(frames) && n <= |frames|
    ensures RunOut(env, m, frames, n) == RunOut(env', m', frames, n)
    ensures Alike(RunTo(env, m, frames, n), RunTo(env', m', frames, n))
  {
    if n > 0 {
      AlikeRun(env, env', m, m', frames, n - 1);
      RunSound(env, m, frames, n - 1);
      RunSound(env', m', frames, n - 1);
      AlikeStep(env, env', RunTo(env, m, frames, n - 1), RunTo(env', m', frames, n - 1), frames[n - 1]);
    }
  }

  /** The end of a tick: no seconds are left to emit, and the carried row is determined by what matters later. */
  ghost function EndOf(m: Machine): Machine {
    Flush(m, m.st.stamp.recvNs)
  }

  lemma {:induction false} TickEnd(m: Machine)
    requires Sound(m) && m.st.live && m.st.stamp.recvNs >= NS
    ensures FlushRows(m, m.st.stamp.recvNs) == []
    ensures Alike(EndOf(m), m) && EndOf(m).st.lastSecondNs == Some(NextSecond(m.st) - NS)
    ensures CarryRow(EndOf(m)).Some? && CarriedOk(CarryRow(EndOf(m)).value)
    ensures m.st.lastSecondNs.Some? ==> CarryRow(m) == CarryRow(EndOf(m))
  {
    FlushMoves(m, m.st.stamp.recvNs);
    NextIsWhole(m);
  }

  lemma {:induction false} AlikeCarry(m: Machine, m': Machine)
    requires Sound(m) && Sound(m') && m.st.live && Alike(m, m') && m.st.stamp.recvNs >= NS
    ensures CarryRow(EndOf(m)) == CarryRow(EndOf(m'))
  {
    TickEnd(m);
    TickEnd(m');
  }

  lemma {:induction false} ResumedSecond(m: Machine, r: StateRow)
    requires Sound(m) && m.st.live && m.st.stamp.recvNs >= NS && CarryRow(EndOf(m)) == Some(r)
    ensures r.lastSecond * NS + NS == NextSecond(m.st)
  {
    TickEnd(m);
    NextIsWhole(m);
  }

  lemma {:induction false} ResumedBook(m: Machine, r: StateRow)
    requires m.st.live && Fits(m.book) && CarryRow(EndOf(m)) == Some(r)
    ensures BookValue(LadderOf(r.bids, |r.bids|), LadderOf(r.asks, |r.asks|)) == m.book
  {
    CarryKeepsBook(m.book);
  }

  ghost predicate SameNames(m: Machine, f: Frame) {
    && f.symbol == m.st.stamp.symbol && f.canonical == m.st.stamp.canonical
    && f.connId == m.st.stamp.connId && f.topic == m.st.stamp.topic
  }

  lemma {:induction false} ResumedStamp(m: Machine, r: StateRow, f: Frame)
    requires m.st.live && SameNames(m, f) && CarryRow(EndOf(m)) == Some(r)
    ensures Stamp(f.symbol, f.canonical, f.connId, f.topic, r.seqNum, r.checksumOk, r.lastRecvNs, r.lastConnMsgSeq,
                  r.lastSrc) == m.st.stamp
  {}

  /** Reading back what a live connection left behind resumes it exactly. */
  lemma {:induction false} ResumeIsAlike(env: Env, m: Machine, f: Frame)
    requires Sound(m) && m.st.live && m.st.stamp.recvNs >= NS && Fits(m.book) && SameNames(m, f)
    requires f.Key() in env.states && CarryRow(EndOf(m)) == Some(env.states[f.Key()])
    ensures Alike(Begin(env, f), m) && Sound(Begin(env, f))
  {
    var r := env.states[f.Key()];
    TickEnd(m);
    ResumedSecond(m, r);
    ResumedBook(m, r);
    ResumedStamp(m, r, f);
    BeginSound(env, f);
  }
}
