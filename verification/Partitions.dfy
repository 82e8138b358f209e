/** A partition holds many connections; each is replayed as if alone. */
module Partitions {
  import opened Prelude
  import opened Replay
  import opened Connection
  import opened Ticks

  /** One run of frames per connection, in the order `sortWithinPartitions` leaves them. */
  ghost predicate Grouped(groups: seq<seq<Frame>>) {
    && (forall i :: 0 <= i < |groups| ==> OneConnection(groups[i]) && Timed(groups[i]))
    && (forall i, j :: 0 <= i < j < |groups| && j == i + 1 ==> groups[i][0].Key() != groups[j][0].Key())
  }

  /** A connection without carried state whose only snapshot in this run is the last frame of it. */
  predicate OpensLast(env: Env, frames: seq<Frame>)
    requires frames != []
  {
    && frames[0].Key() !in env.states
    && frames[|frames| - 1].body.snapshot
    && forall i :: 0 <= i < |frames| - 1 ==> !frames[i].body.snapshot
  }

  ghost predicate OpenedBy(frames: seq<Frame>, n: nat)
    requires n <= |frames|
  {
    exists i :: 0 <= i < n && frames[i].body.snapshot
  }

  /** A connection is live once it was carried over or has had a snapshot. */
  lemma {:induction false} LiveIff(env: Env, frames: seq<Frame>, n: nat)
    requires OneConnection(frames) && Timed(frames) && StatesOk(env) && n <= |frames|
    ensures RunTo(env, Start(env, frames), frames, n).st.live <==> frames[0].Key() in env.states || OpenedBy(frames, n)
  {
    if n > 0 {
      LiveIff(env, frames, n - 1);
      StartSound(env, frames, n - 1);
      StepSound(env, RunTo(env, Start(env, frames), frames, n - 1), frames[n - 1]);
      OpenedNext(frames, n);
    }
  }

  lemma {:induction false} OpenedNext(frames: seq<Frame>, n: nat)
    requires 0 < n <= |frames|
    ensures OpenedBy(frames, n) <==> OpenedBy(frames, n - 1) || frames[n - 1].body.snapshot
  {
    if frames[n - 1].body.snapshot { assert OpenedBy(frames, n); }
  }

  /** A live connection has no second recorded exactly when its last frame made it live. */
  lemma {:induction false} NoSecondIff(env: Env, frames: seq<Frame>)
    requires OneConnection(frames) && Timed(frames) && StatesOk(env)
    ensures var st := EndMachine(env, frames).st; st.live && st.lastSecondNs.None? <==> OpensLast(env, frames)
  {
    var n := |frames|;
    LiveIff(env, frames, n - 1);
    StartSound(env, frames, n - 1);
    StepSound(env, RunTo(env, Start(env, frames), frames, n - 1), frames[n - 1]);
  }

  /** Leaving a connection raises exactly when it opened on its last frame; otherwise it yields what it would alone. */
  lemma {:induction false} LeaveAlone(env: Env, frames: seq<Frame>, outs: seq<Out>)
    requires OneConnection(frames) && Timed(frames) && StatesOk(env)
    ensures var w := Leave(Walk(Some(EndMachine(env, frames)), outs + AllOut(env, frames), false));
            && (w.raised <==> OpensLast(env, frames))
            && (!w.raised ==> w.outs == outs + ReplayOf(env, frames).outs)
  {
    var m := EndMachine(env, frames);
    ReplayIsRun(env, frames);
    NoSecondIff(env, frames);
    if m.st.live {
      StartSound(env, frames, |frames|);
      LiveMeansStamped(env, frames);
      TickEnd(m);
    }
    Associate(outs, AllOut(env, frames), Carried(m));
  }

  /** What the connections before the `n`-th put out, each on its own. */
  ghost function OutsAlone(env: Env, groups: seq<seq<Frame>>, n: nat): seq<Out>
    requires n <= |groups|
  {
    if n == 0 then [] else OutsAlone(env, groups, n - 1) + ReplayOf(env, groups[n - 1]).outs
  }

  ghost predicate AllClose(env: Env, groups: seq<seq<Frame>>, n: nat)
    requires n <= |groups| && Grouped(groups)
  {
    forall i :: 0 <= i < n ==> !OpensLast(env, groups[i])
  }

  lemma {:induction false} RaisedFold(env: Env, w: Walk, frames: seq<Frame>, n: nat)
    requires w.raised && n <= |frames|
    ensures FoldTo(Turner(env), w, frames, n) == w
  {
    if n > 0 { RaisedFold(env, w, frames, n - 1); }
  }

  lemma {:induction false} RaisesOnEntry(env: Env, w: Walk, frames: seq<Frame>)
    requires frames != [] && !w.raised && w.current.Some? && Leave(w).raised
    requires MachineKey(w.current.value) != frames[0].Key()
    ensures FoldTo(Turner(env), w, frames, |frames|).raised
  {
    var first, rest := [frames[0]], frames[1..];
    assert frames == first + rest;
    FoldToAppend(Turner(env), w, first, rest, |rest|);
    assert FoldTo(Turner(env), w, first, 0) == w;
    var w' := Turn(env, w, frames[0]);
    assert FoldTo(Turner(env), w, first, 1) == w';
    RaisedFold(env, w', rest, |rest|);
  }

  /** From the end of one connection to the end of the next. */
  lemma {:induction false} NextGroup(env: Env, w: Walk, last: seq<Frame>, g: seq<Frame>, outs: seq<Out>)
    requires OneConnection(last) && Timed(last) && OneConnection(g) && StatesOk(env)
    requires g[0].Key() != last[0].Key()
    requires w == Walk(Some(EndMachine(env, last)), outs + AllOut(env, last), false)
    ensures var w' := WalkFrom(env, w, g, |g|);
            && (w'.raised <==> OpensLast(env, last))
            && (!w'.raised ==>
                  w' == Walk(Some(EndMachine(env, g)), outs + ReplayOf(env, last).outs + AllOut(env, g), false))
  {
    LeaveAlone(env, last, outs);
    RunKeepsNames(env, Start(env, last), last, |last|);
    if Leave(w).raised {
      RaisesOnEntry(env, w, g);
    } else {
      GroupWalk(env, w, g, |g|);
    }
  }

  lemma {:induction false} WalkFromAppend(env: Env, w: Walk, a: seq<Frame>, b: seq<Frame>)
    ensures WalkFrom(env, w, a + b, |a| + |b|) == WalkFrom(env, WalkFrom(env, w, a, |a|), b, |b|)
  {
    FoldToSplit(Turner(env), w, a, b,
                WalkFrom(env, w, a + b, |a| + |b|), WalkFrom(env, WalkFrom(env, w, a, |a|), b, |b|));
  }

  lemma {:induction false} WalkSplit(env: Env, a: seq<Frame>, b: seq<Frame>, whole: seq<Frame>, n: nat)
    requires whole == a + b && n == |whole|
    ensures WalkTo(env, whole, n) == WalkFrom(env, WalkTo(env, a, |a|), b, |b|)
  {
    WalkFromAppend(env, Walk(None, [], false), a, b);
  }

  /** The walk has reached the end of connection `g`, or raised before it. */
  ghost predicate ReachedEnd(env: Env, w: Walk, closed: bool, g: seq<Frame>, outs: seq<Out>)
    requires g != []
  {
    && (w.raised <==> !closed)
    && (!w.raised ==> w == Walk(Some(EndMachine(env, g)), outs + AllOut(env, g), false))
  }

  lemma {:induction false} FirstGroup(env: Env, g: seq<Frame>)
    requires OneConnection(g)
    ensures ReachedEnd(env, WalkFrom(env, Walk(None, [], false), g, |g|), true, g, [])
  {
    GroupWalk(env, Walk(None, [], false), g, |g|);
  }

  lemma {:induction false} OneMoreGroup(env: Env, w: Walk, closed: bool, last: seq<Frame>, g: seq<Frame>,
                                        outs: seq<Out>)
    requires OneConnection(last) && Timed(last) && OneConnection(g) && StatesOk(env)
    requires g[0].Key() != last[0].Key() && ReachedEnd(env, w, closed, last, outs)
    ensures ReachedEnd(env, WalkFrom(env, w, g, |g|), closed && !OpensLast(env, last), g,
                       outs + ReplayOf(env, last).outs)
  {
    if w.raised {
      RaisedFold(env, w, g, |g|);
    } else {
      NextGroup(env, w, last, g, outs);
    }
  }

  lemma {:induction false} CloseNext(env: Env, groups: seq<seq<Frame>>, n: nat)
    requires Grouped(groups) && 0 < n <= |groups|
    ensures AllClose(env, groups, n) <==> AllClose(env, groups, n - 1) && !OpensLast(env, groups[n - 1])
  {}

  lemma {:induction false} WalkGroups(env: Env, groups: seq<seq<Frame>>, n: nat)
    requires Grouped(groups) && StatesOk(env) && 0 < n <= |groups|
    ensures var rows := Flatten(groups, n);
            ReachedEnd(env, WalkTo(env, rows, |rows|), AllClose(env, groups, n - 1), groups[n - 1],
                       OutsAlone(env, groups, n - 1))
  {
    var before, g := Flatten(groups, n - 1), groups[n - 1];
    WalkSplit(env, before, g, Flatten(groups, n), |Flatten(groups, n)|);
    if n == 1 {
      FirstGroup(env, g);
    } else {
      WalkGroups(env, groups, n - 1);
      CloseNext(env, groups, n - 1);
      OneMoreGroup(env, WalkTo(env, before, |before|), AllClose(env, groups, n - 2), groups[n - 2], g,
                   OutsAlone(env, groups, n - 2));
    }
  }

  lemma {:induction false} FinishAlone(env: Env, frames: seq<Frame>, outs: seq<Out>)
    requires OneConnection(frames) && Timed(frames) && StatesOk(env)
    ensures var w := Finish(Walk(Some(EndMachine(env, frames)), outs + AllOut(env, frames), false));
            !w.raised && w.outs == outs + ReplayOf(env, frames).outs
  {
    var m := EndMachine(env, frames);
    ReplayIsRun(env, frames);
    StartSound(env, frames, |frames|);
    if m.st.live {
      LiveMeansStamped(env, frames);
      TickEnd(m);
    }
    assert outs + AllOut(env, frames) + [] == outs + AllOut(env, frames);
    Associate(outs, AllOut(env, frames), Carried(m));
  }

  lemma {:induction false} FinishRaised(env: Env, rows: seq<Frame>)
    ensures WalkTo(env, rows, |rows|).raised ==> ReplayOf(env, rows).raised
    ensures ReplayOf(env, rows) == Finish(WalkTo(env, rows, |rows|))
  {}

  /**
   A partition is the concatenation of its connections' own replays, exactly unless a connection other than the
   last opens on its last frame, in which case the walk raises.
   */
  lemma {:induction false} PartitionFactorises(env: Env, groups: seq<seq<Frame>>)
    requires Grouped(groups) && StatesOk(env) && groups != []
    ensures var n := |groups|;
            var w := ReplayOf(env, Flatten(groups, n));
            && (w.raised <==> !AllClose(env, groups, n - 1))
            && (!w.raised ==> w.outs == OutsAlone(env, groups, n))
  {
    GroupsFinish(env, groups, |groups|, Flatten(groups, |groups|));
  }

  lemma {:induction false} GroupsFinish(env: Env, groups: seq<seq<Frame>>, n: nat, rows: seq<Frame>)
    requires Grouped(groups) && StatesOk(env) && 0 < n <= |groups| && rows == Flatten(groups, n)
    ensures ReplayOf(env, rows).raised <==> !AllClose(env, groups, n - 1)
    ensures AllClose(env, groups, n - 1) ==> ReplayOf(env, rows).outs == OutsAlone(env, groups, n)
  {
    WalkGroups(env, groups, n);
    FinishGroup(env, rows, AllClose(env, groups, n - 1), groups[n - 1], OutsAlone(env, groups, n - 1));
  }

  lemma {:induction false} FinishGroup(env: Env, rows: seq<Frame>, closed: bool, g: seq<Frame>, outs: seq<Out>)
    requires OneConnection(g) && Timed(g) && StatesOk(env)
    requires ReachedEnd(env, WalkTo(env, rows, |rows|), closed, g, outs)
    ensures ReplayOf(env, rows).raised <==> !closed
    ensures closed ==> ReplayOf(env, rows).outs == outs + ReplayOf(env, g).outs
  {
    FinishRaised(env, rows);
    if closed { FinishAlone(env, g, outs); }
  }

  /** Two connections of one snapshot each: leaving the first raises, and the run's output is lost with it. */
  lemma {:induction false} RaisingPartition(crc: string -> int)
    ensures var env := Env(map[], map[], crc);
            var first := Frame("BTC/USD", "BTC/USD", "c1", NS, 0, "raw", Lineage(0, 0, 0), KrakenBody(true, [], [], 0));
            ReplayOf(env, [first, first.(connId := "c2")]).raised
  {
    var env := Env(map[], map[], crc);
    var first := Frame("BTC/USD", "BTC/USD", "c1", NS, 0, "raw", Lineage(0, 0, 0), KrakenBody(true, [], [], 0));
    var groups := [[first], [first.(connId := "c2")]];
    PartitionFactorises(env, groups);
    assert Flatten(groups, 1) == Flatten(groups, 0) + [first] == [first];
    assert Flatten(groups, 2) == [first, first.(connId := "c2")];
    assert OpensLast(env, groups[0]);
  }
}
