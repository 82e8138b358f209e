/** Splitting a connection into ticks changes nothing, and connections do not see each other. */
module Ticks {
  import opened Prelude
  import opened Ladders
  import opened LakeBook
  import opened Replay
  import opened Connection

  /** Frames of one connection: the venue's topic and the registry's symbol do not change under it. */
  ghost predicate OneConnection(frames: seq<Frame>) {
    && frames != []
    && forall i :: 0 <= i < |frames| ==>
         && frames[i].Key() == frames[0].Key()
         && frames[i].canonical == frames[0].canonical && frames[i].topic == frames[0].topic
  }

  ghost predicate StatesOk(env: Env) {
    forall k :: k in env.states ==> CarriedOk(env.states[k]) && k == (env.states[k].symbol, env.states[k].connId)
  }

  ghost function Start(env: Env, frames: seq<Frame>): Machine
    requires frames != []
  {
    Begin(env, frames[0])
  }

  ghost function EndMachine(env: Env, frames: seq<Frame>): Machine
    requires frames != []
  {
    RunTo(env, Start(env, frames), frames, |frames|)
  }

  ghost function AllOut(env: Env, frames: seq<Frame>): seq<Out>
    requires frames != []
  {
    RunOut(env, Start(env, frames), frames, |frames|)
  }

  // ---- one connection is one run ----

  lemma {:induction false} TurnIsStep(env: Env, w: Walk, f: Frame, m: Machine, outs: seq<Out>)
    requires (w == Walk(Some(m), outs, false) && MachineKey(m) == f.Key())
          || (w == Walk(None, [], false) && m == Begin(env, f) && outs == [])
    ensures Turn(env, w, f) == Walk(Some(Step(env, m, f)), outs + StepOut(env, m, f), false)
  {}

  lemma {:induction false} Associate<T>(a: seq<T>, b: seq<T>, c: seq<T>)
    ensures a + b + c == a + (b + c)
  {}

  ghost function WalkFrom(env: Env, w: Walk, frames: seq<Frame>, n: nat): Walk
    requires n <= |frames|
  {
    FoldTo(Turner(env), w, frames, n)
  }

  lemma {:induction false} WalkFromStep(env: Env, w: Walk, frames: seq<Frame>, n: nat)
    requires n < |frames|
    ensures WalkFrom(env, w, frames, 0) == w
    ensures WalkFrom(env, w, frames, n + 1) == Turn(env, WalkFrom(env, w, frames, n), frames[n])
  {}

  lemma {:induction false} RunStep(env: Env, m: Machine, frames: seq<Frame>, n: nat, outs: seq<Out>)
    requires n < |frames|
    ensures RunTo(env, m, frames, 0) == m && RunOut(env, m, frames, 0) == []
    ensures RunTo(env, m, frames, n + 1) == Step(env, RunTo(env, m, frames, n), frames[n])
    ensures outs + RunOut(env, m, frames, n + 1) ==
            outs + RunOut(env, m, frames, n) + StepOut(env, RunTo(env, m, frames, n), frames[n])
  {
    Associate(outs, RunOut(env, m, frames, n), StepOut(env, RunTo(env, m, frames, n), frames[n]));
  }

  /** The walk from a connection's first frame on, whatever was walked before it. */
  lemma {:induction false} GroupWalk(env: Env, w: Walk, frames: seq<Frame>, n: nat)
    requires OneConnection(frames) && 0 < n <= |frames| && !w.raised && !Leave(w).raised
    requires w.current.None? || MachineKey(w.current.value) != frames[0].Key()
    ensures var m := Start(env, frames);
            WalkFrom(env, w, frames, n) ==
            Walk(Some(RunTo(env, m, frames, n)), Leave(w).outs + RunOut(env, m, frames, n), false)
  {
    var m, outs := Start(env, frames), Leave(w).outs;
    WalkFromStep(env, w, frames, n - 1);
    RunStep(env, m, frames, n - 1, outs);
    if n == 1 {
      EnterFresh(env, w, frames[0]);
      assert outs + [] == outs;
    } else {
      GroupWalk(env, w, frames, n - 1);
      RunKeepsNames(env, m, frames, n - 1);
      assert frames[n - 1].Key() == frames[0].Key();
      TurnIsStep(env, WalkFrom(env, w, frames, n - 1), frames[n - 1], RunTo(env, m, frames, n - 1),
                 outs + RunOut(env, m, frames, n - 1));
    }
  }

  lemma {:induction false} EnterFresh(env: Env, w: Walk, f: Frame)
    requires !w.raised && !Leave(w).raised && (w.current.None? || MachineKey(w.current.value) != f.Key())
    ensures Turn(env, w, f) ==
            Walk(Some(Step(env, Begin(env, f), f)), Leave(w).outs + StepOut(env, Begin(env, f), f), false)
  {}

  /** Walked first, a connection is its run. */
  lemma {:induction false} WalkIsRun(env: Env, frames: seq<Frame>, n: nat)
    requires OneConnection(frames) && 0 < n <= |frames|
    ensures var m := Start(env, frames);
            WalkTo(env, frames, n) == Walk(Some(RunTo(env, m, frames, n)), RunOut(env, m, frames, n), false)
  {
    GroupWalk(env, Walk(None, [], false), frames, n);
    assert [] + RunOut(env, Start(env, frames), frames, n) == RunOut(env, Start(env, frames), frames, n);
  }

  lemma {:induction false} StartSound(env: Env, frames: seq<Frame>, n: nat)
    requires frames != [] && StatesOk(env) && Timed(frames) && n <= |frames|
    ensures Sound(Start(env, frames)) && Sound(RunTo(env, Start(env, frames), frames, n))
  {
    BeginSound(env, frames[0]);
    RunSound(env, Start(env, frames), frames, n);
  }

  lemma {:induction false} LiveMeansStamped(env: Env, frames: seq<Frame>)
    requires frames != [] && StatesOk(env) && Timed(frames) && EndMachine(env, frames).st.live
    ensures EndMachine(env, frames).st.stamp.recvNs >= NS
  {
    var n := |frames|;
    StartSound(env, frames, n - 1);
    StepSound(env, RunTo(env, Start(env, frames), frames, n - 1), frames[n - 1]);
  }

  ghost function Carried(m: Machine): seq<Out> {
    if !m.st.live || CarryRow(EndOf(m)).None? then [] else [Carry(CarryRow(EndOf(m)).value)]
  }

  /** A partition of one connection never raises, and ends with one carry-over row if the connection is live. */
  lemma {:induction false} ReplayIsRun(env: Env, frames: seq<Frame>)
    requires OneConnection(frames) && StatesOk(env) && Timed(frames)
    ensures var w := ReplayOf(env, frames);
            && !w.raised && w.outs == AllOut(env, frames) + Carried(EndMachine(env, frames))
  {
    WalkIsRun(env, frames, |frames|);
    StartSound(env, frames, |frames|);
    var m := EndMachine(env, frames);
    if m.st.live {
      LiveMeansStamped(env, frames);
      TickEnd(m);
      assert AllOut(env, frames) + FlushRows(m, m.st.stamp.recvNs) == AllOut(env, frames);
    }
  }

  // ---- what a tick publishes, and what it stores ----

  predicate IsRow(o: Out) {
    !o.Carry?
  }

  function RowOnly(o: Out): Option<Out> {
    if o.Carry? then None else Some(o)
  }

  /** Book rows and verdicts, in order. */
  function Rows(outs: seq<Out>): seq<Out> {
    Collect(RowOnly, outs, |outs|)
  }

  function MergeOne(states: map<Key, StateRow>, o: Out): map<Key, StateRow> {
    if o.Carry? then states[(o.state.symbol, o.state.connId) := o.state] else states
  }

  /** `MERGE INTO gold.book_state`. */
  ghost function Merged(states: map<Key, StateRow>, outs: seq<Out>): map<Key, StateRow> {
    FoldTo(MergeOne, states, outs, |outs|)
  }

  lemma {:induction false} RowsStay(outs: seq<Out>, n: nat)
    requires n <= |outs| && forall i :: 0 <= i < |outs| ==> IsRow(outs[i])
    ensures Collect(RowOnly, outs, n) == outs[..n]
  {
    if n > 0 {
      RowsStay(outs, n - 1);
      assert outs[..n] == outs[..n - 1] + [outs[n - 1]];
    }
  }

  lemma {:induction false} RowsMergeNothing(states: map<Key, StateRow>, outs: seq<Out>, n: nat)
    requires n <= |outs| && forall i :: 0 <= i < |outs| ==> IsRow(outs[i])
    ensures FoldTo(MergeOne, states, outs, n) == states
  {
    if n > 0 { RowsMergeNothing(states, outs, n - 1); }
  }

  lemma {:induction false} FlushesAreRows(m: Machine, sec: int, boundary: int)
    ensures forall i :: 0 <= i < |RowsFrom(m, sec, boundary)| ==> IsRow(RowsFrom(m, sec, boundary)[i])
    decreases boundary - sec
  {
    if sec < boundary { FlushesAreRows(m, sec + NS, boundary); }
  }

  lemma {:induction false} StepsAreRows(env: Env, m: Machine, f: Frame)
    ensures forall i :: 0 <= i < |StepOut(env, m, f)| ==> IsRow(StepOut(env, m, f)[i])
  {
    FlushesAreRows(m, NextSecond(m.st), FloorSecond(f.recvNs));
  }

  lemma {:induction false} AllRows(step: (Machine, Frame) -> Machine, out: (Machine, Frame) -> seq<Out>, m: Machine,
                                   frames: seq<Frame>, n: nat)
    requires n <= |frames| && forall m', f :: forall o :: o in out(m', f) ==> IsRow(o)
    ensures forall o :: o in FoldOut(step, out, m, frames, n) ==> IsRow(o)
  {
    if n > 0 { AllRows(step, out, m, frames, n - 1); }
  }

  lemma {:induction false} RunsAreRows(env: Env, m: Machine, frames: seq<Frame>, n: nat)
    requires n <= |frames|
    ensures forall i :: 0 <= i < |RunOut(env, m, frames, n)| ==> IsRow(RunOut(env, m, frames, n)[i])
  {
    forall m', f ensures forall o :: o in StepOut(env, m', f) ==> IsRow(o) {
      StepsAreRows(env, m', f);
    }
    AllRows((m, f) => Step(env, m, f), (m, f) => StepOut(env, m, f), m, frames, n);
  }

  lemma {:induction false} MergeCarried(states: map<Key, StateRow>, m: Machine)
    ensures Merged(states, Carried(m)) ==
            if Carried(m) == [] then states
            else states[(m.st.stamp.symbol, m.st.stamp.connId) := CarryRow(EndOf(m)).value]
  {
    if Carried(m) != [] {
      var outs := Carried(m);
      assert FoldTo(MergeOne, states, outs, 0) == states;
      assert FoldTo(MergeOne, states, outs, 1) == MergeOne(states, outs[0]);
    }
  }

  lemma {:induction false} PublishedRows(rows: seq<Out>, m: Machine)
    requires forall i :: 0 <= i < |rows| ==> IsRow(rows[i])
    ensures Rows(rows + Carried(m)) == rows
  {
    var last := Carried(m);
    RowsStay(rows, |rows|);
    CollectConcat(RowOnly, rows, last, |last|);
    assert rows[..|rows|] == rows;
    assert Collect(RowOnly, last, |last|) == [] by {
      if last != [] { assert Collect(RowOnly, last, 0) == []; }
    }
  }

  lemma {:induction false} StoredStates(states: map<Key, StateRow>, rows: seq<Out>, m: Machine)
    requires forall i :: 0 <= i < |rows| ==> IsRow(rows[i])
    ensures Merged(states, rows + Carried(m)) == Merged(states, Carried(m))
  {
    RowsMergeNothing(states, rows, |rows|);
    FoldToAppend(MergeOne, states, rows, Carried(m), |Carried(m)|);
  }

  /** The states after a tick that ended with `m`. */
  ghost function StatesWith(states: map<Key, StateRow>, m: Machine): map<Key, StateRow> {
    if m.st.live && CarryRow(EndOf(m)).Some? then states[MachineKey(m) := CarryRow(EndOf(m)).value] else states
  }

  /** What one tick over one connection publishes and stores. */
  lemma {:induction false} TickEffect(env: Env, frames: seq<Frame>)
    requires OneConnection(frames) && StatesOk(env) && Timed(frames)
    ensures var w := ReplayOf(env, frames);
            && !w.raised && Rows(w.outs) == AllOut(env, frames)
            && Merged(env.states, w.outs) == StatesWith(env.states, EndMachine(env, frames))
  {
    ReplayIsRun(env, frames);
    var m, rows := EndMachine(env, frames), AllOut(env, frames);
    RunsAreRows(env, Start(env, frames), frames, |frames|);
    PublishedRows(rows, m);
    StoredStates(env.states, rows, m);
    MergeCarried(env.states, m);
  }

  // ---- splitting a tick ----

  ghost function NextEnv(env: Env, w: Walk): Env {
    env.(states := Merged(env.states, w.outs))
  }

  /** A connection that has not begun is as it was before it was looked at. */
  lemma {:induction false} DormantUnchanged(env: Env, m: Machine, frames: seq<Frame>, n: nat)
    requires Sound(m) && Timed(frames) && n <= |frames| && !RunTo(env, m, frames, n).st.live
    ensures RunTo(env, m, frames, n) == m
  {
    if n > 0 {
      RunSound(env, m, frames, n - 1);
      StepSound(env, RunTo(env, m, frames, n - 1), frames[n - 1]);
      DormantUnchanged(env, m, frames, n - 1);
    }
  }

  lemma {:induction false} SplitNames(a: seq<Frame>, b: seq<Frame>)
    requires OneConnection(a + b) && a != [] && b != []
    ensures OneConnection(a) && OneConnection(b) && (a + b)[0] == a[0]
    ensures b[0].Key() == a[0].Key() && b[0].canonical == a[0].canonical && b[0].topic == a[0].topic
    ensures Timed(a + b) ==> Timed(a) && Timed(b)
  {
    var all := a + b;
    assert forall i :: 0 <= i < |a| ==> all[i] == a[i];
    assert forall i :: 0 <= i < |b| ==> all[|a| + i] == b[i];
  }

  lemma {:induction false} LiveIsCarried(env: Env, frames: seq<Frame>)
    requires OneConnection(frames) && StatesOk(env) && Timed(frames) && EndMachine(env, frames).st.live
    ensures var m := EndMachine(env, frames);
            && Sound(m) && m.st.stamp.recvNs >= NS && MachineKey(m) == frames[0].Key()
            && CarryRow(EndOf(m)).Some? && CarriedOk(CarryRow(EndOf(m)).value)
  {
    StartSound(env, frames, |frames|);
    LiveMeansStamped(env, frames);
    TickEnd(EndMachine(env, frames));
    RunKeepsNames(env, Start(env, frames), frames, |frames|);
  }

  /** The second tick starts where the first one stopped. */
  lemma {:induction false} SecondStart(env: Env, a: seq<Frame>, b: seq<Frame>)
    requires a != [] && b != [] && OneConnection(a + b) && Timed(a + b) && StatesOk(env)
    requires Fits(EndMachine(env, a).book)
    ensures var env' := env.(states := StatesWith(env.states, EndMachine(env, a)));
            && StatesOk(env') && SameJudge(env, env')
            && Alike(Start(env', b), EndMachine(env, a)) && Sound(Start(env', b)) && Sound(EndMachine(env, a))
  {
    SplitNames(a, b);
    StartSound(env, a, |a|);
    RunKeepsNames(env, Start(env, a), a, |a|);
    var m := EndMachine(env, a);
    var env' := env.(states := StatesWith(env.states, m));
    if m.st.live {
      LiveIsCarried(env, a);
      ResumeIsAlike(env', m, b[0]);
    } else {
      DormantUnchanged(env, Start(env, a), a, |a|);
    }
  }

  lemma {:induction false} StaysLive(env: Env, m: Machine, frames: seq<Frame>, n: nat)
    requires Sound(m) && Timed(frames) && n <= |frames| && m.st.live
    ensures RunTo(env, m, frames, n).st.live
  {
    if n > 0 {
      StaysLive(env, m, frames, n - 1);
      RunSound(env, m, frames, n - 1);
      StepSound(env, RunTo(env, m, frames, n - 1), frames[n - 1]);
    }
  }

  lemma {:induction false} WholeIsBoth(env: Env, a: seq<Frame>, b: seq<Frame>)
    requires a != []
    ensures EndMachine(env, a + b) == RunTo(env, EndMachine(env, a), b, |b|)
    ensures AllOut(env, a + b) == AllOut(env, a) + RunOut(env, EndMachine(env, a), b, |b|)
  {
    assert (a + b)[0] == a[0];
    RunAppend(env, Start(env, a), a, b, |b|);
  }

  /** The machines at the end of the split and of the whole are alike, and so are their rows. */
  lemma {:induction false} SplitRuns(env: Env, env': Env, a: seq<Frame>, b: seq<Frame>)
    requires a != [] && b != [] && Timed(b) && SameJudge(env, env')
    requires Alike(Start(env', b), EndMachine(env, a)) && Sound(Start(env', b)) && Sound(EndMachine(env, a))
    ensures AllOut(env, a + b) == AllOut(env, a) + AllOut(env', b)
    ensures Alike(EndMachine(env, a + b), EndMachine(env', b))
  {
    WholeIsBoth(env, a, b);
    AlikeRun(env, env', EndMachine(env, a), Start(env', b), b, |b|);
  }

  lemma {:induction false} WholeStaysLive(env: Env, a: seq<Frame>, b: seq<Frame>)
    requires a != [] && Timed(b) && Sound(EndMachine(env, a)) && EndMachine(env, a).st.live
    ensures EndMachine(env, a + b).st.live
  {
    WholeIsBoth(env, a, b);
    StaysLive(env, EndMachine(env, a), b, |b|);
  }

  /** A live connection leaves the same row under the same key, split or whole. */
  lemma {:induction false} SplitCarries(env: Env, env': Env, a: seq<Frame>, b: seq<Frame>)
    requires a != [] && b != [] && OneConnection(a + b) && Timed(a + b) && StatesOk(env) && StatesOk(env')
    requires Alike(EndMachine(env, a + b), EndMachine(env', b)) && EndMachine(env, a + b).st.live
    ensures var m, m' := EndMachine(env, a + b), EndMachine(env', b);
            && CarryRow(EndOf(m)) == CarryRow(EndOf(m')) && CarryRow(EndOf(m)).Some?
            && MachineKey(m) == MachineKey(m') == a[0].Key()
  {
    SplitNames(a, b);
    LiveIsCarried(env, a + b);
    LiveIsCarried(env', b);
    AlikeCarry(EndMachine(env, a + b), EndMachine(env', b));
  }

  /** The same key written twice holds what was written last. */
  lemma {:induction false} StatesOverwrite(states: map<Key, StateRow>, first: Machine, whole: Machine, second: Machine)
    requires whole.st.live && second.st.live && MachineKey(whole) == MachineKey(second)
    requires first.st.live ==> MachineKey(first) == MachineKey(whole)
    requires CarryRow(EndOf(whole)) == CarryRow(EndOf(second)) && CarryRow(EndOf(whole)).Some?
    ensures StatesWith(StatesWith(states, first), second) == StatesWith(states, whole)
  {}

  lemma {:induction false} SplitStates(env: Env, env': Env, a: seq<Frame>, b: seq<Frame>)
    requires a != [] && b != [] && OneConnection(a + b) && Timed(a + b) && StatesOk(env) && StatesOk(env')
    requires env' == env.(states := StatesWith(env.states, EndMachine(env, a)))
    requires Alike(EndMachine(env, a + b), EndMachine(env', b)) && Sound(EndMachine(env, a))
    ensures StatesWith(env'.states, EndMachine(env', b)) == StatesWith(env.states, EndMachine(env, a + b))
  {
    SplitNames(a, b);
    var m := EndMachine(env, a + b);
    if m.st.live {
      SplitCarries(env, env', a, b);
      if EndMachine(env, a).st.live { LiveIsCarried(env, a); }
      StatesOverwrite(env.states, EndMachine(env, a), m, EndMachine(env', b));
    } else if EndMachine(env, a).st.live {
      WholeStaysLive(env, a, b);
    }
  }

  /**
   Tick-split equivalence: two ticks with the state carried through the table publish the rows and verdicts of one
   tick over all the frames, and store the same state.
   */
  lemma {:induction false} TickSplit(env: Env, a: seq<Frame>, b: seq<Frame>)
    requires a != [] && b != [] && OneConnection(a + b) && Timed(a + b) && StatesOk(env)
    requires Fits(EndMachine(env, a).book)
    ensures var wa := ReplayOf(env, a);
            var env' := NextEnv(env, wa);
            var wb, w := ReplayOf(env', b), ReplayOf(env, a + b);
            && !wa.raised && !wb.raised && !w.raised
            && Rows(wa.outs) + Rows(wb.outs) == Rows(w.outs)
            && Merged(env'.states, wb.outs) == Merged(env.states, w.outs)
            && StatesOk(env')
  {
    SplitNames(a, b);
    SecondStart(env, a, b);
    var env' := env.(states := StatesWith(env.states, EndMachine(env, a)));
    TickEffect(env, a);
    TickEffect(env', b);
    TickEffect(env, a + b);
    SplitRuns(env, env', a, b);
    SplitStates(env, env', a, b);
  }

  // ---- any number of ticks ----

  /** Rows published and states stored by the first `n` ticks, each reading what the one before it stored. */
  ghost function RunTicks(env: Env, ticks: seq<seq<Frame>>, n: nat): (seq<Out>, map<Key, StateRow>)
    requires n <= |ticks|
  {
    if n == 0 then ([], env.states) else Ticked(env, RunTicks(env, ticks, n - 1), ticks[n - 1])
  }

  /** One more tick after what was published and stored so far. */
  ghost function Ticked(env: Env, sofar: (seq<Out>, map<Key, StateRow>),
                        tick: seq<Frame>): (seq<Out>, map<Key, StateRow>) {
    var w := ReplayOf(env.(states := sofar.1), tick);
    (sofar.0 + Rows(w.outs), Merged(sofar.1, w.outs))
  }

  lemma {:induction false} FlattenGrows<A>(pieces: seq<seq<A>>, n: nat, m: nat)
    requires n <= m <= |pieces|
    ensures Flatten(pieces, n) <= Flatten(pieces, m)
    ensures n < m && pieces[n] != [] ==> Flatten(pieces, m) != []
  {
    if n < m { FlattenGrows(pieces, n, m - 1); }
  }

  lemma {:induction false} PrefixOfConnection(a: seq<Frame>, whole: seq<Frame>)
    requires a <= whole && a != [] && OneConnection(whole) && Timed(whole)
    ensures OneConnection(a) && Timed(a) && a[0] == whole[0]
  {
    assert forall i :: 0 <= i < |a| ==> a[i] == whole[i];
  }

  lemma {:induction false} OneTick(env: Env, ticks: seq<seq<Frame>>)
    requires |ticks| > 0
    ensures Flatten(ticks, 1) == ticks[0]
    ensures var w := ReplayOf(env, ticks[0]); RunTicks(env, ticks, 1) == (Rows(w.outs), Merged(env.states, w.outs))
  {
    assert Flatten(ticks, 0) == [];
    assert RunTicks(env, ticks, 0) == ([], env.states);
    assert env.(states := env.states) == env;
    var w := ReplayOf(env, ticks[0]);
    assert [] + Rows(w.outs) == Rows(w.outs);
  }

  lemma {:induction false} MoreTicks(env: Env, ticks: seq<seq<Frame>>, n: nat, before: seq<Frame>)
    requires 0 < n <= |ticks|
    requires var w := ReplayOf(env, before); RunTicks(env, ticks, n - 1) == (Rows(w.outs), Merged(env.states, w.outs))
    ensures var w := ReplayOf(env, before);
            var w' := ReplayOf(NextEnv(env, w), ticks[n - 1]);
            RunTicks(env, ticks, n) == (Rows(w.outs) + Rows(w'.outs), Merged(Merged(env.states, w.outs), w'.outs))
  {}

  /** However a connection's frames are cut into ticks, the ticks together do what one replay would. */
  lemma {:induction false} TicksAreOne(env: Env, ticks: seq<seq<Frame>>, n: nat)
    requires 0 < n <= |ticks| && StatesOk(env) && forall i :: 0 <= i < n ==> ticks[i] != []
    requires OneConnection(Flatten(ticks, n)) && Timed(Flatten(ticks, n))
    requires forall k :: 0 < k < n && Flatten(ticks, k) != [] ==> Fits(EndMachine(env, Flatten(ticks, k)).book)
    ensures var w := ReplayOf(env, Flatten(ticks, n));
            RunTicks(env, ticks, n) == (Rows(w.outs), Merged(env.states, w.outs)) && !w.raised
  {
    var whole := Flatten(ticks, n);
    if n == 1 {
      OneTick(env, ticks);
      TickEffect(env, whole);
    } else {
      var before := Flatten(ticks, n - 1);
      FlattenGrows(ticks, 0, n - 1);
      assert whole == before + ticks[n - 1];
      PrefixOfConnection(before, whole);
      TicksAreOne(env, ticks, n - 1);
      MoreTicks(env, ticks, n, before);
      TickSplit(env, before, ticks[n - 1]);
    }
  }

  // ---- the condition is free for a depth-limited venue ----

  ghost predicate Shallow(v: BookValue) {
    |v.bids| <= KRAKEN_DEPTH && |v.asks| <= KRAKEN_DEPTH
  }

  /** One Kraken frame leaves at most the subscription's depth on each side. */
  lemma {:induction false} KrakenShallow(env: Env, m: Machine, f: Frame)
    requires f.body.KrakenBody? && Shallow(m.book)
    ensures Shallow(Step(env, m, f).book)
  {
    var start := if f.body.snapshot then EMPTY else m.book;
    WindowSize(Bid, ApplyAll(start.bids, f.body.bids), KRAKEN_DEPTH);
    WindowSize(Ask, ApplyAll(start.asks, f.body.asks), KRAKEN_DEPTH);
  }

  lemma {:induction false} ShallowFits(v: BookValue)
    requires Shallow(v)
    ensures Fits(v)
  {}

  lemma {:induction false} KrakenStays(env: Env, step: (Machine, Frame) -> Machine, m: Machine, frames: seq<Frame>,
                                       n: nat)
    requires forall m', f :: step(m', f) == Step(env, m', f)
    requires n <= |frames| && Shallow(m.book) && forall i :: 0 <= i < |frames| ==> frames[i].body.KrakenBody?
    ensures Shallow(FoldTo(step, m, frames, n).book)
  {
    if n > 0 {
      KrakenStays(env, step, m, frames, n - 1);
      KrakenShallow(env, FoldTo(step, m, frames, n - 1), frames[n - 1]);
    }
  }

  /** A Kraken book never outgrows its carry-over row. */
  lemma {:induction false} KrakenFits(env: Env, m: Machine, frames: seq<Frame>, n: nat)
    requires n <= |frames| && Shallow(m.book) && forall i :: 0 <= i < |frames| ==> frames[i].body.KrakenBody?
    ensures Shallow(RunTo(env, m, frames, n).book) && Fits(RunTo(env, m, frames, n).book)
  {
    KrakenStays(env, (m, f) => Step(env, m, f), m, frames, n);
    ShallowFits(RunTo(env, m, frames, n).book);
  }
}
