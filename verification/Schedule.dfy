/** Ticks over many connections at once: what each connection gets out of them is one replay of its own frames. */
module Schedule {
  import opened Prelude
  import opened Replay
  import opened Connection
  import opened Ticks
  import opened Partitions

  /** The frames of one tick, connection by connection as the sort leaves them. */
  type Tick = seq<seq<Frame>>

  ghost predicate TickOk(tick: Tick) {
    Grouped(tick) && forall i, j :: 0 <= i < j < |tick| ==> tick[i][0].Key() != tick[j][0].Key()
  }

  /** The tick's frames of one connection, among its first `n` groups. */
  ghost function FramesOf(tick: Tick, n: nat, k: Key): seq<Frame>
    requires n <= |tick| && forall i :: 0 <= i < |tick| ==> tick[i] != []
  {
    if n == 0 then [] else if tick[n - 1][0].Key() == k then tick[n - 1] else FramesOf(tick, n - 1, k)
  }

  ghost function TickRun(env: Env, tick: Tick): Walk {
    ReplayOf(env, Flatten(tick, |tick|))
  }

  /** What the `n`-th tick is given: the states its predecessors stored. */
  ghost function EnvAfter(env: Env, ticks: seq<Tick>, n: nat): Env
    requires n <= |ticks|
  {
    if n == 0 then env else
      var before := EnvAfter(env, ticks, n - 1);
      NextEnv(before, TickRun(before, ticks[n - 1]))
  }

  /** Well-formed ticks none of which raises. */
  ghost predicate Clean(env: Env, ticks: seq<Tick>, n: nat)
    requires n <= |ticks|
  {
    (forall i :: 0 <= i < n ==> ticks[i] != [] && TickOk(ticks[i])) && NoneRaises(env, ticks, n)
  }

  ghost predicate NoneRaises(env: Env, ticks: seq<Tick>, n: nat)
    requires n <= |ticks|
  {
    n == 0 || (NoneRaises(env, ticks, n - 1) && !TickRun(EnvAfter(env, ticks, n - 1), ticks[n - 1]).raised)
  }

  /** One connection's share of the ticks, without those it has no frames in. */
  ghost function Share(ticks: seq<Tick>, n: nat, k: Key): seq<seq<Frame>>
    requires n <= |ticks| && forall i :: 0 <= i < n ==> TickOk(ticks[i])
  {
    if n == 0 then [] else
      assert TickOk(ticks[n - 1]);
      var mine := FramesOf(ticks[n - 1], |ticks[n - 1]|, k);
      Share(ticks, n - 1, k) + (if mine == [] then [] else [mine])
  }

  /** What the ticks published for one connection. */
  ghost function SharedRows(env: Env, ticks: seq<Tick>, n: nat, k: Key): seq<Out>
    requires n <= |ticks| && forall i :: 0 <= i < n ==> TickOk(ticks[i])
  {
    if n == 0 then [] else
      assert TickOk(ticks[n - 1]);
      var mine := FramesOf(ticks[n - 1], |ticks[n - 1]|, k);
      SharedRows(env, ticks, n - 1, k) +
      (if mine == [] then [] else Rows(ReplayOf(EnvAfter(env, ticks, n - 1), mine).outs))
  }

  function Find(m: map<Key, StateRow>, k: Key): Option<StateRow> {
    if k in m then Some(m[k]) else None
  }

  // ---- a replay reads no state but its own ----

  lemma {:induction false} SameStep(env: Env, env': Env, m: Machine, f: Frame)
    requires SameJudge(env, env')
    ensures Step(env, m, f) == Step(env', m, f) && StepOut(env, m, f) == StepOut(env', m, f)
  {}

  lemma {:induction false} SameFold<S, A, O>(step: (S, A) -> S, step': (S, A) -> S, out: (S, A) -> seq<O>,
                                             out': (S, A) -> seq<O>, s: S, xs: seq<A>, n: nat)
    requires n <= |xs|
    requires forall t, i :: 0 <= i < |xs| ==> step(t, xs[i]) == step'(t, xs[i]) && out(t, xs[i]) == out'(t, xs[i])
    ensures FoldTo(step, s, xs, n) == FoldTo(step', s, xs, n)
    ensures FoldOut(step, out, s, xs, n) == FoldOut(step', out', s, xs, n)
  {
    if n > 0 { SameFold(step, step', out, out', s, xs, n - 1); }
  }

  lemma {:induction false} SameRun(env: Env, env': Env, m: Machine, frames: seq<Frame>)
    requires SameJudge(env, env')
    ensures RunTo(env, m, frames, |frames|) == RunTo(env', m, frames, |frames|)
    ensures RunOut(env, m, frames, |frames|) == RunOut(env', m, frames, |frames|)
  {
    forall t, i | 0 <= i < |frames|
      ensures Step(env, t, frames[i]) == Step(env', t, frames[i]) &&
              StepOut(env, t, frames[i]) == StepOut(env', t, frames[i])
    {
      SameStep(env, env', t, frames[i]);
    }
    SameFold((m, f) => Step(env, m, f), (m, f) => Step(env', m, f),
             (m, f) => StepOut(env, m, f), (m, f) => StepOut(env', m, f), m, frames, |frames|);
  }

  /** States that agree on the connection's own key are the same to it. */
  lemma {:induction false} LocalReplay(env: Env, env': Env, frames: seq<Frame>)
    requires SameJudge(env, env') && StatesOk(env) && StatesOk(env') && OneConnection(frames) && Timed(frames)
    requires Find(env.states, frames[0].Key()) == Find(env'.states, frames[0].Key())
    ensures EndMachine(env, frames) == EndMachine(env', frames)
    ensures ReplayOf(env, frames).outs == ReplayOf(env', frames).outs
  {
    assert Start(env, frames) == Start(env', frames);
    SameRun(env, env', Start(env, frames), frames);
    ReplayIsRun(env, frames);
    ReplayIsRun(env', frames);
  }

  // ---- what one tick stores for one connection ----

  /** Storing what one connection left writes its own key, if anything. */
  lemma {:induction false} StoreOne(states: map<Key, StateRow>, env: Env, g: seq<Frame>)
    requires OneConnection(g) && Timed(g) && StatesOk(env)
    ensures Merged(states, ReplayOf(env, g).outs) == StatesWith(states, EndMachine(env, g))
    ensures forall k :: k != g[0].Key() ==> Find(StatesWith(states, EndMachine(env, g)), k) == Find(states, k)
  {
    ReplayIsRun(env, g);
    RunsAreRows(env, Start(env, g), g, |g|);
    StoredStates(states, AllOut(env, g), EndMachine(env, g));
    MergeCarried(states, EndMachine(env, g));
    RunKeepsNames(env, Start(env, g), g, |g|);
  }

  lemma {:induction false} StoreTwo(states: map<Key, StateRow>, a: seq<Out>, b: seq<Out>)
    ensures Merged(states, a + b) == Merged(Merged(states, a), b)
  {
    FoldToAppend(MergeOne, states, a, b, |b|);
  }

  /** The key's entry after the first `n` groups. */
  ghost function Entry(env: Env, states: map<Key, StateRow>, tick: Tick, n: nat, k: Key): Option<StateRow>
    requires n <= |tick| && forall i :: 0 <= i < |tick| ==> tick[i] != []
  {
    var mine := FramesOf(tick, n, k);
    if mine == [] then Find(states, k) else Find(StatesWith(states, EndMachine(env, mine)), k)
  }

  lemma {:induction false} NotYet(tick: Tick, n: nat, k: Key, m: nat)
    requires TickOk(tick) && n <= m < |tick| && tick[m][0].Key() == k
    ensures FramesOf(tick, n, k) == []
    decreases n
  {
    if n > 0 { NotYet(tick, n - 1, k, m); }
  }

  lemma {:induction false} LastWrite(a: map<Key, StateRow>, b: map<Key, StateRow>, m: Machine, k: Key)
    requires Find(a, k) == Find(b, k)
    ensures Find(StatesWith(a, m), k) == Find(StatesWith(b, m), k)
  {}

  lemma {:induction false} NoGroups(env: Env, states: map<Key, StateRow>, tick: Tick, n: nat, k: Key)
    requires TickOk(tick) && n == 0
    ensures Find(Merged(states, OutsAlone(env, tick, n)), k) == Entry(env, states, tick, n, k)
  {}

  lemma {:induction false} NextStores(env: Env, states: map<Key, StateRow>, tick: Tick, n: nat, k: Key, prior: seq<Out>,
                                      outs: seq<Out>)
    requires TickOk(tick) && 0 < n <= |tick| && StatesOk(env) && outs == prior + ReplayOf(env, tick[n - 1]).outs
    requires Find(Merged(states, prior), k) == Entry(env, states, tick, n - 1, k)
    ensures Find(Merged(states, outs), k) == Entry(env, states, tick, n, k)
  {
    StoreTwo(states, prior, ReplayOf(env, tick[n - 1]).outs);
    if tick[n - 1][0].Key() == k { NotYet(tick, n - 1, k, n - 1); }
    GroupStores(env, states, Merged(states, prior), tick, n, k, Merged(states, outs));
  }

  lemma {:induction false} NextGroup(env: Env, states: map<Key, StateRow>, tick: Tick, n: nat, k: Key, before: nat)
    requires TickOk(tick) && n == before + 1 && n <= |tick| && StatesOk(env)
    requires Find(Merged(states, OutsAlone(env, tick, before)), k) == Entry(env, states, tick, before, k)
    ensures Find(Merged(states, OutsAlone(env, tick, n)), k) == Entry(env, states, tick, n, k)
  {
    NextStores(env, states, tick, n, k, OutsAlone(env, tick, before), OutsAlone(env, tick, n));
  }

  lemma {:induction false} GroupsStore(env: Env, states: map<Key, StateRow>, tick: Tick, n: nat, k: Key)
    requires TickOk(tick) && n <= |tick| && StatesOk(env)
    ensures Find(Merged(states, OutsAlone(env, tick, n)), k) == Entry(env, states, tick, n, k)
    decreases n, 1
  {
    if n == 0 {
      NoGroups(env, states, tick, n, k);
    } else {
      AfterSomeGroups(env, states, tick, n, k, n - 1);
    }
  }

  lemma {:induction false} AfterSomeGroups(env: Env, states: map<Key, StateRow>, tick: Tick, n: nat, k: Key,
                                           before: nat)
    requires TickOk(tick) && n == before + 1 && n <= |tick| && StatesOk(env)
    ensures Find(Merged(states, OutsAlone(env, tick, n)), k) == Entry(env, states, tick, n, k)
    decreases n, 0
  {
    GroupsStore(env, states, tick, before, k);
    NextGroup(env, states, tick, n, k, before);
  }

  lemma {:induction false} GroupStores(env: Env, states: map<Key, StateRow>, before: map<Key, StateRow>, tick: Tick,
                                       n: nat, k: Key, after: map<Key, StateRow>)
    requires TickOk(tick) && 0 < n <= |tick| && StatesOk(env)
    requires Find(before, k) == Entry(env, states, tick, n - 1, k) &&
             after == Merged(before, ReplayOf(env, tick[n - 1]).outs)
    requires tick[n - 1][0].Key() == k ==> FramesOf(tick, n - 1, k) == []
    ensures Find(after, k) == Entry(env, states, tick, n, k)
  {
    StoreOne(before, env, tick[n - 1]);
    if tick[n - 1][0].Key() == k { LastWrite(before, states, EndMachine(env, tick[n - 1]), k); }
  }

  /** A tick that does not raise publishes each connection's rows and stores each connection's state. */
  lemma {:induction false} TickStores(env: Env, tick: Tick, k: Key)
    requires tick != [] && TickOk(tick) && StatesOk(env) && !TickRun(env, tick).raised
    ensures TickRun(env, tick).outs == OutsAlone(env, tick, |tick|)
    ensures Find(NextEnv(env, TickRun(env, tick)).states, k) == Entry(env, env.states, tick, |tick|, k)
  {
    PartitionFactorises(env, tick);
    GroupsStore(env, env.states, tick, |tick|, k);
  }

  lemma {:induction false} FramesAreGroup(tick: Tick, n: nat, k: Key)
    requires TickOk(tick) && n <= |tick| && FramesOf(tick, n, k) != []
    ensures var mine := FramesOf(tick, n, k); OneConnection(mine) && Timed(mine) && mine[0].Key() == k
  {
    if tick[n - 1][0].Key() != k { FramesAreGroup(tick, n - 1, k); }
  }

  /** A carried row is well formed under its own key. */
  lemma {:induction false} CarriesOk(env: Env, states: map<Key, StateRow>, g: seq<Frame>, k: Key)
    requires OneConnection(g) && Timed(g) && StatesOk(env) && StatesOk(env.(states := states))
    ensures StatesOk(env.(states := StatesWith(states, EndMachine(env, g))))
  {
    var m := EndMachine(env, g);
    if m.st.live { LiveIsCarried(env, g); }
  }

  lemma {:induction false} TickKeepsOk(env: Env, tick: Tick)
    requires tick != [] && TickOk(tick) && StatesOk(env) && !TickRun(env, tick).raised
    ensures StatesOk(NextEnv(env, TickRun(env, tick)))
  {
    var next := NextEnv(env, TickRun(env, tick));
    forall k | k in next.states
      ensures CarriedOk(next.states[k]) && k == (next.states[k].symbol, next.states[k].connId)
    {
      TickStores(env, tick, k);
      assert Find(next.states, k) == Some(next.states[k]);
      var mine := FramesOf(tick, |tick|, k);
      if mine != [] {
        FramesAreGroup(tick, |tick|, k);
        CarriesOk(env, env.states, mine, k);
      }
    }
  }

  // ---- any number of ticks ----

  /** After `n` ticks, for connection `k`: the rows published and the state stored are those of its own ticks. */
  ghost predicate AsIfAlone(env: Env, ticks: seq<Tick>, n: nat, k: Key)
    requires n <= |ticks| && forall i :: 0 <= i < n ==> TickOk(ticks[i])
  {
    var share := Share(ticks, n, k);
    var e := EnvAfter(env, ticks, n);
    && SameJudge(env, e) && StatesOk(e) && StatesOk(env.(states := RunTicks(env, share, |share|).1))
    && SharedRows(env, ticks, n, k) == RunTicks(env, share, |share|).0
    && Find(e.states, k) == Find(RunTicks(env, share, |share|).1, k)
  }

  lemma {:induction false} RunTicksPrefix(env: Env, a: seq<seq<Frame>>, b: seq<seq<Frame>>, n: nat)
    requires n <= |a| && n <= |b| && forall i :: 0 <= i < n ==> a[i] == b[i]
    ensures RunTicks(env, a, n) == RunTicks(env, b, n)
  {
    if n > 0 { RunTicksPrefix(env, a, b, n - 1); }
  }

  /** One more tick of its own. */
  lemma {:induction false} RunOneMore(env: Env, share: seq<seq<Frame>>, mine: seq<Frame>)
    ensures var (rows, states) := RunTicks(env, share, |share|);
            var w := ReplayOf(env.(states := states), mine);
            RunTicks(env, share + [mine], |share| + 1) == (rows + Rows(w.outs), Merged(states, w.outs))
  {
    RunTicksPrefix(env, share, share + [mine], |share|);
  }

  /** The tick did for the connection what a tick of its own would have done. */
  lemma {:induction false} SameTick(e: Env, alone: Env, tick: Tick, k: Key, mine: seq<Frame>)
    requires tick != [] && TickOk(tick) && StatesOk(e) && StatesOk(alone) && SameJudge(alone, e)
    requires !TickRun(e, tick).raised && mine == FramesOf(tick, |tick|, k) && mine != []
    requires Find(e.states, k) == Find(alone.states, k)
    ensures ReplayOf(e, mine).outs == ReplayOf(alone, mine).outs
    ensures StatesOk(alone.(states := Merged(alone.states, ReplayOf(alone, mine).outs)))
    ensures Find(NextEnv(e, TickRun(e, tick)).states, k) == Find(Merged(alone.states, ReplayOf(alone, mine).outs), k)
  {
    FramesAreGroup(tick, |tick|, k);
    LocalReplay(e, alone, mine);
    TickStores(e, tick, k);
    StoreOne(alone.states, alone, mine);
    LastWrite(e.states, alone.states, EndMachine(e, mine), k);
    CarriesOk(alone, alone.states, mine, k);
  }

  lemma {:induction false} NoTicks(env: Env, ticks: seq<Tick>, n: nat, k: Key)
    requires n == 0 && StatesOk(env)
    ensures AsIfAlone(env, ticks, n, k)
  {
    assert Share(ticks, 0, k) == [];
    assert RunTicks(env, [], 0) == ([], env.states);
    assert env.(states := env.states) == env;
  }

  /** One more tick, whether or not the connection has frames in it. */
  lemma {:induction false} NextTick(env: Env, ticks: seq<Tick>, n: nat, k: Key)
    requires 0 < n <= |ticks| && Clean(env, ticks, n) && AsIfAlone(env, ticks, n - 1, k)
    ensures AsIfAlone(env, ticks, n, k)
  {
    var e, tick, share := EnvAfter(env, ticks, n - 1), ticks[n - 1], Share(ticks, n - 1, k);
    var alone := env.(states := RunTicks(env, share, |share|).1);
    var mine := FramesOf(tick, |tick|, k);
    TickKeepsOk(e, tick);
    if mine == [] {
      TickStores(e, tick, k);
      assert share + [] == share;
      assert SharedRows(env, ticks, n - 1, k) + [] == SharedRows(env, ticks, n - 1, k);
    } else {
      SameTick(e, alone, tick, k, mine);
      RunOneMore(env, share, mine);
      assert alone.(states := Merged(alone.states, ReplayOf(alone, mine).outs))
             == env.(states := Merged(alone.states, ReplayOf(alone, mine).outs));
    }
  }

  lemma {:induction false} TicksAsIfAlone(env: Env, ticks: seq<Tick>, n: nat, k: Key)
    requires n <= |ticks| && Clean(env, ticks, n) && StatesOk(env)
    ensures AsIfAlone(env, ticks, n, k)
    decreases n, 1
  {
    if n == 0 {
      NoTicks(env, ticks, n, k);
    } else {
      AfterSomeTicks(env, ticks, n, k);
    }
  }

  lemma {:induction false} AfterSomeTicks(env: Env, ticks: seq<Tick>, n: nat, k: Key)
    requires 0 < n <= |ticks| && Clean(env, ticks, n) && StatesOk(env)
    ensures AsIfAlone(env, ticks, n, k)
    decreases n, 0
  {
    TicksAsIfAlone(env, ticks, n - 1, k);
    NextTick(env, ticks, n, k);
  }

  lemma {:induction false} ShareIsFull(ticks: seq<Tick>, n: nat, k: Key)
    requires n <= |ticks| && forall i :: 0 <= i < n ==> TickOk(ticks[i])
    ensures forall i :: 0 <= i < |Share(ticks, n, k)| ==> Share(ticks, n, k)[i] != []
  {
    if n > 0 { ShareIsFull(ticks, n - 1, k); }
  }

  /**
   However the frames of any number of connections are cut into ticks, each connection's rows and its stored state are
   those of one replay of its own frames, as long as no tick raises.
   */
  lemma {:induction false} ManyTicksAreOne(env: Env, ticks: seq<Tick>, n: nat, k: Key)
    requires n <= |ticks| && Clean(env, ticks, n) && StatesOk(env)
    requires var share := Share(ticks, n, k);
             && share != [] && OneConnection(Flatten(share, |share|)) && Timed(Flatten(share, |share|))
             && forall i :: 0 < i < |share| && Flatten(share, i) != [] ==> Fits(EndMachine(env, Flatten(share, i)).book)
    ensures var share := Share(ticks, n, k);
            var w := ReplayOf(env, Flatten(share, |share|));
            && !w.raised && SharedRows(env, ticks, n, k) == Rows(w.outs)
            && Find(EnvAfter(env, ticks, n).states, k) == Find(Merged(env.states, w.outs), k)
  {
    var share := Share(ticks, n, k);
    TicksAsIfAlone(env, ticks, n, k);
    ShareIsFull(ticks, n, k);
    TicksAreOne(env, share, |share|);
  }
}
