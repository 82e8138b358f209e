/** Stage 1 of one ingest run (docker/lake/ingest.py) as the ordered steps it is, proved to be a run of the ledger. */
module Ingest {
  import opened Prelude
  import opened Offsets
  import opened Gaps
  import opened Ledger

  datatype Outcome =
    | LossRefused(losses: seq<Loss>)
    | LossNotRecorded
    | NoNewRecords
    | ReadFailed
    | NothingYielded
    | Wrote(n: nat)

  /** What the broker makes of a pinned range: an error, no record at all, or the range. */
  datatype Read = Raises | YieldsNothing | Yields

  lemma {:induction false} Compose(s: State, run: seq<Action>, more: seq<Action>)
    requires Legal(s, run) && Legal(After(s, run), more)
    ensures Legal(s, run + more) && After(s, run + more) == After(After(s, run), more)
    decreases |run|
  {
    if run == [] {
      assert run + more == more;
    } else {
      Compose(Next(s, run[0]), run[1..], more);
      assert (run + more)[1..] == run[1..] + more;
    }
  }

  /** A quiet lake: nobody holds the lock, nobody runs. */
  ghost function Idle(br: Broker, a: Archive): State {
    State(br, a, None, map[])
  }

  /** `run` takes the idle lake from one archive to the other. */
  ghost predicate Reaches(br: Broker, a: Archive, run: seq<Action>, a': Archive) {
    Legal(Idle(br, a), run) && After(Idle(br, a), run) == Idle(br, a')
  }

  /** The lake with one process at work in it. */
  ghost function Running(br: Broker, a: Archive, ph: Phase): State {
    State(br, a, Some(0), map[0 := ph])
  }

  ghost predicate Lossy(br: Broker, ph: Phase)
    requires ph.Planned?
  {
    exists l :: IsLoss(ph.starts, br.earliest, l)
  }

  /** A process planned against a broker that has not moved, with nothing evicted, is served in full. */
  lemma {:induction false} PlannedIsServed(br: Broker, v: View, ph: Phase)
    requires ph.Planned? && ProcOk(br, v, ph) && BrokerOk(br)
    requires ph.bounds.earliest == br.earliest && ph.bounds.latest == br.latest
    requires forall l :: !IsLoss(ph.starts, br.earliest, l)
    ensures Serves(br, ph.starts, ph.ends)
  {
    forall t, p: nat | Has(ph.starts, t, p) && ph.starts[t][p] < Lookup(ph.ends, t, p, 0)
      ensures Lookup(br.earliest, t, p, 0) <= ph.starts[t][p] && Lookup(ph.ends, t, p, 0) <= Lookup(br.latest, t, p, 0)
    {
      assert PhaseOk(br, v, ph, t, p);
      var logStart := Lookup(br.earliest, t, p, 0);
      assert !IsLoss(ph.starts, br.earliest, Loss(t, p, ph.starts[t][p], logStart, logStart - ph.starts[t][p]));
    }
  }

  lemma {:induction false} LossesAreProper(br: Broker, v: View, ph: Phase, losses: seq<Loss>)
    requires ph.Planned? && ProcOk(br, v, ph)
    requires AreLosses(ph.starts, ph.bounds.earliest, losses)
    ensures ProperLosses(losses)
  {
    forall i | 0 <= i < |losses|
      ensures 0 <= losses[i].start < losses[i].logStart && losses[i].lost == losses[i].logStart - losses[i].start
    {
      assert losses[i] in losses;
      assert PhaseOk(br, v, ph, losses[i].topic, losses[i].partition);
    }
  }

  lemma {:induction false} RepairedHasNoLoss(br: Broker, v: View, ph: Phase, l: Loss)
    requires ph.LossesFiled? && ProcOk(br, v, ph)
    ensures !IsLoss(PlanPastLosses(ph.committed, ph.bounds, ph.starts).starts, ph.bounds.earliest, l)
  {
    if Has(ph.starts, l.topic, l.partition) {
      assert PhaseOk(br, v, ph, l.topic, l.partition);
    }
  }

  lemma {:induction false} OneStep(s: State, a: Action)
    requires Enabled(s, a)
    ensures Legal(s, [a]) && After(s, [a]) == Next(s, a)
  {
    assert [a][1..] == [];
  }

  lemma {:induction false} TwoSteps(s: State, a: Action, b: Action)
    requires Enabled(s, a) && Enabled(Next(s, a), b)
    ensures Legal(s, [a, b]) && After(s, [a, b]) == Next(Next(s, a), b)
  {
    OneStep(s, a);
    OneStep(Next(s, a), b);
    Compose(s, [a], [b]);
    assert [a] + [b] == [a, b];
  }

  lemma {:induction false} ThreeSteps(s: State, a: Action, b: Action, c: Action)
    requires Enabled(s, a) && Enabled(Next(s, a), b) && Enabled(Next(Next(s, a), b), c)
    ensures Legal(s, [a, b, c]) && After(s, [a, b, c]) == Next(Next(Next(s, a), b), c)
  {
    TwoSteps(s, a, b);
    OneStep(Next(Next(s, a), b), c);
    Compose(s, [a, b], [c]);
    assert [a, b] + [c] == [a, b, c];
  }

  /** Lock, resume, plan. */
  lemma {:induction false} PlanTrace(br: Broker, a: Archive, m: int, until: Option<OffsetMap>)
    requires Inv(Idle(br, a))
    ensures var run := [Start(0), Resume(0), Plan(0, m, until)];
            var ph := PlanFrom(br, Committed(a), m, until);
            && Legal(Idle(br, a), run) && After(Idle(br, a), run) == Running(br, a, ph)
            && Inv(Running(br, a, ph)) && ProcOk(br, ViewOf(a), ph)
  {
    var s := Idle(br, a);
    PlanSteps(br, a, m, until);
    ThreeSteps(s, Start(0), Resume(0), Plan(0, m, until));
    RunKeepsInv(s, [Start(0), Resume(0), Plan(0, m, until)]);
  }

  lemma {:induction false} PlanSteps(br: Broker, a: Archive, m: int, until: Option<OffsetMap>)
    ensures var s0, s1, s2 := Idle(br, a), Running(br, a, Started), Running(br, a, Resumed(Committed(a)));
            && Enabled(s0, Start(0)) && Next(s0, Start(0)) == s1
            && Enabled(s1, Resume(0)) && Next(s1, Resume(0)) == s2
            && Enabled(s2, Plan(0, m, until))
            && Next(s2, Plan(0, m, until)) == Running(br, a, PlanFrom(br, Committed(a), m, until))
  {}

  lemma {:induction false} FileMove(br: Broker, a: Archive, ph: Phase, losses: seq<Loss>, appId: string)
    requires ph.Planned? && losses != []
    requires AreLosses(ph.starts, ph.bounds.earliest, losses) && ProperLosses(losses)
    ensures var s := Running(br, a, ph);
            && Enabled(s, FileLosses(0, losses, appId))
            && Next(s, FileLosses(0, losses, appId)) ==
               Running(br, WithChecks(a, LossRows(losses, appId)), LossesFiled(ph.committed, ph.bounds, ph.starts))
  {}

  lemma {:induction false} SkipMove(br: Broker, a: Archive, ph: Phase)
    requires ph.LossesFiled?
    ensures var s := Running(br, a, ph);
            && Enabled(s, Skip(0))
            && Next(s, Skip(0)) == Running(br, a, PlanPastLosses(ph.committed, ph.bounds, ph.starts))
  {}

  lemma {:induction false} RunningIsOk(br: Broker, a: Archive, ph: Phase)
    requires Inv(Running(br, a, ph))
    ensures ProcOk(br, ViewOf(a), ph) && BrokerOk(br)
  {
    assert Running(br, a, ph).procs[0] == ph;
  }

  /** File, then skip. */
  lemma {:induction false} LossTrace(br: Broker, a: Archive, ph: Phase, losses: seq<Loss>, appId: string)
    requires ph.Planned? && Inv(Running(br, a, ph)) && losses != []
    requires AreLosses(ph.starts, ph.bounds.earliest, losses) && ProperLosses(losses)
    ensures var run := [FileLosses(0, losses, appId), Skip(0)];
            var a', ph' := WithChecks(a, LossRows(losses, appId)), PlanPastLosses(ph.committed, ph.bounds, ph.starts);
            && Legal(Running(br, a, ph), run) && After(Running(br, a, ph), run) == Running(br, a', ph')
            && Inv(Running(br, a', ph'))
            && forall l :: !IsLoss(ph'.starts, ph.bounds.earliest, l)
  {
    var s := Running(br, a, ph);
    var filed, a' := LossesFiled(ph.committed, ph.bounds, ph.starts), WithChecks(a, LossRows(losses, appId));
    FileMove(br, a, ph, losses, appId);
    StepKeepsInv(s, FileLosses(0, losses, appId));
    SkipMove(br, a', filed);
    StepKeepsInv(Running(br, a', filed), Skip(0));
    TwoSteps(s, FileLosses(0, losses, appId), Skip(0));
    RunningIsOk(br, a', filed);
    forall l ensures !IsLoss(PlanPastLosses(ph.committed, ph.bounds, ph.starts).starts, ph.bounds.earliest, l) {
      RepairedHasNoLoss(br, ViewOf(a'), filed, l);
    }
  }

  lemma {:induction false} ExitTrace(br: Broker, a: Archive, ph: Phase)
    requires Inv(Running(br, a, ph))
    ensures Legal(Running(br, a, ph), [Exit(0)]) && After(Running(br, a, ph), [Exit(0)]) == Idle(br, a)
    ensures Inv(Idle(br, a))
  {
    OneStep(Running(br, a, ph), Exit(0));
    StepKeepsInv(Running(br, a, ph), Exit(0));
  }

  lemma {:induction false} FetchMove(br: Broker, a: Archive, ph: Phase)
    requires ph.Planned? && ph.starts != ph.ends && Serves(br, ph.starts, ph.ends)
    requires forall l :: !IsLoss(ph.starts, ph.bounds.earliest, l)
    ensures var s := Running(br, a, ph);
            && Enabled(s, Fetch(0))
            && Next(s, Fetch(0)) == Running(br, a, Fetched(ph.committed, ph.bounds, ph.starts, ph.ends))
  {}

  lemma {:induction false} CommitMove(br: Broker, a: Archive, ph: Phase, at: int)
    requires ph.Fetched? && FreshTime(a, at)
    ensures var s := Running(br, a, ph);
            && Enabled(s, Commit(0, at))
            && Next(s, Commit(0, at)) == Running(br, WithCommit(a, at, ph.committed, ph.starts, ph.ends), Finished)
  {
    var after := WithCommit(a, at, ph.committed, ph.starts, ph.ends);
    CommitNext(Running(br, a, ph), 0, at, ph, after);
    assert map[0 := ph][0 := Finished] == map[0 := Finished];
  }

  lemma {:induction false} ExitMove(br: Broker, a: Archive, ph: Phase)
    ensures Enabled(Running(br, a, ph), Exit(0)) && Next(Running(br, a, ph), Exit(0)) == Idle(br, a)
  {}

  /** Fetch, commit, leave. */
  lemma {:induction false} CommitTrace(br: Broker, a: Archive, ph: Phase, at: int)
    requires ph.Planned? && Inv(Running(br, a, ph)) && FreshTime(a, at)
    requires ph.bounds.earliest == br.earliest && ph.bounds.latest == br.latest && ph.starts != ph.ends
    requires forall l :: !IsLoss(ph.starts, br.earliest, l)
    ensures var run := [Fetch(0), Commit(0, at), Exit(0)];
            var a' := WithCommit(a, at, ph.committed, ph.starts, ph.ends);
            Legal(Running(br, a, ph), run) && After(Running(br, a, ph), run) == Idle(br, a') && Inv(Idle(br, a'))
  {
    RunningIsOk(br, a, ph);
    PlannedIsServed(br, ViewOf(a), ph);
    FetchMove(br, a, ph);
    var fetched := Fetched(ph.committed, ph.bounds, ph.starts, ph.ends);
    CommitMove(br, a, fetched, at);
    ExitMove(br, WithCommit(a, at, ph.committed, ph.starts, ph.ends), Finished);
    ThreeSteps(Running(br, a, ph), Fetch(0), Commit(0, at), Exit(0));
    RunKeepsInv(Running(br, a, ph), [Fetch(0), Commit(0, at), Exit(0)]);
  }

  // ---- without the lock ----

  /** There is something to read and nothing was evicted. */
  ghost predicate Worthwhile(br: Broker, ph: Phase) {
    ph.Planned? && ph.starts != ph.ends && !Lossy(br, ph)
  }

  /** A process that does not ask for the lock before it starts. */
  ghost predicate EnabledUnlocked(s: State, a: Action) {
    a.Start? || Enabled(s, a)
  }

  ghost function NextUnlocked(s: State, a: Action): State
    requires EnabledUnlocked(s, a)
  {
    if a.Start? then State(s.broker, s.archive, NextLock(s, a), s.procs[a.pid := Started]) else Next(s, a)
  }

  /** `run` takes `s` to `s'` with nobody asking for the lock. */
  ghost predicate ReachesUnlocked(s: State, run: seq<Action>, s': State)
    decreases |run|
  {
    if run == [] then s == s'
    else EnabledUnlocked(s, run[0]) && ReachesUnlocked(NextUnlocked(s, run[0]), run[1..], s')
  }

  lemma {:induction false} ThenUnlocked(s: State, run: seq<Action>, mid: State, a: Action)
    requires ReachesUnlocked(s, run, mid) && EnabledUnlocked(mid, a)
    ensures ReachesUnlocked(s, run + [a], NextUnlocked(mid, a))
    decreases |run|
  {
    if run == [] {
      assert run + [a] == [a] && [a][1..] == [];
    } else {
      ThenUnlocked(NextUnlocked(s, run[0]), run[1..], mid, a);
      assert (run + [a])[1..] == run[1..] + [a];
    }
  }

  /** One move of a process that does not ask. */
  ghost predicate Moves(s: State, a: Action, s': State) {
    EnabledUnlocked(s, a) && NextUnlocked(s, a) == s'
  }

  lemma {:induction false} TwoUnlocked(s: State, run: seq<Action>, s0: State, a: Action, s1: State, b: Action,
                                       s2: State)
    requires ReachesUnlocked(s, run, s0) && Moves(s0, a, s1) && Moves(s1, b, s2)
    ensures ReachesUnlocked(s, run + [a, b], s2)
  {
    ThenUnlocked(s, run, s0, a);
    ThenUnlocked(s, run + [a], s1, b);
    assert run + [a] + [b] == run + [a, b];
  }

  /** Two processes at work in one lake. */
  ghost function Two(br: Broker, a: Archive, p: Phase, q: Phase): State {
    State(br, a, Some(1), map[0 := p, 1 := q])
  }

  lemma {:induction false} BothStart(br: Broker, a: Archive)
    ensures Moves(Idle(br, a), Start(0), Running(br, a, Started))
    ensures Moves(Running(br, a, Started), Start(1), Two(br, a, Started, Started))
  {}

  lemma {:induction false} BothResume(br: Broker, a: Archive)
    ensures var ph := Resumed(Committed(a));
            && Moves(Two(br, a, Started, Started), Resume(0), Two(br, a, ph, Started))
            && Moves(Two(br, a, ph, Started), Resume(1), Two(br, a, ph, ph))
  {}

  lemma {:induction false} BothPlan(br: Broker, a: Archive, m: int, until: Option<OffsetMap>)
    ensures var resumed, ph := Resumed(Committed(a)), PlanFrom(br, Committed(a), m, until);
            && Moves(Two(br, a, resumed, resumed), Plan(0, m, until), Two(br, a, ph, resumed))
            && Moves(Two(br, a, ph, resumed), Plan(1, m, until), Two(br, a, ph, ph))
  {
    var resumed, ph := Resumed(Committed(a)), PlanFrom(br, Committed(a), m, until);
    PlanNext(Two(br, a, resumed, resumed), 0, m, until, Committed(a), ph);
    TwoUpdate(br, a, resumed, resumed, ph);
    PlanNext(Two(br, a, ph, resumed), 1, m, until, Committed(a), ph);
    TwoUpdate(br, a, ph, resumed, ph);
  }

  lemma {:induction false} TwoUpdate(br: Broker, a: Archive, p: Phase, q: Phase, r: Phase)
    ensures State(br, a, Some(1), Two(br, a, p, q).procs[0 := r]) == Two(br, a, r, q)
    ensures State(br, a, Some(1), Two(br, a, p, q).procs[1 := r]) == Two(br, a, p, r)
  {
    assert map[0 := p, 1 := q][0 := r] == map[0 := r, 1 := q];
    assert map[0 := p, 1 := q][1 := r] == map[0 := p, 1 := r];
  }

  lemma {:induction false} PlanNext(s: State, pid: nat, m: int, until: Option<OffsetMap>, committed: OffsetMap,
                                    ph: Phase)
    requires pid in s.procs && s.procs[pid] == Resumed(committed) && ph == PlanFrom(s.broker, committed, m, until)
    ensures var a := Plan(pid, m, until);
            Enabled(s, a) && Next(s, a) == State(s.broker, s.archive, s.lock, s.procs[pid := ph])
  {}

  lemma {:induction false} CommitNext(s: State, pid: nat, at: int, f: Phase, after: Archive)
    requires pid in s.procs && s.procs[pid] == f && f.Fetched? && FreshTime(s.archive, at)
    requires after == WithCommit(s.archive, at, f.committed, f.starts, f.ends)
    ensures var a := Commit(pid, at);
            Enabled(s, a) && Next(s, a) == State(s.broker, after, s.lock, s.procs[pid := Finished])
  {}

  lemma {:induction false} BothFetch(br: Broker, a: Archive, ph: Phase)
    requires ph.Planned? && ph.starts != ph.ends && Serves(br, ph.starts, ph.ends)
    requires forall l :: !IsLoss(ph.starts, ph.bounds.earliest, l)
    ensures var f := Fetched(ph.committed, ph.bounds, ph.starts, ph.ends);
            && Moves(Two(br, a, ph, ph), Fetch(0), Two(br, a, f, ph))
            && Moves(Two(br, a, f, ph), Fetch(1), Two(br, a, f, f))
  {}

  /** What two commits of the same plan leave. */
  ghost function CommittedTwice(a: Archive, ph: Phase, at: int, at': int): Archive
    requires ph.Planned? || ph.Fetched?
  {
    WithCommit(WithCommit(a, at, ph.committed, ph.starts, ph.ends), at', ph.committed, ph.starts, ph.ends)
  }

  lemma {:induction false} BothCommit(br: Broker, a: Archive, f: Phase, at: int, at': int)
    requires f.Fetched? && FreshTime(a, at) && at < at'
    ensures var a' := WithCommit(a, at, f.committed, f.starts, f.ends);
            && Moves(Two(br, a, f, f), Commit(0, at), Two(br, a', Finished, f))
            && Moves(Two(br, a', Finished, f), Commit(1, at'),
                     Two(br, CommittedTwice(a, f, at, at'), Finished, Finished))
  {
    var a' := WithCommit(a, at, f.committed, f.starts, f.ends);
    FirstCommit(br, a, f, at, a');
    LaterIsFresh(a, Snapshot(at, Some(Job.Ingest), Merge(f.committed, f.ends)), at', a');
    SecondCommit(br, a', f, at', CommittedTwice(a, f, at, at'));
  }

  lemma {:induction false} LaterIsFresh(a: Archive, last: Snapshot<OffsetMap>, at: int, a': Archive)
    requires FreshTime(a, last.committedAt) && last.committedAt < at && a'.snapshots == a.snapshots + [last]
    ensures FreshTime(a', at)
  {}

  lemma {:induction false} FirstCommit(br: Broker, a: Archive, f: Phase, at: int, a': Archive)
    requires f.Fetched? && FreshTime(a, at) && a' == WithCommit(a, at, f.committed, f.starts, f.ends)
    ensures Moves(Two(br, a, f, f), Commit(0, at), Two(br, a', Finished, f))
  {
    CommitNext(Two(br, a, f, f), 0, at, f, a');
    TwoUpdate(br, a', f, f, Finished);
  }

  lemma {:induction false} SecondCommit(br: Broker, a: Archive, f: Phase, at: int, a': Archive)
    requires f.Fetched? && FreshTime(a, at) && a' == WithCommit(a, at, f.committed, f.starts, f.ends)
    ensures Moves(Two(br, a, Finished, f), Commit(1, at), Two(br, a', Finished, Finished))
  {
    CommitNext(Two(br, a, Finished, f), 1, at, f, a');
    TwoUpdate(br, a', Finished, f, Finished);
  }

  /** Both start, resume and plan, and neither knows of the other. */
  lemma {:induction false} PlannedTwice(br: Broker, a: Archive, m: int,
                                        until: Option<OffsetMap>) returns (run: seq<Action>)
    ensures |run| > 1 && run[0] == Start(0) && run[1] == Start(1)
    ensures var ph := PlanFrom(br, Committed(a), m, until); ReachesUnlocked(Idle(br, a), run, Two(br, a, ph, ph))
  {
    var s, resumed, ph := Idle(br, a), Resumed(Committed(a)), PlanFrom(br, Committed(a), m, until);
    BothStart(br, a);
    BothResume(br, a);
    BothPlan(br, a, m, until);
    var none := [];
    assert ReachesUnlocked(s, none, s);
    TwoUnlocked(s, none, s, Start(0), Running(br, a, Started), Start(1), Two(br, a, Started, Started));
    run := none + [Start(0), Start(1)];
    TwoUnlocked(s, run, Two(br, a, Started, Started), Resume(0), Two(br, a, resumed, Started), Resume(1),
                Two(br, a, resumed, resumed));
    run := run + [Resume(0), Resume(1)];
    TwoUnlocked(s, run, Two(br, a, resumed, resumed), Plan(0, m, until), Two(br, a, ph, resumed), Plan(1, m, until),
                Two(br, a, ph, ph));
    run := run + [Plan(0, m, until), Plan(1, m, until)];
  }

  /**
   Why the lock is there. From any state the locked program can be in between runs, two processes that do not ask for
   it get through to two commits of one range: every record of the range is archived twice, and the offsets are those
   of one commit, so nothing later notices. With the lock the second of them is refused.
   */
  lemma {:induction false} TwoWritersDuplicate(br: Broker, a: Archive, m: int, until: Option<OffsetMap>, at: int,
                                               at': int)
    returns (run: seq<Action>, after: Archive)
    requires Inv(Idle(br, a)) && FreshTime(a, at) && at < at'
    requires Worthwhile(br, PlanFrom(br, Committed(a), m, until))
    ensures ReachesUnlocked(Idle(br, a), run, Two(br, after, Finished, Finished)) && !Legal(Idle(br, a), run)
    ensures var ph := PlanFrom(br, Committed(a), m, until);
            && Committed(after) == Merge(ph.committed, ph.ends)
            && forall r :: r in Batch(ph.starts, ph.ends) ==> after.rows[r] == a.rows[r] + 2
  {
    var ph := PlanFrom(br, Committed(a), m, until);
    PlanTrace(br, a, m, until);
    PlannedIsServed(br, ViewOf(a), ph);
    run := PlannedTwice(br, a, m, until);
    var f := Fetched(ph.committed, ph.bounds, ph.starts, ph.ends);
    BothFetch(br, a, ph);
    TwoUnlocked(Idle(br, a), run, Two(br, a, ph, ph), Fetch(0), Two(br, a, f, ph), Fetch(1), Two(br, a, f, f));
    run := run + [Fetch(0), Fetch(1)];
    BothCommit(br, a, f, at, at');
    after := CommittedTwice(a, f, at, at');
    TwoUnlocked(Idle(br, a), run, Two(br, a, f, f), Commit(0, at),
                Two(br, WithCommit(a, at, f.committed, f.starts, f.ends), Finished, f), Commit(1, at'),
                Two(br, after, Finished, Finished));
    run := run + [Commit(0, at), Commit(1, at')];
    NotLegal(br, a, run);
    TwiceCommitted(a, ph, at, at');
  }

  lemma {:induction false} NotLegal(br: Broker, a: Archive, run: seq<Action>)
    requires |run| > 1 && run[0] == Start(0) && run[1] == Start(1)
    ensures !Legal(Idle(br, a), run)
  {
    var rest := run[1..];
    assert rest[0] == Start(1) && !Enabled(Next(Idle(br, a), Start(0)), rest[0]);
  }

  lemma {:induction false} TwiceCommitted(a: Archive, ph: Phase, at: int, at': int)
    requires ph.Planned? && Chronological(a.snapshots) && FreshTime(a, at) && at < at'
    ensures var after := CommittedTwice(a, ph, at, at');
            && Committed(after) == Merge(ph.committed, ph.ends)
            && forall r :: r in Batch(ph.starts, ph.ends) ==> after.rows[r] == a.rows[r] + 2
  {
    var merged := Merge(ph.committed, ph.ends);
    var once := WithCommit(a, at, ph.committed, ph.starts, ph.ends);
    LatestAfterCommit(a.snapshots, Snapshot(at, Some(Ingest), merged), Ingest);
    LatestAfterCommit(once.snapshots, Snapshot(at', Some(Ingest), merged), Ingest);
  }

  // ---- what a run is for ----

  /** Nothing to read, a failed or empty read, or exactly the planned range in one commit with its offsets. */
  ghost predicate ReadResult(a: Archive, a': Archive, ph: Phase, at: int, read: Read, outcome: Outcome)
    requires ph.Planned?
  {
    if ph.starts == ph.ends then outcome == NoNewRecords && a' == a
    else if read.Raises? then outcome == ReadFailed && a' == a
    else if read.YieldsNothing? then outcome == NothingYielded && a' == a
    else outcome == Wrote(|Batch(ph.starts, ph.ends)|) && a' == WithCommit(a, at, ph.committed, ph.starts, ph.ends)
  }

  /** Evicted ranges stop the run, unless accepted and filed: then it reads on from the log starts. */
  ghost predicate StageResult(br: Broker, a: Archive, a': Archive, ph: Phase, at: int, acceptDataLoss: bool,
                              auditLands: bool, read: Read, appId: string, outcome: Outcome)
    requires ph.Planned?
  {
    if !Lossy(br, ph) then ReadResult(a, a', ph, at, read, outcome)
    else if !acceptDataLoss then
      outcome.LossRefused? && AreLosses(ph.starts, br.earliest, outcome.losses) && a' == a
    else if !auditLands then outcome == LossNotRecorded && a' == a
    else LossResult(br, a, a', ph, at, read, appId, outcome)
  }

  ghost predicate LossResult(br: Broker, a: Archive, a': Archive, ph: Phase, at: int, read: Read, appId: string,
                             outcome: Outcome)
    requires ph.Planned?
  {
    exists losses :: AreLosses(ph.starts, br.earliest, losses) && ProperLosses(losses)
      && ReadResult(WithChecks(a, LossRows(losses, appId)), a', PlanPastLosses(ph.committed, ph.bounds, ph.starts), at,
                    read, outcome)
  }

  lemma {:induction false} LossyIff(br: Broker, ph: Phase, losses: seq<Loss>)
    requires ph.Planned? && AreLosses(ph.starts, br.earliest, losses)
    ensures Lossy(br, ph) <==> losses != []
  {
    if losses != [] { assert losses[0] in losses && IsLoss(ph.starts, br.earliest, losses[0]); }
  }

  class Lake {
    var rows: multiset<Record>
    var snapshots: seq<Snapshot<OffsetMap>>
    var checks: seq<Check>
    ghost var origin: OffsetMap

    ghost function Contents(): Archive
      reads this
    {
      Archive(rows, snapshots, checks, origin)
    }

    constructor ()
      ensures Contents() == Archive(multiset{}, [], [], map[])
    {
      rows, snapshots, checks, origin := multiset{}, [], [], map[];
    }

    /** One commit of findings, or none. */
    method WriteAuditRows(findings: seq<Check>, lands: bool) returns (written: bool)
      modifies this`checks
      ensures written == lands
      ensures checks == if lands then old(checks) + findings else old(checks)
    {
      if lands {
        checks := checks + findings;
      }
      return lands;
    }

    /** Record the evicted ranges, then resume past them; a record that does not land stops the run. */
    method AcceptDataLoss(losses: seq<Loss>, starts: OffsetMap, bounds: Bounds, appId: string, auditLands: bool)
      returns (written: bool, starts': OffsetMap, ends': OffsetMap)
      requires AreLosses(starts, bounds.earliest, losses) && ProperLosses(losses)
      modifies this`checks
      ensures written == auditLands
      ensures checks == if written then old(checks) + LossRows(losses, appId) else old(checks)
      ensures written ==> starts' == bounds.Starts(RaiseToLogStart(starts, bounds.earliest))
      ensures written ==> ends' == bounds.Ends(RaiseToLogStart(starts, bounds.earliest))
    {
      written := WriteAuditRows(LossRows(losses, appId), auditLands);
      starts', ends' := starts, starts;
      if written {
        var repaired := SkipEvicted(starts, bounds.earliest, losses);
        var backlog;
        starts', ends', backlog := BoundedOffsets(repaired, bounds);
      }
    }

    /** Rows and offsets in one commit. */
    method Append(starts: OffsetMap, ends: OffsetMap, committed: OffsetMap, at: int) returns (n: nat)
      modifies this
      ensures Contents() == WithCommit(old(Contents()), at, committed, starts, ends)
      ensures n == |Batch(starts, ends)|
    {
      var merged := MergeCommitted(committed, ends);
      var batch := Batch(starts, ends);
      rows := rows + multiset(batch);
      snapshots := snapshots + [Snapshot(at, Some(Job.Ingest), merged)];
      origin := Merge(starts, origin);
      return |batch|;
    }

    /** The part of the run past any loss: nothing to read, a failed or empty read, or one commit. */
    method ReadAndCommit(br: Broker, at: int, starts: OffsetMap, ends: OffsetMap, committed: OffsetMap, read: Read,
                         ghost b: Bounds)
      returns (outcome: Outcome, ghost run: seq<Action>)
      requires Inv(Running(br, Contents(), Planned(committed, b, starts, ends))) && FreshTime(Contents(), at)
      requires b.earliest == br.earliest && b.latest == br.latest
      requires forall l :: !IsLoss(starts, br.earliest, l)
      modifies this
      ensures var s := Running(br, old(Contents()), Planned(committed, b, starts, ends));
              Legal(s, run) && After(s, run) == Idle(br, Contents()) && Inv(Idle(br, Contents()))
      ensures ReadResult(old(Contents()), Contents(), Planned(committed, b, starts, ends), at, read, outcome)
    {
      ghost var a, ph := Contents(), Planned(committed, b, starts, ends);
      ExitTrace(br, a, ph);
      if starts == ends {
        return NoNewRecords, [Exit(0)];
      }
      if read.Raises? {
        return ReadFailed, [Exit(0)];
      }
      if read.YieldsNothing? {
        return NothingYielded, [Exit(0)];
      }
      CommitTrace(br, a, ph, at);
      var n := Append(starts, ends, committed, at);
      return Wrote(n), [Fetch(0), Commit(0, at), Exit(0)];
    }

    /**
     One bounded batch, or none. Whatever the run meets, it is a legal run of the ledger that ends with the lock
     free: losses are filed before they are skipped, and the rows land in the commit that carries their offsets.
     */
    method StageRaw(br: Broker, at: int, maxPerPartition: int, until: Option<OffsetMap>, acceptDataLoss: bool,
                    auditLands: bool, read: Read, appId: string)
      returns (outcome: Outcome, ghost run: seq<Action>)
      requires Inv(Idle(br, Contents())) && FreshTime(Contents(), at)
      modifies this
      ensures Reaches(br, old(Contents()), run, Contents()) && Inv(Idle(br, Contents()))
      ensures var ph := PlanFrom(br, Committed(old(Contents())), maxPerPartition, until);
              StageResult(br, old(Contents()), Contents(), ph, at, acceptDataLoss, auditLands, read, appId, outcome)
    {
      var previous := LatestSummary(snapshots, Job.Ingest);
      var committed: OffsetMap := match previous case None => map[] case Some(offsets) => offsets;
      var bounds := Bounds(br.earliest, br.latest, maxPerPartition, until);
      var starting := NextStartingOffsets(committed, Counts(br.earliest));
      var starts, ends, backlog := BoundedOffsets(starting, bounds);

      ghost var s, ph := Idle(br, Contents()), PlanFrom(br, committed, maxPerPartition, until);
      run := [Start(0), Resume(0), Plan(0, maxPerPartition, until)];
      PlanTrace(br, Contents(), maxPerPartition, until);

      var losses := Evicted(starts, br.earliest);
      LossyIff(br, ph, losses);
      if losses != [] {
        ghost var rest;
        outcome, rest := StagePastLosses(br, at, losses, starts, committed, bounds, acceptDataLoss, auditLands, read,
                                         appId, ph);
        Compose(s, run, rest);
        run := run + rest;
        return;
      }
      ghost var rest;
      outcome, rest := ReadAndCommit(br, at, starts, ends, committed, read, bounds);
      Compose(s, run, rest);
      run := run + rest;
    }

    /** The branch `stage_raw` takes when retention has overtaken the archive. */
    method StagePastLosses(br: Broker, at: int, losses: seq<Loss>, starts: OffsetMap, committed: OffsetMap,
                           bounds: Bounds, acceptDataLoss: bool, auditLands: bool, read: Read, appId: string,
                           ghost ph: Phase)
      returns (outcome: Outcome, ghost run: seq<Action>)
      requires ph.Planned? && ph.starts == starts && ph.committed == committed && ph.bounds == bounds
      requires bounds.earliest == br.earliest && bounds.latest == br.latest
      requires Inv(Running(br, Contents(), ph)) && ProcOk(br, ViewOf(Contents()), ph) && FreshTime(Contents(), at)
      requires AreLosses(starts, br.earliest, losses) && losses != [] && Lossy(br, ph)
      modifies this
      ensures var s := Running(br, old(Contents()), ph);
              Legal(s, run) && After(s, run) == Idle(br, Contents()) && Inv(Idle(br, Contents()))
      ensures StageResult(br, old(Contents()), Contents(), ph, at, acceptDataLoss, auditLands, read, appId, outcome)
    {
      ghost var s := Running(br, Contents(), ph);
      if !acceptDataLoss {
        ExitTrace(br, Contents(), ph);
        return LossRefused(losses), [Exit(0)];
      }
      LossesAreProper(br, ViewOf(Contents()), ph, losses);
      if !auditLands {
        ExitTrace(br, Contents(), ph);
      } else {
        LossTrace(br, Contents(), ph, losses, appId);
      }
      var written, from, to := AcceptDataLoss(losses, starts, bounds, appId, auditLands);
      if !written {
        return LossNotRecorded, [Exit(0)];
      }
      ghost var rest;
      outcome, rest := ReadAndCommit(br, at, from, to, committed, read, bounds);
      Compose(s, [FileLosses(0, losses, appId), Skip(0)], rest);
      run := [FileLosses(0, losses, appId), Skip(0)] + rest;
    }
  }
}
