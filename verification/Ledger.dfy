/** The exactly-once archive as a state machine: broker, table, audit rows, lock, and processes that may crash. */
module Ledger {
  import opened Prelude
  import opened Offsets
  import opened Gaps

  datatype Record = Record(topic: string, partition: nat, offset: int)

  /** How far an ingest process has come; it holds everything it has read so far. */
  datatype Phase =
    | Started
    | Resumed(committed: OffsetMap)
    | Planned(committed: OffsetMap, bounds: Bounds, starts: OffsetMap, ends: OffsetMap)
    | LossesFiled(committed: OffsetMap, bounds: Bounds, starts: OffsetMap)
    | Fetched(committed: OffsetMap, bounds: Bounds, starts: OffsetMap, ends: OffsetMap)
    | Finished

  /** The retained range of every partition. */
  datatype Broker = Broker(earliest: OffsetMap, latest: OffsetMap)

  /** `raw.messages` with its history, and `audit.checks`. `origin` is history too: where each partition's archive
      begins. No step reads it. */
  datatype Archive = Archive(
    rows: multiset<Record>,
    snapshots: seq<Snapshot<OffsetMap>>,
    checks: seq<Check>,
    origin: OffsetMap)

  datatype State = State(broker: Broker, archive: Archive, lock: Option<nat>, procs: map<nat, Phase>)

  datatype Action =
    | Produce(topic: string, partition: nat, n: nat)
    | AddPartition(topic: string)
    | Evict(topic: string, partition: nat, to: int)
    | Compact(at: int)
    | Expire(k: nat)
    | Start(pid: nat)
    | Refuse(pid: nat)
    | Resume(pid: nat)
    | Plan(pid: nat, maxPerPartition: int, until: Option<OffsetMap>)
    | FileLosses(pid: nat, losses: seq<Loss>, appId: string)
    | Skip(pid: nat)
    | Fetch(pid: nat)
    | Commit(pid: nat, at: int)
    | Exit(pid: nat)

  /** What the newest ingest snapshot says was consumed. */
  function Committed(a: Archive): OffsetMap {
    match LatestSummary(a.snapshots, Ingest)
    case None => map[]
    case Some(offsets) => offsets
  }

  function Counts(earliest: OffsetMap): map<string, nat> {
    map t | t in earliest :: |earliest[t]|
  }

  function LossRows(losses: seq<Loss>, appId: string): seq<Check>
    requires forall i :: 0 <= i < |losses| ==>
               0 <= losses[i].start < losses[i].logStart && losses[i].lost == losses[i].logStart - losses[i].start
  {
    seq(|losses|, i requires 0 <= i < |losses| => LossRow(losses[i], appId))
  }

  /** The records of a pinned range, each once. */
  function Batch(starts: OffsetMap, ends: OffsetMap): set<Record> {
    set t, p, o | t in starts && p in starts[t] && starts[t][p] <= o < Lookup(ends, t, p, 0) :: Record(t, p, o)
  }

  /** `failOnDataLoss=true`: the broker still holds every record of every range. */
  ghost predicate Serves(br: Broker, starts: OffsetMap, ends: OffsetMap) {
    forall t, p: nat :: Has(starts, t, p) && starts[t][p] < Lookup(ends, t, p, 0) ==>
      Lookup(br.earliest, t, p, 0) <= starts[t][p] && Lookup(ends, t, p, 0) <= Lookup(br.latest, t, p, 0)
  }

  function Put(o: OffsetMap, t: string, p: nat, v: int): OffsetMap {
    o[t := PartsOf(o, t)[p := v]]
  }

  ghost predicate FreshTime(a: Archive, at: int) {
    forall i :: 0 <= i < |a.snapshots| ==> a.snapshots[i].committedAt < at
  }

  ghost predicate ProperLosses(losses: seq<Loss>) {
    forall i :: 0 <= i < |losses| ==>
      0 <= losses[i].start < losses[i].logStart && losses[i].lost == losses[i].logStart - losses[i].start
  }

  ghost predicate Enabled(s: State, a: Action) {
    match a
    case Produce(t, p, n) => Has(s.broker.latest, t, p)
    case AddPartition(t) => t in s.broker.earliest && t in s.broker.latest
    case Evict(t, p, to) =>
      Has(s.broker.earliest, t, p) && Has(s.broker.latest, t, p) &&
      s.broker.earliest[t][p] <= to <= s.broker.latest[t][p]
    case Compact(at) => FreshTime(s.archive, at)
    case Expire(k) => k < |s.archive.snapshots| && NewestIndex(s.archive.snapshots, Ingest) != Some(k)
    case Start(pid) => s.lock.None?
    case Refuse(pid) => s.lock.Some?
    case Resume(pid) => pid in s.procs && s.procs[pid].Started?
    case Plan(pid, m, until) => pid in s.procs && s.procs[pid].Resumed?
    case FileLosses(pid, losses, appId) =>
      pid in s.procs && s.procs[pid].Planned? && losses != [] && ProperLosses(losses) &&
      AreLosses(s.procs[pid].starts, s.procs[pid].bounds.earliest, losses)
    case Skip(pid) => pid in s.procs && s.procs[pid].LossesFiled?
    case Fetch(pid) =>
      pid in s.procs && s.procs[pid].Planned? && s.procs[pid].starts != s.procs[pid].ends &&
      (forall l :: !IsLoss(s.procs[pid].starts, s.procs[pid].bounds.earliest, l)) &&
      Serves(s.broker, s.procs[pid].starts, s.procs[pid].ends)
    case Commit(pid, at) => pid in s.procs && s.procs[pid].Fetched? && FreshTime(s.archive, at)
    case Exit(pid) => pid in s.procs
  }

  // What each step makes of the component it touches.

  function PlanFrom(br: Broker, committed: OffsetMap, m: int, until: Option<OffsetMap>): Phase {
    var b := Bounds(br.earliest, br.latest, m, until);
    var starting := NextStarts(committed, Counts(br.earliest));
    Planned(committed, b, b.Starts(starting), b.Ends(starting))
  }

  function PlanPastLosses(committed: OffsetMap, b: Bounds, starts: OffsetMap): Phase {
    var repaired := RaiseToLogStart(starts, b.earliest);
    Planned(committed, b, b.Starts(repaired), b.Ends(repaired))
  }

  function WithChecks(a: Archive, rows: seq<Check>): Archive {
    a.(checks := a.checks + rows)
  }

  function WithCommit(a: Archive, at: int, committed: OffsetMap, starts: OffsetMap, ends: OffsetMap): Archive {
    Archive(a.rows + multiset(Batch(starts, ends)),
            a.snapshots + [Snapshot(at, Some(Ingest), Merge(committed, ends))],
            a.checks,
            Merge(starts, a.origin))
  }

  ghost function NextBroker(br: Broker, a: Action): Broker
    requires a.Produce? ==> Has(br.latest, a.topic, a.partition)
    requires a.AddPartition? ==> a.topic in br.earliest
  {
    match a
    case Produce(t, p, n) => br.(latest := Put(br.latest, t, p, br.latest[t][p] + n))
    case AddPartition(t) =>
      Broker(Put(br.earliest, t, |br.earliest[t]|, 0), Put(br.latest, t, |br.earliest[t]|, 0))
    case Evict(t, p, to) => br.(earliest := Put(br.earliest, t, p, to))
    case _ => br
  }

  ghost function NextPhase(s: State, a: Action): map<nat, Phase>
    requires Enabled(s, a)
  {
    match a
    case Start(pid) => s.procs[pid := Started]
    case Resume(pid) => s.procs[pid := Resumed(Committed(s.archive))]
    case Plan(pid, m, until) => s.procs[pid := PlanFrom(s.broker, s.procs[pid].committed, m, until)]
    case FileLosses(pid, losses, appId) =>
      s.procs[pid := LossesFiled(s.procs[pid].committed, s.procs[pid].bounds, s.procs[pid].starts)]
    case Skip(pid) => s.procs[pid := PlanPastLosses(s.procs[pid].committed, s.procs[pid].bounds, s.procs[pid].starts)]
    case Fetch(pid) =>
      s.procs[pid := Fetched(s.procs[pid].committed, s.procs[pid].bounds, s.procs[pid].starts, s.procs[pid].ends)]
    case Commit(pid, at) => s.procs[pid := Finished]
    case Exit(pid) => s.procs - {pid}
    case _ => s.procs
  }

  ghost function NextArchive(s: State, a: Action): Archive
    requires Enabled(s, a)
  {
    match a
    case Compact(at) => s.archive.(snapshots := s.archive.snapshots + [Snapshot(at, None, map[])])
    case Expire(k) => s.archive.(snapshots := Without(s.archive.snapshots, k))
    case FileLosses(pid, losses, appId) => WithChecks(s.archive, LossRows(losses, appId))
    case Commit(pid, at) =>
      WithCommit(s.archive, at, s.procs[pid].committed, s.procs[pid].starts, s.procs[pid].ends)
    case _ => s.archive
  }

  ghost function NextLock(s: State, a: Action): Option<nat> {
    match a
    case Start(pid) => Some(pid)
    case Exit(pid) => if s.lock == Some(pid) then None else s.lock
    case _ => s.lock
  }

  ghost function Next(s: State, a: Action): State
    requires Enabled(s, a)
  {
    State(NextBroker(s.broker, a), NextArchive(s, a), NextLock(s, a), NextPhase(s, a))
  }

  // ---- runs ----

  ghost predicate Initial(s: State) {
    && BrokerOk(s.broker)
    && s.archive == Archive(multiset{}, [], [], map[])
    && s.lock.None? && s.procs == map[]
  }

  ghost predicate Legal(s: State, run: seq<Action>)
    decreases |run|
  {
    run == [] || (Enabled(s, run[0]) && Legal(Next(s, run[0]), run[1..]))
  }

  ghost function After(s: State, run: seq<Action>): State
    requires Legal(s, run)
    decreases |run|
  {
    if run == [] then s else After(Next(s, run[0]), run[1..])
  }

  // ---- the invariant ----

  /** What the invariant says about the archive: its resume point, its recorded losses, its rows. */
  datatype View = View(committed: OffsetMap, gaps: seq<Gap>, origin: OffsetMap, rows: multiset<Record>)

  ghost function ViewOf(a: Archive): View {
    View(Committed(a), RecordedUpTo(a.checks, |a.checks|), a.origin, a.rows)
  }

  /** Offset `o` is in the partition's archived range and not given up as lost. */
  ghost predicate Promised(v: View, t: string, p: nat, o: int) {
    && Has(v.committed, t, p) && Has(v.origin, t, p)
    && v.origin[t][p] <= o < v.committed[t][p]
    && !Acknowledged(v.gaps, t, p, o)
  }

  /** The archive holds each promised offset once and nothing else. */
  ghost predicate RowsOk(v: View, t: string, p: nat) {
    forall o :: v.rows[Record(t, p, o)] == if Promised(v, t, p, o) then 1 else 0
  }

  ghost predicate TopicOk(br: Broker, t: string) {
    t in br.earliest ==>
      && LegalTopic(t) && t in br.latest
      && (forall p: nat :: p in br.earliest[t] <==> p < |br.earliest[t]|)
      && (forall p: nat :: p in br.earliest[t] <==> p in br.latest[t])
      && (forall p: nat :: p in br.earliest[t] ==> 0 <= br.earliest[t][p] <= br.latest[t][p])
  }

  ghost predicate BrokerOk(br: Broker) {
    forall t :: TopicOk(br, t)
  }

  /** Committed positions are real log positions, and recorded losses lie below the log start. */
  ghost predicate PositionOk(br: Broker, v: View, t: string, p: nat) {
    && (Has(v.committed, t, p) <==> Has(v.origin, t, p))
    && (Has(v.committed, t, p) ==>
          && Has(br.earliest, t, p)
          && 0 <= v.origin[t][p] <= v.committed[t][p] <= Lookup(br.latest, t, p, 0))
    && (forall o :: Acknowledged(v.gaps, t, p, o) ==>
          Has(v.committed, t, p) && Lookup(v.origin, t, p, 0) <= o < Lookup(br.earliest, t, p, 0))
  }

  /** Where a process may start reading a partition: nothing between the committed offset and it is unfiled. */
  ghost predicate StartOk(br: Broker, v: View, t: string, p: nat, start: int, logStart: int) {
    && 0 <= start <= Lookup(br.latest, t, p, 0)
    && (Has(v.committed, t, p) ==>
          v.committed[t][p] <= start &&
          forall o :: v.committed[t][p] <= o < start ==> Acknowledged(v.gaps, t, p, o))
    && (!Has(v.committed, t, p) ==> start == logStart)
  }

  /** What the process read of the broker is not ahead of the broker. */
  ghost predicate BoundsOk(br: Broker, b: Bounds, t: string, p: nat) {
    Has(b.earliest, t, p) && Has(b.latest, t, p) && Has(br.earliest, t, p) && Has(br.latest, t, p) &&
    0 <= b.earliest[t][p] <= br.earliest[t][p] && b.earliest[t][p] <= b.latest[t][p] <= br.latest[t][p]
  }

  ghost predicate RangeOk(br: Broker, v: View, b: Bounds, starts: OffsetMap, ends: OffsetMap, t: string, p: nat) {
    && (Has(starts, t, p) <==> Has(ends, t, p))
    && (Has(starts, t, p) ==>
          && BoundsOk(br, b, t, p) && StartOk(br, v, t, p, starts[t][p], b.earliest[t][p])
          && starts[t][p] <= ends[t][p] <= Max(starts[t][p], b.latest[t][p]))
  }

  ghost predicate PhaseOk(br: Broker, v: View, ph: Phase, t: string, p: nat) {
    match ph
    case Started => true
    case Finished => true
    case Resumed(committed) => true
    case Planned(committed, b, starts, ends) => RangeOk(br, v, b, starts, ends, t, p)
    case LossesFiled(committed, b, starts) =>
      Has(starts, t, p) ==>
        BoundsOk(br, b, t, p) && StartOk(br, v, t, p, Max(starts[t][p], b.earliest[t][p]), b.earliest[t][p])
    case Fetched(committed, b, starts, ends) =>
      && RangeOk(br, v, b, starts, ends, t, p)
      && (Has(starts, t, p) ==>
            forall o :: starts[t][p] <= o < ends[t][p] ==> !Acknowledged(v.gaps, t, p, o))
  }

  ghost predicate ProcOk(br: Broker, v: View, ph: Phase) {
    && (ph.Started? || ph.Finished? || ph.committed == v.committed)
    && forall t, p: nat :: PhaseOk(br, v, ph, t, p)
  }

  ghost predicate ArchiveOk(br: Broker, v: View) {
    forall t, p: nat :: PositionOk(br, v, t, p) && RowsOk(v, t, p)
  }

  ghost predicate LockOk(s: State) {
    forall pid :: pid in s.procs ==> s.lock == Some(pid)
  }

  ghost predicate ProcsOk(br: Broker, v: View, procs: map<nat, Phase>) {
    forall pid :: pid in procs ==> ProcOk(br, v, procs[pid])
  }

  ghost predicate Inv(s: State) {
    && BrokerOk(s.broker) && Chronological(s.archive.snapshots) && LockOk(s)
    && ArchiveOk(s.broker, ViewOf(s.archive))
    && ProcsOk(s.broker, ViewOf(s.archive), s.procs)
  }

  // ---- every step keeps it ----

  ghost predicate Forward(br: Broker, br': Broker) {
    && (forall t, p: nat :: Has(br.earliest, t, p) ==>
          Has(br'.earliest, t, p) && br.earliest[t][p] <= br'.earliest[t][p])
    && (forall t, p: nat :: Has(br.latest, t, p) ==> Has(br'.latest, t, p) && br.latest[t][p] <= br'.latest[t][p])
  }

  lemma {:induction false} ForwardPosition(br: Broker, br': Broker, v: View, t: string, p: nat)
    requires Forward(br, br') && TopicOk(br, t) && PositionOk(br, v, t, p)
    ensures PositionOk(br', v, t, p)
  {}

  lemma {:induction false} ForwardPhase(br: Broker, br': Broker, v: View, ph: Phase, t: string, p: nat)
    requires Forward(br, br') && PhaseOk(br, v, ph, t, p)
    ensures PhaseOk(br', v, ph, t, p)
  {}

  lemma {:induction false} ForwardKeeps(br: Broker, br': Broker, v: View, procs: map<nat, Phase>)
    requires Forward(br, br') && BrokerOk(br) && ArchiveOk(br, v) && ProcsOk(br, v, procs)
    ensures ArchiveOk(br', v) && ProcsOk(br', v, procs)
  {
    forall t, p: nat ensures PositionOk(br', v, t, p) && RowsOk(v, t, p) {
      assert TopicOk(br, t) && PositionOk(br, v, t, p) && RowsOk(v, t, p);
      ForwardPosition(br, br', v, t, p);
    }
    forall pid | pid in procs ensures ProcOk(br', v, procs[pid]) {
      assert ProcOk(br, v, procs[pid]);
      forall t, p: nat ensures PhaseOk(br', v, procs[pid], t, p) {
        ForwardPhase(br, br', v, procs[pid], t, p);
      }
    }
  }

  lemma {:induction false} ProduceMoves(br: Broker, t: string, p: nat, n: nat)
    requires BrokerOk(br) && Has(br.latest, t, p)
    ensures var br' := NextBroker(br, Produce(t, p, n)); BrokerOk(br') && Forward(br, br')
  {
    var br' := NextBroker(br, Produce(t, p, n));
    assert TopicOk(br, t);
    forall u ensures TopicOk(br', u) { assert TopicOk(br, u); }
  }

  lemma {:induction false} PartitionMoves(br: Broker, t: string)
    requires BrokerOk(br) && t in br.earliest
    ensures var br' := NextBroker(br, AddPartition(t)); BrokerOk(br') && Forward(br, br')
  {
    var br' := NextBroker(br, AddPartition(t));
    assert TopicOk(br, t);
    assert |br.earliest[t]| !in br.earliest[t];
    assert |br'.earliest[t]| == |br.earliest[t]| + 1;
    forall u ensures TopicOk(br', u) { assert TopicOk(br, u); }
  }

  lemma {:induction false} EvictMoves(br: Broker, t: string, p: nat, to: int)
    requires BrokerOk(br) && Has(br.earliest, t, p) && Has(br.latest, t, p)
    requires br.earliest[t][p] <= to <= br.latest[t][p]
    ensures var br' := NextBroker(br, Evict(t, p, to)); BrokerOk(br') && Forward(br, br')
  {
    var br' := NextBroker(br, Evict(t, p, to));
    assert TopicOk(br, t);
    assert br'.earliest[t].Keys == br.earliest[t].Keys;
    SameSize(br'.earliest[t], br.earliest[t]);
    forall u ensures TopicOk(br', u) { assert TopicOk(br, u); }
  }

  lemma {:induction false} BrokerMovesForward(br: Broker, a: Action)
    requires BrokerOk(br)
    requires a.Produce? ==> Has(br.latest, a.topic, a.partition)
    requires a.AddPartition? ==> a.topic in br.earliest
    requires a.Evict? ==> Has(br.earliest, a.topic, a.partition) && Has(br.latest, a.topic, a.partition)
    requires a.Evict? ==> br.earliest[a.topic][a.partition] <= a.to <= br.latest[a.topic][a.partition]
    ensures BrokerOk(NextBroker(br, a)) && Forward(br, NextBroker(br, a))
  {
    match a {
      case Produce(t, p, n) => ProduceMoves(br, t, p, n);
      case AddPartition(t) => PartitionMoves(br, t);
      case Evict(t, p, to) => EvictMoves(br, t, p, to);
      case _ =>
    }
  }

  lemma {:induction false} SameSize(m: map<nat, int>, n: map<nat, int>)
    requires m.Keys == n.Keys
    ensures |m| == |n|
  {
    assert |m.Keys| == |n.Keys|;
  }

  lemma {:induction false} MaintenanceKeepsView(s: State, a: Action)
    requires Chronological(s.archive.snapshots) && Enabled(s, a) && (a.Compact? || a.Expire?)
    ensures ViewOf(NextArchive(s, a)) == ViewOf(s.archive) && Chronological(NextArchive(s, a).snapshots)
  {
    if a.Compact? {
      LatestAfterCommit(s.archive.snapshots, Snapshot(a.at, None, map[]), Ingest);
    } else {
      WithoutKeepsOrder(s.archive.snapshots, a.k);
      LatestAfterExpiry(s.archive.snapshots, a.k, Ingest);
    }
  }

  /** The planned range starts where the last commit ended, or at the log start of a partition never read. */
  lemma {:induction false} PlannedRange(br: Broker, v: View, b: Bounds, t: string, p: nat)
    requires TopicOk(br, t) && PositionOk(br, v, t, p) && b.earliest == br.earliest && b.latest == br.latest
    ensures var starting := NextStarts(v.committed, Counts(br.earliest));
            && RangeOk(br, v, b, b.Starts(starting), b.Ends(starting), t, p)
            && (Has(b.Starts(starting), t, p) && Has(v.committed, t, p) ==>
                  b.Starts(starting)[t][p] == v.committed[t][p])
            && (Has(b.Starts(starting), t, p) && !Has(v.committed, t, p) ==>
                  b.Starts(starting)[t][p] == br.earliest[t][p])
  {
    NextStartIsCommitted(v.committed, Counts(br.earliest), t, p);
    var starting := NextStarts(v.committed, Counts(br.earliest));
    if Has(starting, t, p) {
      EndIsBounded(b, t, p, starting[t][p]);
    }
  }

  lemma {:induction false} PlanOk(br: Broker, v: View, m: int, until: Option<OffsetMap>)
    requires BrokerOk(br) && ArchiveOk(br, v)
    ensures ProcOk(br, v, PlanFrom(br, v.committed, m, until))
  {
    forall t, p: nat ensures PhaseOk(br, v, PlanFrom(br, v.committed, m, until), t, p) {
      assert TopicOk(br, t) && PositionOk(br, v, t, p);
      PlannedRange(br, v, Bounds(br.earliest, br.latest, m, until), t, p);
    }
  }

  lemma {:induction false} SkipOk(br: Broker, v: View, ph: Phase)
    requires ph.LossesFiled? && ProcOk(br, v, ph)
    ensures ProcOk(br, v, PlanPastLosses(ph.committed, ph.bounds, ph.starts))
  {
    var repaired := RaiseToLogStart(ph.starts, ph.bounds.earliest);
    forall t, p: nat ensures PhaseOk(br, v, PlanPastLosses(ph.committed, ph.bounds, ph.starts), t, p) {
      assert PhaseOk(br, v, ph, t, p);
      if Has(repaired, t, p) {
        EndIsBounded(ph.bounds, t, p, repaired[t][p]);
      }
    }
  }

  lemma {:induction false} FetchOk(br: Broker, v: View, ph: Phase)
    requires ph.Planned? && ProcOk(br, v, ph) && ArchiveOk(br, v) && Serves(br, ph.starts, ph.ends)
    ensures ProcOk(br, v, Fetched(ph.committed, ph.bounds, ph.starts, ph.ends))
  {
    forall t, p: nat ensures PhaseOk(br, v, Fetched(ph.committed, ph.bounds, ph.starts, ph.ends), t, p) {
      assert PhaseOk(br, v, ph, t, p) && PositionOk(br, v, t, p);
    }
  }

  // Filing losses.

  function LossGaps(losses: seq<Loss>): seq<Gap> {
    seq(|losses|, i requires 0 <= i < |losses| =>
      Gap(losses[i].topic, losses[i].partition, losses[i].start, losses[i].logStart - 1))
  }

  lemma {:induction false} RecordedGrows(checks: seq<Check>, rows: seq<Check>, gaps: seq<Gap>)
    requires |rows| == |gaps| && forall i :: 0 <= i < |rows| ==> GapOf(rows[i]) == Some(gaps[i])
    ensures RecordedUpTo(checks + rows, |checks + rows|) == RecordedUpTo(checks, |checks|) + gaps
  {
    CollectAppend(GapOf, checks, rows, gaps, |rows|);
    assert gaps[..|rows|] == gaps;
  }

  lemma {:induction false} LossRowAt(losses: seq<Loss>, appId: string, i: nat)
    requires ProperLosses(losses) && i < |losses|
    ensures LossRows(losses, appId)[i] == LossRow(losses[i], appId)
  {}

  /** Whatever reads one filed row back reads all of them back. */
  lemma {:induction false} RowsReadBack(read: Check -> Option<Gap>, losses: seq<Loss>, appId: string, rows: seq<Check>,
                                        gaps: seq<Gap>)
    requires ProperLosses(losses) && rows == LossRows(losses, appId) && gaps == LossGaps(losses)
    requires forall i :: 0 <= i < |losses| ==> LegalTopic(losses[i].topic)
    requires forall l: Loss :: Proper(l) ==> read(LossRow(l, appId)) == Some(GapOfLoss(l))
    ensures |rows| == |gaps| && forall i :: 0 <= i < |rows| ==> read(rows[i]) == Some(gaps[i])
  {
    forall i: nat | i < |rows| ensures read(rows[i]) == Some(gaps[i]) {
      LossRowAt(losses, appId, i);
      assert Proper(losses[i]) && gaps[i] == GapOfLoss(losses[i]);
    }
  }

  lemma {:induction false} RowsParse(losses: seq<Loss>, appId: string, rows: seq<Check>)
    requires ProperLosses(losses) && rows == LossRows(losses, appId)
    requires forall i :: 0 <= i < |losses| ==> LegalTopic(losses[i].topic)
    ensures |rows| == |LossGaps(losses)| && forall i :: 0 <= i < |rows| ==> GapOf(rows[i]) == Some(LossGaps(losses)[i])
  {
    forall l: Loss | Proper(l) ensures GapOf(LossRow(l, appId)) == Some(GapOfLoss(l)) {
      LossRowRoundTrips(l, appId);
    }
    RowsReadBack(GapOf, losses, appId, rows, LossGaps(losses));
  }

  /** The audit reads back every filed loss, and nothing else changes. */
  lemma {:induction false} FiledIsRecorded(checks: seq<Check>, losses: seq<Loss>, appId: string)
    requires ProperLosses(losses)
    requires forall i :: 0 <= i < |losses| ==> LegalTopic(losses[i].topic)
    ensures var all := checks + LossRows(losses, appId);
            RecordedUpTo(all, |all|) == RecordedUpTo(checks, |checks|) + LossGaps(losses)
  {
    RowsParse(losses, appId, LossRows(losses, appId));
    RecordedGrows(checks, LossRows(losses, appId), LossGaps(losses));
  }

  lemma {:induction false} AcknowledgedConcat(a: seq<Gap>, b: seq<Gap>, t: string, p: nat)
    ensures forall o :: Acknowledged(a + b, t, p, o) <==> Acknowledged(a, t, p, o) || Acknowledged(b, t, p, o)
  {
    var all := a + b;
    forall o ensures Acknowledged(all, t, p, o) <==> Acknowledged(a, t, p, o) || Acknowledged(b, t, p, o) {
      if Acknowledged(a, t, p, o) {
        var i :| 0 <= i < |a| && a[i].topic == t && a[i].partition == p && a[i].first <= o <= a[i].last;
        assert all[i] == a[i];
      }
      if Acknowledged(b, t, p, o) {
        var i :| 0 <= i < |b| && b[i].topic == t && b[i].partition == p && b[i].first <= o <= b[i].last;
        assert all[|a| + i] == b[i];
      }
    }
  }

  lemma {:induction false} LossGapsMean(starts: OffsetMap, earliest: OffsetMap, losses: seq<Loss>, t: string, p: nat,
                                        o: int)
    requires AreLosses(starts, earliest, losses)
    ensures Acknowledged(LossGaps(losses), t, p, o) <==>
            Has(starts, t, p) && starts[t][p] <= o < Lookup(earliest, t, p, 0)
  {
    var gaps := LossGaps(losses);
    if Acknowledged(gaps, t, p, o) {
      var i :| 0 <= i < |gaps| && gaps[i].topic == t && gaps[i].partition == p && gaps[i].first <= o <= gaps[i].last;
      assert losses[i] in losses;
    }
    if Has(starts, t, p) && starts[t][p] <= o < Lookup(earliest, t, p, 0) {
      var logStart := Lookup(earliest, t, p, 0);
      var l := Loss(t, p, starts[t][p], logStart, logStart - starts[t][p]);
      assert l in losses;
      var i :| 0 <= i < |losses| && losses[i] == l;
      assert gaps[i].first <= o <= gaps[i].last;
    }
  }

  lemma {:induction false} FileOk(br: Broker, v: View, v': View, ph: Phase, losses: seq<Loss>, t: string, p: nat)
    requires ph.Planned? && PhaseOk(br, v, ph, t, p) && PositionOk(br, v, t, p) && RowsOk(v, t, p)
    requires AreLosses(ph.starts, ph.bounds.earliest, losses)
    requires v' == v.(gaps := v.gaps + LossGaps(losses))
    ensures PositionOk(br, v', t, p) && RowsOk(v', t, p)
    ensures PhaseOk(br, v', LossesFiled(ph.committed, ph.bounds, ph.starts), t, p)
  {
    AcknowledgedConcat(v.gaps, LossGaps(losses), t, p);
    forall o ensures Acknowledged(v'.gaps, t, p, o) <==> (Acknowledged(v.gaps, t, p, o) ||
        (Has(ph.starts, t, p) && ph.starts[t][p] <= o < Lookup(ph.bounds.earliest, t, p, 0)))
    {
      LossGapsMean(ph.starts, ph.bounds.earliest, losses, t, p, o);
    }
    forall o ensures Promised(v', t, p, o) == Promised(v, t, p, o) {}
  }

  lemma {:induction false} LossesAreLegal(br: Broker, v: View, ph: Phase, losses: seq<Loss>)
    requires ph.Planned? && ProcOk(br, v, ph) && BrokerOk(br)
    requires AreLosses(ph.starts, ph.bounds.earliest, losses)
    ensures forall i :: 0 <= i < |losses| ==> LegalTopic(losses[i].topic)
  {
    forall i | 0 <= i < |losses| ensures LegalTopic(losses[i].topic) {
      assert losses[i] in losses;
      assert PhaseOk(br, v, ph, losses[i].topic, losses[i].partition);
      assert TopicOk(br, losses[i].topic);
    }
  }

  lemma {:induction false} FileAllOk(br: Broker, v: View, v': View, ph: Phase, losses: seq<Loss>)
    requires ph.Planned? && ProcOk(br, v, ph) && ArchiveOk(br, v)
    requires AreLosses(ph.starts, ph.bounds.earliest, losses)
    requires v' == v.(gaps := v.gaps + LossGaps(losses))
    ensures ArchiveOk(br, v') && ProcOk(br, v', LossesFiled(ph.committed, ph.bounds, ph.starts))
  {
    forall t, p: nat
      ensures PositionOk(br, v', t, p) && RowsOk(v', t, p)
      ensures PhaseOk(br, v', LossesFiled(ph.committed, ph.bounds, ph.starts), t, p)
    {
      assert PhaseOk(br, v, ph, t, p) && PositionOk(br, v, t, p) && RowsOk(v, t, p);
      FileOk(br, v, v', ph, losses, t, p);
    }
  }

  lemma {:induction false} FileStep(s: State, a: Action)
    requires Inv(s) && Enabled(s, a) && a.FileLosses?
    ensures Inv(Next(s, a))
  {
    var ph, v := s.procs[a.pid], ViewOf(s.archive);
    assert ProcOk(s.broker, v, ph);
    LossesAreLegal(s.broker, v, ph, a.losses);
    FiledIsRecorded(s.archive.checks, a.losses, a.appId);
    FileAllOk(s.broker, v, v.(gaps := v.gaps + LossGaps(a.losses)), ph, a.losses);
  }

  // Committing.

  lemma {:induction false} CommitOk(br: Broker, v: View, v': View, ph: Phase, t: string, p: nat)
    requires ph.Fetched? && ph.committed == v.committed && PhaseOk(br, v, ph, t, p)
    requires PositionOk(br, v, t, p) && RowsOk(v, t, p)
    requires v'.committed == Merge(ph.committed, ph.ends) && v'.gaps == v.gaps
    requires v'.origin == Merge(ph.starts, v.origin) && v'.rows == v.rows + multiset(Batch(ph.starts, ph.ends))
    ensures PositionOk(br, v', t, p) && RowsOk(v', t, p)
  {
    MergeCarriesForward(ph.committed, ph.ends, t, p);
    MergeCarriesForward(ph.starts, v.origin, t, p);
    forall o ensures v'.rows[Record(t, p, o)] == if Promised(v', t, p, o) then 1 else 0 {
      var r := Record(t, p, o);
      assert r in Batch(ph.starts, ph.ends) <==>
        Has(ph.starts, t, p) && ph.starts[t][p] <= o < Lookup(ph.ends, t, p, 0);
      assert v.rows[r] == if Promised(v, t, p, o) then 1 else 0;
    }
  }

  lemma {:induction false} CommitStep(s: State, a: Action)
    requires Inv(s) && Enabled(s, a) && a.Commit?
    ensures Inv(Next(s, a))
  {
    var s', ph, v := Next(s, a), s.procs[a.pid], ViewOf(s.archive);
    LatestAfterCommit(s.archive.snapshots, Snapshot(a.at, Some(Ingest), Merge(ph.committed, ph.ends)), Ingest);
    var v' := ViewOf(s'.archive);
    assert ProcOk(s.broker, v, ph);
    forall t, p: nat ensures PositionOk(s.broker, v', t, p) && RowsOk(v', t, p) {
      assert PositionOk(s.broker, v, t, p) && RowsOk(v, t, p);
      CommitOk(s.broker, v, v', ph, t, p);
    }
  }

  // All steps.

  lemma {:induction false} QuietStep(s: State, a: Action)
    requires Inv(s) && Enabled(s, a) && !a.FileLosses? && !a.Commit?
    ensures Inv(Next(s, a))
  {
    var v := ViewOf(s.archive);
    BrokerMovesForward(s.broker, a);
    if a.Compact? || a.Expire? { MaintenanceKeepsView(s, a); }
    var br' := NextBroker(s.broker, a);
    ForwardKeeps(s.broker, br', v, s.procs);
    if a.Plan? {
      assert ProcOk(s.broker, v, s.procs[a.pid]);
      PlanOk(s.broker, v, a.maxPerPartition, a.until);
    } else if a.Skip? {
      SkipOk(s.broker, v, s.procs[a.pid]);
    } else if a.Fetch? {
      FetchOk(s.broker, v, s.procs[a.pid]);
    }
  }

  lemma {:induction false} StepKeepsInv(s: State, a: Action)
    requires Inv(s) && Enabled(s, a)
    ensures Inv(Next(s, a))
  {
    if a.FileLosses? { FileStep(s, a); }
    else if a.Commit? { CommitStep(s, a); }
    else { QuietStep(s, a); }
  }

  lemma {:induction false} InitialInv(s: State)
    requires Initial(s)
    ensures Inv(s)
  {
    assert ViewOf(s.archive) == View(map[], [], map[], multiset{});
  }

  lemma {:induction false} RunKeepsInv(s: State, run: seq<Action>)
    requires Inv(s) && Legal(s, run)
    ensures Inv(After(s, run))
    decreases |run|
  {
    if run != [] {
      StepKeepsInv(s, run[0]);
      RunKeepsInv(Next(s, run[0]), run[1..]);
    }
  }

  // ---- what that buys ----

  /**
   Exactly once, over every interleaving: each offset of a partition is archived once when it lies between the
   origin and the committed offset and no recorded loss covers it, and never otherwise.
   */
  lemma {:induction false} ExactlyOnce(s: State, run: seq<Action>, t: string, p: nat, o: int)
    requires Initial(s) && Legal(s, run)
    ensures var a := After(s, run).archive;
            var c := Committed(a);
            var lost := Acknowledged(RecordedUpTo(a.checks, |a.checks|), t, p, o);
            && a.rows[Record(t, p, o)] ==
                 (if Has(c, t, p) && Lookup(a.origin, t, p, 0) <= o < c[t][p] && !lost then 1 else 0)
            && (lost ==> a.rows[Record(t, p, o)] == 0)
  {
    InitialInv(s);
    RunKeepsInv(s, run);
    var s' := After(s, run);
    var v := ViewOf(s'.archive);
    assert PositionOk(s'.broker, v, t, p) && RowsOk(v, t, p);
  }

  /** At most one process ever runs, and the one that runs holds the lock. */
  lemma {:induction false} OneWriter(s: State, run: seq<Action>, i: nat, j: nat)
    requires Initial(s) && Legal(s, run)
    requires i in After(s, run).procs && j in After(s, run).procs
    ensures i == j && After(s, run).lock == Some(i)
  {
    InitialInv(s);
    RunKeepsInv(s, run);
  }
}
