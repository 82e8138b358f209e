/** Offset bookkeeping (docker/lake/offsets.py): where a run starts and stops, and what it must refuse. */
module Offsets {
  import opened Prelude

  const EARLIEST := -2
  const LATEST := -1

  /** `{topic: {partition: offset}}`. */
  type OffsetMap = map<string, map<nat, int>>

  predicate Has(o: OffsetMap, t: string, p: nat) {
    t in o && p in o[t]
  }

  /** `o.get(t, {}).get(p, default)`. */
  function Lookup(o: OffsetMap, t: string, p: nat, default: int): int {
    if Has(o, t, p) then o[t][p] else default
  }

  // ---- next_starting_offsets ----

  /** `{p: EARLIEST for p in range(partitions)}`. */
  function AllEarliest(partitions: nat): (r: map<nat, int>)
    ensures forall p: nat :: p in r <==> p < partitions
    ensures forall p | p in r :: r[p] == EARLIEST
  {
    if partitions == 0 then map[] else AllEarliest(partitions - 1)[partitions - 1 := EARLIEST]
  }

  function StartsOf(committed: OffsetMap, t: string, partitions: nat): map<nat, int> {
    AllEarliest(partitions) + PartsOf(committed, t)
  }

  function PartsOf(o: OffsetMap, t: string): map<nat, int> {
    if t in o then o[t] else map[]
  }

  function NextStarts(committed: OffsetMap, counts: map<string, nat>): OffsetMap {
    map t | t in counts :: StartsOf(committed, t, counts[t])
  }

  method NextStartingOffsets(committed: OffsetMap, counts: map<string, nat>) returns (out: OffsetMap)
    ensures out == NextStarts(committed, counts)
  {
    out := map[];
    var todo := counts.Keys;
    while todo != {}
      invariant todo <= counts.Keys
      invariant out.Keys == counts.Keys - todo
      invariant forall t | t in out :: out[t] == StartsOf(committed, t, counts[t])
      decreases todo
    {
      var t :| t in todo;
      out := out[t := StartsOf(committed, t, counts[t])];
      todo := todo - {t};
    }
  }

  /** A committed offset is the next start, verbatim; every other partition of the broker starts at EARLIEST. */
  lemma {:induction false} NextStartIsCommitted(committed: OffsetMap, counts: map<string, nat>, t: string, p: nat)
    ensures var r := NextStarts(committed, counts);
            && (Has(r, t, p) <==> t in counts && (Has(committed, t, p) || p < counts[t]))
            && (Has(r, t, p) ==> r[t][p] == Lookup(committed, t, p, EARLIEST))
  {}

  // ---- bounded_offsets ----

  function ResolveStart(offset: int, first: int, endOfLog: int): int {
    if offset == EARLIEST then first else if offset == LATEST then endOfLog else offset
  }

  function ResolveStop(start: int, endOfLog: int, atInstant: int, maxPerPartition: int): int {
    var stop := if atInstant >= 0 then Min(endOfLog, atInstant) else endOfLog;
    var bounded := if maxPerPartition > 0 then Min(stop, start + maxPerPartition) else stop;
    Max(bounded, start)
  }

  /** What the broker and the caller bound a read by. */
  datatype Bounds = Bounds(earliest: OffsetMap, latest: OffsetMap, maxPerPartition: int, until: Option<OffsetMap>) {
    function First(t: string, p: nat): int { Lookup(earliest, t, p, 0) }

    function EndOfLog(t: string, p: nat): int { Lookup(latest, t, p, First(t, p)) }

    function AtInstant(t: string, p: nat): int {
      if until.Some? then Lookup(until.value, t, p, -1) else -1
    }

    function Start(t: string, p: nat, offset: int): int {
      ResolveStart(offset, First(t, p), EndOfLog(t, p))
    }

    function Stop(t: string, p: nat, offset: int): int {
      ResolveStop(Start(t, p, offset), EndOfLog(t, p), AtInstant(t, p), maxPerPartition)
    }

    function Remaining(t: string, p: nat, stop: int): int {
      Max(0, EndOfLog(t, p) - stop)
    }

    function TopicStarts(t: string, parts: map<nat, int>): map<nat, int> {
      map p | p in parts :: Start(t, p, parts[p])
    }

    function TopicEnds(t: string, parts: map<nat, int>): map<nat, int> {
      map p | p in parts :: Stop(t, p, parts[p])
    }

    function Starts(starting: OffsetMap): OffsetMap {
      map t | t in starting :: TopicStarts(t, starting[t])
    }

    function Ends(starting: OffsetMap): OffsetMap {
      map t | t in starting :: TopicEnds(t, starting[t])
    }
  }

  /** The sum of a dictionary's values. */
  ghost function SumOver(m: map<nat, int>): int {
    if m == map[] then 0 else
      var p :| p in m;
      m[p] + SumOver(m - {p})
  }

  /** The sum does not depend on which entry is taken first. */
  lemma {:induction false} SumOverRemove(m: map<nat, int>, p: nat)
    requires p in m
    ensures SumOver(m) == m[p] + SumOver(m - {p})
    decreases |m|
  {
    var q :| q in m && SumOver(m) == m[q] + SumOver(m - {q});
    if q != p {
      SumOverRemove(m - {q}, p);
      SumOverRemove(m - {p}, q);
      assert m - {q} - {p} == m - {p} - {q};
    }
  }

  // ---- what the backlog counts ----

  /** The offsets from `from` up to, not including, `to`. */
  function Span(from: int, to: int): (s: set<int>)
    ensures forall o :: o in s <==> from <= o < to
    ensures |s| == Max(0, to - from)
    decreases Max(0, to - from)
  {
    if from < to then Span(from + 1, to) + {from} else {}
  }

  /** The records of a topic, by partition and offset, from the given offsets to the end of the log. */
  function Unread(b: Bounds, t: string, from: map<nat, int>): set<(nat, int)> {
    set p, o | p in from && o in Span(from[p], b.EndOfLog(t, p)) :: (p, o)
  }

  /** The records between two offsets of every partition. */
  function Between(starts: map<nat, int>, ends: map<nat, int>): set<(nat, int)> {
    set p, o | p in starts && p in ends && o in Span(starts[p], ends[p]) :: (p, o)
  }

  function Tagged(p: nat, s: set<int>): set<(nat, int)> {
    set o | o in s :: (p, o)
  }

  lemma {:induction false} TaggedSize(p: nat, s: set<int>)
    ensures |Tagged(p, s)| == |s|
  {
    if s != {} {
      SomeElement(s);
      var o: int :| o in s;
      TaggedSize(p, s - {o});
      assert Tagged(p, s) == Tagged(p, s - {o}) + {(p, o)};
    } else {
      assert Tagged(p, s) == {};
    }
  }

  /** One partition more or less. */
  lemma {:induction false} UnreadSplit(b: Bounds, t: string, from: map<nat, int>, p: nat)
    requires p in from
    ensures |Unread(b, t, from)| == |Span(from[p], b.EndOfLog(t, p))| + |Unread(b, t, from - {p})|
  {
    var mine := Tagged(p, Span(from[p], b.EndOfLog(t, p)));
    TaggedSize(p, Span(from[p], b.EndOfLog(t, p)));
    assert Unread(b, t, from) == mine + Unread(b, t, from - {p});
    assert mine !! Unread(b, t, from - {p});
  }

  /** How far each partition's end is from the end of its log. */
  function LeftOver(b: Bounds, t: string, ends: map<nat, int>): map<nat, int> {
    map p | p in ends :: b.Remaining(t, p, ends[p])
  }

  lemma {:induction false} LeftOverAdd(b: Bounds, t: string, ends: map<nat, int>, p: nat, stop: int)
    requires p !in ends
    ensures SumOver(LeftOver(b, t, ends[p := stop])) == SumOver(LeftOver(b, t, ends)) + b.Remaining(t, p, stop)
  {
    SumOverRemove(LeftOver(b, t, ends[p := stop]), p);
    assert LeftOver(b, t, ends[p := stop]) - {p} == LeftOver(b, t, ends);
  }

  lemma {:induction false} SumIsUnread(b: Bounds, t: string, ends: map<nat, int>)
    ensures SumOver(LeftOver(b, t, ends)) == |Unread(b, t, ends)|
    decreases |ends|
  {
    if ends == map[] {
      assert LeftOver(b, t, ends) == map[] && Unread(b, t, ends) == {};
    } else {
      var p :| p in ends;
      SumOverRemove(LeftOver(b, t, ends), p);
      assert LeftOver(b, t, ends) - {p} == LeftOver(b, t, ends - {p});
      UnreadSplit(b, t, ends, p);
      SumIsUnread(b, t, ends - {p});
    }
  }

  /** Nothing is left of a topic exactly when every partition is read to the end of its log. */
  lemma {:induction false} NothingUnreadIff(b: Bounds, t: string, ends: map<nat, int>)
    ensures |Unread(b, t, ends)| == 0 <==> forall p | p in ends :: ends[p] >= b.EndOfLog(t, p)
  {
    if p :| p in ends && ends[p] < b.EndOfLog(t, p) {
      assert ends[p] in Span(ends[p], b.EndOfLog(t, p)) && (p, ends[p]) in Unread(b, t, ends);
    } else {
      assert Unread(b, t, ends) == {};
    }
  }

  // ---- the loops ----

  method BoundPartition(b: Bounds, t: string, p: nat, offset: int) returns (start: int, stop: int, left: int)
    ensures start == b.Start(t, p, offset) && stop == b.Stop(t, p, offset)
    ensures left == b.Remaining(t, p, stop)
  {
    var first := Lookup(b.earliest, t, p, 0);
    var endOfLog := Lookup(b.latest, t, p, first);
    start := offset;
    if start == EARLIEST {
      start := first;
    } else if start == LATEST {
      start := endOfLog;
    }
    stop := endOfLog;
    if b.until.Some? {
      var atInstant := Lookup(b.until.value, t, p, -1);
      if atInstant >= 0 {
        stop := Min(stop, atInstant);
      }
    }
    if b.maxPerPartition > 0 {
      stop := Min(stop, start + b.maxPerPartition);
    }
    stop := Max(stop, start);
    left := Max(0, endOfLog - stop);
  }

  method BoundTopic(b: Bounds, t: string, parts: map<nat, int>)
    returns (starts: map<nat, int>, ends: map<nat, int>, left: int)
    ensures starts == b.TopicStarts(t, parts) && ends == b.TopicEnds(t, parts)
    ensures left == SumOver(LeftOver(b, t, ends))
  {
    starts, ends, left := map[], map[], 0;
    var todo := parts.Keys;
    while todo != {}
      invariant todo <= parts.Keys
      invariant starts.Keys == ends.Keys == parts.Keys - todo
      invariant forall p | p in starts :: starts[p] == b.Start(t, p, parts[p])
      invariant forall p | p in ends :: ends[p] == b.Stop(t, p, parts[p])
      invariant left == SumOver(LeftOver(b, t, ends))
      decreases todo
    {
      var p :| p in todo;
      var start, stop, leftover := BoundPartition(b, t, p, parts[p]);
      LeftOverAdd(b, t, ends, p, stop);
      starts, ends := starts[p := start], ends[p := stop];
      left := left + leftover;
      todo := todo - {p};
    }
  }

  method BoundedOffsets(starting: OffsetMap, b: Bounds)
    returns (starts: OffsetMap, ends: OffsetMap, backlog: map<string, int>)
    ensures starts == b.Starts(starting) && ends == b.Ends(starting)
    ensures backlog.Keys == starting.Keys
    ensures forall t | t in starting :: backlog[t] == |Unread(b, t, ends[t])|
  {
    starts, ends, backlog := map[], map[], map[];
    var todo := starting.Keys;
    while todo != {}
      invariant todo <= starting.Keys
      invariant starts.Keys == ends.Keys == backlog.Keys == starting.Keys - todo
      invariant forall t | t in starts :: starts[t] == b.TopicStarts(t, starting[t])
      invariant forall t | t in ends :: ends[t] == b.TopicEnds(t, starting[t])
      invariant forall t | t in backlog :: backlog[t] == SumOver(LeftOver(b, t, b.TopicEnds(t, starting[t])))
      decreases todo
    {
      var t :| t in todo;
      var s, e, left := BoundTopic(b, t, starting[t]);
      starts, ends, backlog := starts[t := s], ends[t := e], backlog[t := left];
      todo := todo - {t};
    }
    BacklogIsUnread(starting, b, backlog);
  }

  lemma {:induction false} BacklogIsUnread(starting: OffsetMap, b: Bounds, backlog: map<string, int>)
    requires backlog.Keys == starting.Keys
    requires forall t | t in starting :: backlog[t] == SumOver(LeftOver(b, t, b.TopicEnds(t, starting[t])))
    ensures forall t | t in starting :: backlog[t] == |Unread(b, t, b.Ends(starting)[t])|
  {
    forall t | t in starting ensures backlog[t] == |Unread(b, t, b.Ends(starting)[t])| {
      SumIsUnread(b, t, b.TopicEnds(t, starting[t]));
    }
  }

  /** The three bounds on a run's end, for every partition and every broker answer. */
  lemma {:induction false} EndIsBounded(b: Bounds, t: string, p: nat, offset: int)
    ensures var start, stop := b.Start(t, p, offset), b.Stop(t, p, offset);
            && start <= stop <= Max(start, b.EndOfLog(t, p))
            && (b.maxPerPartition > 0 ==> stop <= start + b.maxPerPartition)
            && (b.until.Some? && b.AtInstant(t, p) >= 0 ==> stop <= Max(start, b.AtInstant(t, p)))
            && (start == stop <==> start >= b.EndOfLog(t, p) || (b.AtInstant(t, p) >= 0 && start >= b.AtInstant(t, p)))
            && (stop == start || stop == b.EndOfLog(t, p) || (b.AtInstant(t, p) >= 0 && stop == b.AtInstant(t, p))
                || (b.maxPerPartition > 0 && stop == start + b.maxPerPartition))
            && (offset == -2 && !Has(b.latest, t, p) ==> start == stop)
            && (offset == -2 && Has(b.earliest, t, p) ==> start == b.earliest[t][p])
            && (offset == -1 && Has(b.latest, t, p) ==> start == stop == b.latest[t][p])
            && (offset >= 0 ==> start == offset)
  {}

  /** What was unread splits into what the run takes and its backlog, record by record. */
  lemma {:induction false} UnreadIsTakenAndLeft(b: Bounds, t: string, parts: map<nat, int>)
    ensures var starts, ends := b.TopicStarts(t, parts), b.TopicEnds(t, parts);
            && Unread(b, t, starts) == Between(starts, ends) + Unread(b, t, ends)
            && Between(starts, ends) !! Unread(b, t, ends)
            && |Unread(b, t, starts)| == |Between(starts, ends)| + |Unread(b, t, ends)|
  {
    var starts, ends := b.TopicStarts(t, parts), b.TopicEnds(t, parts);
    forall p | p in parts ensures starts[p] <= ends[p] <= Max(starts[p], b.EndOfLog(t, p)) {
      EndIsBounded(b, t, p, parts[p]);
    }
    forall x ensures x in Unread(b, t, starts) <==> x in Between(starts, ends) || x in Unread(b, t, ends) {}
  }

  // ---- evicted and skip_evicted ----

  datatype Loss = Loss(topic: string, partition: nat, start: int, logStart: int, lost: int)

  predicate IsLoss(starts: OffsetMap, earliest: OffsetMap, l: Loss) {
    && Has(starts, l.topic, l.partition)
    && l.start == starts[l.topic][l.partition]
    && l.logStart == Lookup(earliest, l.topic, l.partition, 0)
    && l.start < l.logStart
    && l.lost == l.logStart - l.start
  }

  /** `losses` names every evicted partition of `starts`, each one once. */
  ghost predicate AreLosses(starts: OffsetMap, earliest: OffsetMap, losses: seq<Loss>) {
    && (forall l :: l in losses <==> IsLoss(starts, earliest, l))
    && (forall i, j :: 0 <= i < j < |losses| ==>
          losses[i].topic != losses[j].topic || losses[i].partition < losses[j].partition)
  }

  lemma {:induction false} LeastExists(s: set<nat>)
    requires s != {}
    ensures exists p :: p in s && forall q | q in s :: p <= q
  {
    var p :| p in s;
    if q :| q in s && q < p {
      assert q in s - {p};
      LeastExists(s - {p});
      var least :| least in s - {p} && forall r | r in s - {p} :: least <= r;
      assert forall r | r in s :: r in s - {p} || r == p;
      assert least in s && forall r | r in s :: least <= r;
    }
  }

  method EvictedIn(t: string, parts: map<nat, int>, earliest: OffsetMap) returns (losses: seq<Loss>)
    ensures forall l :: l in losses <==> l.topic == t && IsLoss(map[t := parts], earliest, l)
    ensures forall i, j :: 0 <= i < j < |losses| ==> losses[i].partition < losses[j].partition
  {
    losses := [];
    var todo := parts.Keys;
    while todo != {}
      invariant todo <= parts.Keys
      invariant forall p, q | p in todo && q in parts.Keys - todo :: q < p
      invariant forall l :: l in losses <==>
                  l.topic == t && l.partition !in todo && IsLoss(map[t := parts], earliest, l)
      invariant forall i, j :: 0 <= i < j < |losses| ==> losses[i].partition < losses[j].partition
      decreases todo
    {
      LeastExists(todo);
      var p: nat :| p in todo && forall q | q in todo :: p <= q;
      assert forall q | q in parts.Keys - todo :: q < p;
      var logStart := Lookup(earliest, t, p, 0);
      ghost var before := losses;
      if parts[p] < logStart {
        losses := losses + [Loss(t, p, parts[p], logStart, logStart - parts[p])];
        forall i | 0 <= i < |before| ensures before[i].partition < p {
          assert before[i] in before;
          assert before[i].partition in parts.Keys - todo;
        }
      }
      forall r, q | r in todo - {p} && q in parts.Keys - (todo - {p}) ensures q < r {
        assert q == p || q in parts.Keys - todo;
      }
      todo := todo - {p};
    }
  }

  method Evicted(starts: OffsetMap, earliest: OffsetMap) returns (losses: seq<Loss>)
    ensures AreLosses(starts, earliest, losses)
  {
    losses := [];
    var todo := starts.Keys;
    while todo != {}
      invariant todo <= starts.Keys
      invariant forall l :: l in losses <==> l.topic !in todo && IsLoss(starts, earliest, l)
      invariant forall i, j :: 0 <= i < j < |losses| ==>
                  losses[i].topic != losses[j].topic || losses[i].partition < losses[j].partition
      decreases todo
    {
      var t :| t in todo;
      var more := EvictedIn(t, starts[t], earliest);
      forall i, j | 0 <= i < |losses| && 0 <= j < |more| ensures losses[i].topic != more[j].topic {
        assert losses[i] in losses && more[j] in more;
      }
      losses := losses + more;
      todo := todo - {t};
    }
  }

  /** Every start at or above the broker's log start. */
  function RaiseTopic(t: string, parts: map<nat, int>, earliest: OffsetMap): map<nat, int> {
    map p | p in parts :: Max(parts[p], Lookup(earliest, t, p, 0))
  }

  function RaiseToLogStart(starts: OffsetMap, earliest: OffsetMap): OffsetMap {
    map t | t in starts :: RaiseTopic(t, starts[t], earliest)
  }

  ghost predicate Moved(losses: seq<Loss>, n: nat, t: string, p: nat)
    requires n <= |losses|
  {
    exists i :: 0 <= i < n && losses[i].topic == t && losses[i].partition == p
  }

  method SkipEvicted(starts: OffsetMap, ghost earliest: OffsetMap, losses: seq<Loss>) returns (repaired: OffsetMap)
    requires AreLosses(starts, earliest, losses)
    ensures repaired == RaiseToLogStart(starts, earliest)
  {
    repaired := starts;
    for i := 0 to |losses|
      invariant repaired.Keys == starts.Keys
      invariant forall t | t in starts :: repaired[t].Keys == starts[t].Keys
      invariant forall t, p | Has(starts, t, p) :: repaired[t][p] ==
                  if Moved(losses, i, t, p) then Lookup(earliest, t, p, 0) else starts[t][p]
    {
      var l := losses[i];
      assert l in losses;
      var parts: map<nat, int> := repaired[l.topic];
      repaired := repaired[l.topic := parts[l.partition := l.logStart]];
      assert forall t, p :: Moved(losses, i + 1, t, p) <==>
               Moved(losses, i, t, p) || (t == l.topic && p == l.partition);
    }
    forall t, p | Has(starts, t, p)
      ensures repaired[t][p] == Max(starts[t][p], Lookup(earliest, t, p, 0))
    {
      var logStart := Lookup(earliest, t, p, 0);
      var l := Loss(t, p, starts[t][p], logStart, logStart - starts[t][p]);
      if starts[t][p] < logStart {
        assert l in losses;
      } else {
        forall i | 0 <= i < |losses| ensures losses[i].topic != t || losses[i].partition != p {
          assert losses[i] in losses;
        }
      }
    }
    forall t | t in starts ensures repaired[t] == RaiseTopic(t, starts[t], earliest) {
      forall p | p in starts[t] ensures repaired[t][p] == RaiseTopic(t, starts[t], earliest)[p] {
        assert Has(starts, t, p);
      }
    }
  }

  /** The repair heals: nothing it returns is still evicted, and no healthy partition moved. */
  lemma {:induction false} RepairHeals(starts: OffsetMap, earliest: OffsetMap, t: string, p: nat)
    requires Has(starts, t, p)
    ensures var repaired := RaiseToLogStart(starts, earliest);
            && Has(repaired, t, p)
            && (forall l :: !IsLoss(repaired, earliest, l))
            && (starts[t][p] >= Lookup(earliest, t, p, 0) ==> repaired[t][p] == starts[t][p])
            && (starts[t][p] < Lookup(earliest, t, p, 0) ==> repaired[t][p] == Lookup(earliest, t, p, 0))
  {}

  // ---- merge_committed ----

  function MergeTopic(previous: OffsetMap, produced: OffsetMap, t: string): map<nat, int> {
    PartsOf(previous, t) + PartsOf(produced, t)
  }

  function Merge(previous: OffsetMap, produced: OffsetMap): OffsetMap {
    map t | t in previous.Keys + produced.Keys :: MergeTopic(previous, produced, t)
  }

  method MergeCommitted(previous: OffsetMap, produced: OffsetMap) returns (merged: OffsetMap)
    ensures merged == Merge(previous, produced)
  {
    merged := previous;
    var todo := produced.Keys;
    while todo != {}
      invariant todo <= produced.Keys
      invariant merged.Keys == previous.Keys + (produced.Keys - todo)
      invariant forall t | t in merged ::
                  merged[t] == if t in todo then PartsOf(previous, t) else MergeTopic(previous, produced, t)
      decreases todo
    {
      var t :| t in todo;
      var parts := PartsOf(merged, t) + produced[t];
      assert parts == MergeTopic(previous, produced, t);
      merged := merged[t := parts];
      todo := todo - {t};
    }
  }

  /** Quiet partitions are carried forward; produced ones win. */
  lemma {:induction false} MergeCarriesForward(previous: OffsetMap, produced: OffsetMap, t: string, p: nat)
    ensures var m := Merge(previous, produced);
            && (Has(m, t, p) <==> Has(previous, t, p) || Has(produced, t, p))
            && (Has(m, t, p) ==> m[t][p] == if Has(produced, t, p) then produced[t][p] else previous[t][p])
  {}

  // ---- latest_summary ----

  datatype Job = Ingest | Decode | Maintenance

  /** One entry of `<table>.snapshots`; a maintenance snapshot carries no job of ours. */
  datatype Snapshot<+F> = Snapshot(committedAt: int, job: Option<Job>, facts: F)

  /** The newest of the first `n` snapshots written by `job`, first among equals as `max` has it. */
  function NewestAmong<F>(snapshots: seq<Snapshot<F>>, n: nat, job: Job): (r: Option<nat>)
    requires n <= |snapshots|
    ensures r.Some? ==> r.value < n && snapshots[r.value].job == Some(job)
    ensures forall i :: 0 <= i < n && snapshots[i].job == Some(job) ==>
                          r.Some? && snapshots[i].committedAt <= snapshots[r.value].committedAt
  {
    if n == 0 then None else
      var rest := NewestAmong(snapshots, n - 1, job);
      var s := snapshots[n - 1];
      if s.job == Some(job) && (rest.None? || s.committedAt > snapshots[rest.value].committedAt) then Some(n - 1)
      else rest
  }

  function NewestIndex<F>(snapshots: seq<Snapshot<F>>, job: Job): (r: Option<nat>)
    ensures r.Some? ==> r.value < |snapshots| && snapshots[r.value].job == Some(job)
    ensures forall i :: 0 <= i < |snapshots| && snapshots[i].job == Some(job) ==>
                          r.Some? && snapshots[i].committedAt <= snapshots[r.value].committedAt
  {
    NewestAmong(snapshots, |snapshots|, job)
  }

  function LatestSummary<F>(snapshots: seq<Snapshot<F>>, job: Job): Option<F> {
    var i := NewestIndex(snapshots, job);
    if i.Some? then Some(snapshots[i.value].facts) else None
  }

  /** Commits are serialised: the history is strictly ordered by time. */
  ghost predicate Chronological<F>(snapshots: seq<Snapshot<F>>) {
    forall i, j :: 0 <= i < j < |snapshots| ==> snapshots[i].committedAt < snapshots[j].committedAt
  }

  /** In a chronological history a new commit of `job` is the newest one, and any other commit hides nothing. */
  lemma {:induction false} LatestAfterCommit<F>(snapshots: seq<Snapshot<F>>, s: Snapshot<F>, job: Job)
    requires Chronological(snapshots + [s])
    ensures LatestSummary(snapshots + [s], job) ==
            if s.job == Some(job) then Some(s.facts) else LatestSummary(snapshots, job)
  {
    var all := snapshots + [s];
    SamePrefix(snapshots, all, |snapshots|, job);
    var rest := NewestIndex(snapshots, job);
    if rest.Some? {
      assert all[rest.value].committedAt < all[|snapshots|].committedAt;
    }
  }

  lemma {:induction false} SamePrefix<F>(a: seq<Snapshot<F>>, b: seq<Snapshot<F>>, n: nat, job: Job)
    requires n <= |a| && n <= |b| && forall i :: 0 <= i < n ==> a[i] == b[i]
    ensures NewestAmong(a, n, job) == NewestAmong(b, n, job)
  {
    if n > 0 { SamePrefix(a, b, n - 1, job); }
  }

  /** In a chronological history the newest snapshot of `job` is the last one it wrote. */
  lemma {:induction false} NewestIsLast<F>(snapshots: seq<Snapshot<F>>, job: Job, k: nat)
    requires Chronological(snapshots) && k < |snapshots| && snapshots[k].job == Some(job)
    requires forall i :: k < i < |snapshots| ==> snapshots[i].job != Some(job)
    ensures NewestIndex(snapshots, job) == Some(k)
  {}

  function Without<T>(s: seq<T>, k: nat): (r: seq<T>)
    requires k < |s|
    ensures |r| == |s| - 1
    ensures forall j :: 0 <= j < |r| ==> r[j] == s[if j < k then j else j + 1]
  {
    seq(|s| - 1, j requires 0 <= j < |s| - 1 => s[if j < k then j else j + 1])
  }

  lemma {:induction false} WithoutKeepsOrder<F>(snapshots: seq<Snapshot<F>>, k: nat)
    requires Chronological(snapshots) && k < |snapshots|
    ensures Chronological(Without(snapshots, k))
  {}

  /** Past the newest snapshot of `job` nothing of `job` was committed. */
  lemma {:induction false} NothingAfterNewest<F>(snapshots: seq<Snapshot<F>>, job: Job, j: nat)
    requires Chronological(snapshots) && NewestIndex(snapshots, job).Some?
    requires NewestIndex(snapshots, job).value < j < |snapshots|
    ensures snapshots[j].job != Some(job)
  {
    assert snapshots[NewestIndex(snapshots, job).value].committedAt < snapshots[j].committedAt;
  }

  lemma {:induction false} NewestWithout<F>(snapshots: seq<Snapshot<F>>, k: nat, job: Job, i: nat)
    requires Chronological(snapshots) && k < |snapshots| && NewestIndex(snapshots, job) == Some(i) && i != k
    ensures NewestIndex(Without(snapshots, k), job) == Some(if i < k then i else i - 1)
  {
    WithoutKeepsOrder(snapshots, k);
    var rest, i' := Without(snapshots, k), if i < k then i else i - 1;
    forall j: nat | i' < j < |rest| ensures rest[j].job != Some(job) {
      NothingAfterNewest(snapshots, job, if j < k then j else j + 1);
    }
    NewestIsLast(rest, job, i');
  }

  /** Expiring any snapshot but the newest of `job` leaves the resume point where it was. */
  lemma {:induction false} LatestAfterExpiry<F>(snapshots: seq<Snapshot<F>>, k: nat, job: Job)
    requires Chronological(snapshots) && k < |snapshots| && NewestIndex(snapshots, job) != Some(k)
    ensures LatestSummary(Without(snapshots, k), job) == LatestSummary(snapshots, job)
  {
    if NewestIndex(snapshots, job).Some? {
      NewestWithout(snapshots, k, job, NewestIndex(snapshots, job).value);
    }
  }
}
