/** The bounded run drains a backlog (docker/lake/offsets.py, docker/lake/ingest.py). */
module Drain {
  import opened Prelude
  import opened Offsets

  /** The lag after one cycle: records arrive, then one run takes at most `m` of them. */
  function LagAfterRun(lag: nat, arrived: nat, m: int): nat {
    var latest := lag + arrived;
    latest - ResolveStop(0, latest, -1, m)
  }

  /** The lag after a cycle per entry of `arrivals`. */
  function LagAfter(lag: nat, arrivals: seq<nat>, m: int): nat
    decreases |arrivals|
  {
    if arrivals == [] then lag else LagAfter(LagAfterRun(lag, arrivals[0], m), arrivals[1..], m)
  }

  /** The arithmetic is the same wherever the log stands. */
  lemma {:induction false} LagIsDistance(committed: int, latest: int, arrived: nat, m: int)
    requires committed <= latest
    ensures (latest + arrived) - ResolveStop(committed, latest + arrived, -1, m) ==
            LagAfterRun(latest - committed, arrived, m)
  {}

  /** With a bound above the arrival rate, every cycle takes `m - a` off the backlog until nothing is left. */
  lemma {:induction false} BacklogDrains(lag: nat, arrivals: seq<nat>, a: nat, m: int)
    requires a < m && forall i :: 0 <= i < |arrivals| ==> arrivals[i] <= a
    ensures LagAfter(lag, arrivals, m) <= Max(0, lag - |arrivals| * (m - a))
    decreases |arrivals|
  {
    if arrivals != [] {
      BacklogDrains(LagAfterRun(lag, arrivals[0], m), arrivals[1..], a, m);
      OneCycleDrains(lag, arrivals[0], a, m, |arrivals[1..]|);
    }
  }

  lemma {:induction false} OneCycleDrains(lag: nat, arrived: nat, a: nat, m: int, n: nat)
    requires arrived <= a < m
    ensures Max(0, LagAfterRun(lag, arrived, m) - n * (m - a)) <= Max(0, lag - (n + 1) * (m - a))
  {
    var d := m - a;
    assert (n + 1) * d == n * d + d;
    assert LagAfterRun(lag, arrived, m) <= Max(0, lag - d);
    Scale(0, n, d);
  }

  /** And a bound below it never catches up: the first default's failure. */
  lemma {:induction false} BacklogGrows(lag: nat, arrivals: seq<nat>, a: nat, m: int)
    requires 0 < m <= a && forall i :: 0 <= i < |arrivals| ==> arrivals[i] >= a
    ensures LagAfter(lag, arrivals, m) >= lag + |arrivals| * (a - m)
    decreases |arrivals|
  {
    if arrivals != [] {
      BacklogGrows(LagAfterRun(lag, arrivals[0], m), arrivals[1..], a, m);
      var n, d := |arrivals[1..]|, a - m;
      assert (n + 1) * d == n * d + d;
    }
  }

  // ---- the backlog a run reports ----

  /** The arrivals are what each partition's log grows by before each run; no run is bounded by an instant. */
  ghost predicate Arriving(bs: seq<Bounds>, t: string, p: nat, latest: int, arrivals: seq<nat>, m: int) {
    && |bs| == |arrivals|
    && forall i :: 0 <= i < |bs| ==>
         && bs[i].maxPerPartition == m && bs[i].until.None?
         && bs[i].EndOfLog(t, p) == latest + Arrived(arrivals, i + 1)
  }

  /** What has arrived before run `n` has read. */
  function Arrived(arrivals: seq<nat>, n: nat): nat
    requires n <= |arrivals|
  {
    if n == 0 then 0 else Arrived(arrivals, n - 1) + arrivals[n - 1]
  }

  /** Where a topic's partitions have been read to after `n` runs, each starting where the last one ended. */
  function EndsAfter(bs: seq<Bounds>, t: string, parts: map<nat, int>, n: nat): map<nat, int>
    requires n <= |bs|
  {
    if n == 0 then parts else bs[n - 1].TopicEnds(t, EndsAfter(bs, t, parts, n - 1))
  }

  lemma {:induction false} LagAppend(lag: nat, arrivals: seq<nat>, arrived: nat, m: int)
    ensures LagAfter(lag, arrivals + [arrived], m) == LagAfterRun(LagAfter(lag, arrivals, m), arrived, m)
    decreases |arrivals|
  {
    if arrivals == [] {
      assert [arrived][1..] == [] && arrivals + [arrived] == [arrived];
    } else {
      LagAppend(LagAfterRun(lag, arrivals[0], m), arrivals[1..], arrived, m);
      assert (arrivals + [arrived])[1..] == arrivals[1..] + [arrived];
    }
  }

  lemma {:induction false} EndsKeepKeys(bs: seq<Bounds>, t: string, parts: map<nat, int>, n: nat)
    requires n <= |bs|
    ensures EndsAfter(bs, t, parts, n).Keys == parts.Keys
  {
    if n > 0 { EndsKeepKeys(bs, t, parts, n - 1); }
  }

  lemma {:induction false} OneRunLeaves(b: Bounds, t: string, p: nat, from: int, latest: int, arrived: nat, m: int)
    requires b.maxPerPartition == m && b.until.None? && 0 <= from <= latest && b.EndOfLog(t, p) == arrived + latest
    ensures b.Stop(t, p, from) >= from
    ensures b.EndOfLog(t, p) - b.Stop(t, p, from) == LagAfterRun(latest - from, arrived, m)
  {
    LagIsDistance(from, latest, arrived, m);
  }

  /** After `n` runs what a partition has left is its lag. */
  ghost predicate AtLag(bs: seq<Bounds>, t: string, parts: map<nat, int>, p: nat, latest: int, arrivals: seq<nat>,
                        m: int, n: nat)
    requires n <= |bs| == |arrivals| && p in parts && parts[p] <= latest
  {
    var ends := EndsAfter(bs, t, parts, n);
    && p in ends && parts[p] <= ends[p]
    && latest + Arrived(arrivals, n) - ends[p] == LagAfter(latest - parts[p], arrivals[..n], m)
  }

  lemma {:induction false} LeftIsLag(bs: seq<Bounds>, t: string, parts: map<nat, int>, p: nat, latest: int,
                                     arrivals: seq<nat>, m: int, n: nat)
    requires Arriving(bs, t, p, latest, arrivals, m) && n <= |bs| && p in parts && 0 <= parts[p] <= latest
    ensures AtLag(bs, t, parts, p, latest, arrivals, m, n)
  {
    if n > 0 {
      LeftIsLag(bs, t, parts, p, latest, arrivals, m, n - 1);
      NextAtLag(bs, t, parts, p, latest, arrivals, m, n);
    }
  }

  lemma {:induction false} NextAtLag(bs: seq<Bounds>, t: string, parts: map<nat, int>, p: nat, latest: int,
                                     arrivals: seq<nat>, m: int, n: nat)
    requires Arriving(bs, t, p, latest, arrivals, m) && 0 < n <= |bs| && p in parts && 0 <= parts[p] <= latest
    requires AtLag(bs, t, parts, p, latest, arrivals, m, n - 1)
    ensures AtLag(bs, t, parts, p, latest, arrivals, m, n)
  {
    var from := EndsAfter(bs, t, parts, n - 1)[p];
    EndsNext(bs, t, parts, n, p);
    OneRunLeaves(bs[n - 1], t, p, from, latest + Arrived(arrivals, n - 1), arrivals[n - 1], m);
    NextLag(latest - parts[p], arrivals, m, n);
  }

  lemma {:induction false} EndsNext(bs: seq<Bounds>, t: string, parts: map<nat, int>, n: nat, p: nat)
    requires 0 < n <= |bs| && p in EndsAfter(bs, t, parts, n - 1)
    ensures p in EndsAfter(bs, t, parts, n)
    ensures EndsAfter(bs, t, parts, n)[p] == bs[n - 1].Stop(t, p, EndsAfter(bs, t, parts, n - 1)[p])
  {}

  lemma {:induction false} NextLag(lag: nat, arrivals: seq<nat>, m: int, n: nat)
    requires 0 < n <= |arrivals|
    ensures LagAfter(lag, arrivals[..n], m) == LagAfterRun(LagAfter(lag, arrivals[..n - 1], m), arrivals[n - 1], m)
  {
    LagAppend(lag, arrivals[..n - 1], arrivals[n - 1], m);
    assert arrivals[..n] == arrivals[..n - 1] + [arrivals[n - 1]];
  }

  lemma {:induction false} PartitionDrains(bs: seq<Bounds>, t: string, parts: map<nat, int>, p: nat, latest: int,
                                           arrivals: seq<nat>, a: nat, m: int)
    requires bs != [] && a < m && Arriving(bs, t, p, latest, arrivals, m) && p in parts && 0 <= parts[p] <= latest
    requires forall i | 0 <= i < |arrivals| :: arrivals[i] <= a
    ensures p in EndsAfter(bs, t, parts, |bs|)
    ensures bs[|bs| - 1].EndOfLog(t, p) - EndsAfter(bs, t, parts, |bs|)[p] <=
            Max(0, latest - parts[p] - |bs| * (m - a))
  {
    LeftIsLag(bs, t, parts, p, latest, arrivals, m, |bs|);
    assert arrivals[..|bs|] == arrivals;
    BacklogDrains(latest - parts[p], arrivals, a, m);
  }

  lemma {:induction false} SumBounds(m: map<nat, int>, n: map<nat, int>)
    requires m.Keys == n.Keys && forall p | p in m :: m[p] <= n[p]
    ensures SumOver(m) <= SumOver(n)
    decreases |m|
  {
    if m == map[] {
      assert n == map[];
    } else {
      var p :| p in m;
      SumOverRemove(m, p);
      SumOverRemove(n, p);
      SumBounds(m - {p}, n - {p});
    }
  }

  /** Every partition starts inside its log and gains its arrivals run by run. */
  ghost predicate Steady(bs: seq<Bounds>, t: string, parts: map<nat, int>, latest: map<nat, int>,
                         arrivals: map<nat, seq<nat>>, m: int)
  {
    && latest.Keys == arrivals.Keys == parts.Keys
    && forall p | p in parts :: 0 <= parts[p] <= latest[p] && Arriving(bs, t, p, latest[p], arrivals[p], m)
  }

  /** What is left of each partition's lag once every run has taken `d` off it. */
  function Drained(parts: map<nat, int>, latest: map<nat, int>, n: nat, d: int): map<nat, int>
    requires latest.Keys == parts.Keys
  {
    map p | p in parts :: Max(0, latest[p] - parts[p] - n * d)
  }

  /**
   The backlog the last of `n` runs reports for a topic, when no partition gains more than `a` a run and the bound is
   `m`: every partition's lag less `m - a` a run. It is zero once each lag has been taken off.
   */
  lemma {:induction false} ReportedBacklogDrains(bs: seq<Bounds>, t: string, parts: map<nat, int>,
                                                 latest: map<nat, int>, arrivals: map<nat, seq<nat>>, a: nat, m: int)
    requires bs != [] && a < m && Steady(bs, t, parts, latest, arrivals, m)
    requires forall p, i | p in parts && 0 <= i < |bs| :: arrivals[p][i] <= a
    ensures var unread := Unread(bs[|bs| - 1], t, EndsAfter(bs, t, parts, |bs|));
            && |unread| <= SumOver(Drained(parts, latest, |bs|, m - a))
            && ((forall p | p in parts :: latest[p] - parts[p] <= |bs| * (m - a)) ==> |unread| == 0)
  {
    var b, n, ends := bs[|bs| - 1], |bs|, EndsAfter(bs, t, parts, |bs|);
    EndsKeepKeys(bs, t, parts, n);
    forall p | p in parts
      ensures LeftOver(b, t, ends)[p] <= Drained(parts, latest, n, m - a)[p]
      ensures latest[p] - parts[p] <= n * (m - a) ==> ends[p] >= b.EndOfLog(t, p)
    {
      PartitionDrains(bs, t, parts, p, latest[p], arrivals[p], a, m);
    }
    SumBounds(LeftOver(b, t, ends), Drained(parts, latest, n, m - a));
    SumIsUnread(b, t, ends);
    NothingUnreadIff(b, t, ends);
  }
}
