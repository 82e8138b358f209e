/** The nightly offset-continuity audit (docker/lake/maintenance.py): counts, holes, and recorded losses netted. */
module Audit {
  import opened Digits
  import opened Gaps

  /** The archived offsets of one partition, as `ORDER BY offset` returns them. */
  datatype Group = Group(topic: string, partition: nat, offsets: seq<int>)

  ghost predicate Ascending(os: seq<int>) {
    forall i, j :: 0 <= i < j < |os| ==> os[i] <= os[j]
  }

  /** No offset was written twice. */
  ghost predicate Strict(os: seq<int>) {
    forall i, j :: 0 <= i < j < |os| ==> os[i] < os[j]
  }

  ghost predicate ValidGroup(g: Group) {
    g.offsets != [] && Ascending(g.offsets)
  }

  /** `GROUP BY topic, partition`. */
  ghost predicate Grouped(groups: seq<Group>) {
    && (forall i :: 0 <= i < |groups| ==> ValidGroup(groups[i]))
    && (forall i, j :: 0 <= i < j < |groups| ==>
          groups[i].topic != groups[j].topic || groups[i].partition != groups[j].partition)
  }

  function Span(os: seq<int>): int
    requires os != []
  {
    os[|os| - 1] - os[0] + 1
  }

  // ---- offset_gaps ----

  datatype Failure = Failure(scope: string, observed: int)

  function FailureOf(g: Group): seq<Failure>
    requires g.offsets != []
  {
    if Span(g.offsets) == |g.offsets| then []
    else [Failure(ScopeOf(g.topic, g.partition), Span(g.offsets) - |g.offsets|)]
  }

  function FailuresUpTo(groups: seq<Group>, n: nat): seq<Failure>
    requires n <= |groups| && forall i :: 0 <= i < n ==> groups[i].offsets != []
  {
    if n == 0 then [] else FailuresUpTo(groups, n - 1) + FailureOf(groups[n - 1])
  }

  method OffsetGaps(groups: seq<Group>) returns (failures: seq<Failure>)
    requires forall i :: 0 <= i < |groups| ==> groups[i].offsets != []
    ensures failures == FailuresUpTo(groups, |groups|)
  {
    failures := [];
    for i := 0 to |groups|
      invariant failures == FailuresUpTo(groups, i)
    {
      var expected := groups[i].offsets[|groups[i].offsets| - 1] - groups[i].offsets[0] + 1;
      if expected == |groups[i].offsets| {
        continue;
      }
      failures := failures + [Failure(ScopeOf(groups[i].topic, groups[i].partition), expected - |groups[i].offsets|)];
    }
  }

  // ---- the holes of one partition ----

  /** The `lag` query: one hole between each pair of neighbours that are not adjacent. */
  function HolesUpTo(g: Group, n: nat): seq<Gap>
    requires n <= |g.offsets|
  {
    if n < 2 then [] else
      HolesUpTo(g, n - 1) +
      (if g.offsets[n - 1] > g.offsets[n - 2] + 1
       then [Gap(g.topic, g.partition, g.offsets[n - 2] + 1, g.offsets[n - 1] - 1)] else [])
  }

  function Accounted(holes: seq<Gap>, n: nat): int
    requires n <= |holes|
  {
    if n == 0 then 0 else Accounted(holes, n - 1) + holes[n - 1].last - holes[n - 1].first + 1
  }

  lemma {:induction false} AccountedPrefix(a: seq<Gap>, b: seq<Gap>, n: nat)
    requires n <= |a| && n <= |b| && forall i :: 0 <= i < n ==> a[i] == b[i]
    ensures Accounted(a, n) == Accounted(b, n)
  {
    if n > 0 { AccountedPrefix(a, b, n - 1); }
  }

  /** Neighbours that are equal among the first `n` offsets. */
  ghost function Repeats(os: seq<int>, n: nat): nat
    requires n <= |os|
  {
    if n < 2 then 0 else Repeats(os, n - 1) + (if os[n - 1] == os[n - 2] then 1 else 0)
  }

  /** The holes miss exactly as many offsets as the span lacks, plus one for every repeated row. */
  lemma {:induction false} HolesAccount(g: Group, n: nat)
    requires ValidGroup(g) && 0 < n <= |g.offsets|
    ensures var h := HolesUpTo(g, n);
            Accounted(h, |h|) == g.offsets[n - 1] - g.offsets[0] + 1 - n + Repeats(g.offsets, n)
  {
    if n > 1 {
      HolesAccount(g, n - 1);
      var before, h := HolesUpTo(g, n - 1), HolesUpTo(g, n);
      AccountedPrefix(before, h, |before|);
      assert g.offsets[n - 2] <= g.offsets[n - 1];
    }
  }

  lemma {:induction false} NoRepeatsIffStrict(os: seq<int>, n: nat)
    requires Ascending(os) && n <= |os|
    ensures Repeats(os, n) == 0 <==> Strict(os[..n])
  {
    if n >= 2 {
      NoRepeatsIffStrict(os, n - 1);
      if os[n - 1] == os[n - 2] {
        assert os[..n][n - 1] == os[..n][n - 2];
      } else if Strict(os[..n - 1]) {
        forall i, j | 0 <= i < j < n ensures os[..n][i] < os[..n][j] {
          if j < n - 1 { assert os[..n - 1][i] < os[..n - 1][j]; }
          else { assert os[i] <= os[n - 2] < os[n - 1]; }
        }
      } else {
        var i, j :| 0 <= i < j < n - 1 && os[..n - 1][i] >= os[..n - 1][j];
        assert os[..n][i] >= os[..n][j];
      }
    }
  }

  ghost predicate InHoles(holes: seq<Gap>, o: int) {
    exists i :: 0 <= i < |holes| && holes[i].first <= o <= holes[i].last
  }

  lemma {:induction false} InHolesAppend(holes: seq<Gap>, more: seq<Gap>, o: int)
    ensures InHoles(holes + more, o) <==> InHoles(holes, o) || InHoles(more, o)
  {
    var all := holes + more;
    if InHoles(holes, o) {
      var i :| 0 <= i < |holes| && holes[i].first <= o <= holes[i].last;
      assert all[i] == holes[i];
    }
    if InHoles(more, o) {
      var i :| 0 <= i < |more| && more[i].first <= o <= more[i].last;
      assert all[|holes| + i] == more[i];
    }
  }

  /** An offset lies in a hole exactly when it is inside the span and no row carries it. */
  lemma {:induction false} HolesAreMissing(g: Group, n: nat, o: int)
    requires ValidGroup(g) && 0 < n <= |g.offsets|
    ensures InHoles(HolesUpTo(g, n), o) <==> g.offsets[0] <= o <= g.offsets[n - 1] && o !in g.offsets[..n]
  {
    var os := g.offsets;
    if n == 1 {
      assert os[..1][0] == os[0];
    } else {
      HolesAreMissing(g, n - 1, o);
      NextHole(g, n, o);
      NextOffset(os, n, o);
    }
  }

  lemma {:induction false} NextHole(g: Group, n: nat, o: int)
    requires ValidGroup(g) && 1 < n <= |g.offsets|
    ensures InHoles(HolesUpTo(g, n), o) <==> InHoles(HolesUpTo(g, n - 1), o) || g.offsets[n - 2] < o < g.offsets[n - 1]
  {
    var os := g.offsets;
    var more := if os[n - 1] > os[n - 2] + 1
      then [Gap(g.topic, g.partition, os[n - 2] + 1, os[n - 1] - 1)] else [];
    InHolesAppend(HolesUpTo(g, n - 1), more, o);
    assert InHoles(more, o) <==> os[n - 2] < o < os[n - 1] by {
      if os[n - 2] < o < os[n - 1] { assert more[0].first <= o <= more[0].last; }
    }
  }

  lemma {:induction false} NextOffset(os: seq<int>, n: nat, o: int)
    requires 1 < n <= |os|
    ensures o in os[..n] <==> o in os[..n - 1] || o == os[n - 1]
    ensures os[n - 2] in os[..n - 1]
  {
    assert os[..n] == os[..n - 1] + [os[n - 1]];
    assert os[..n - 1][n - 2] == os[n - 2];
  }

  lemma {:induction false} HolesBelong(g: Group, n: nat)
    requires n <= |g.offsets|
    ensures forall i :: 0 <= i < |HolesUpTo(g, n)| ==>
              HolesUpTo(g, n)[i].topic == g.topic && HolesUpTo(g, n)[i].partition == g.partition
  {
    if n >= 2 { HolesBelong(g, n - 1); }
  }

  lemma {:induction false} NoneUncovered(holes: seq<Gap>, n: nat, gaps: seq<Gap>)
    requires n <= |holes|
    ensures NotCovered(holes, n, gaps) == [] <==> forall i :: 0 <= i < n ==> Covered(gaps, holes[i])
  {
    if n > 0 { NoneUncovered(holes, n - 1, gaps); }
  }

  // ---- the verdict ----

  /** Every offset the archive lacks between its first and last is acknowledged by a recorded loss. */
  ghost predicate AllMissingAcknowledged(g: Group, gaps: seq<Gap>)
    requires g.offsets != []
  {
    forall o :: g.offsets[0] <= o <= g.offsets[|g.offsets| - 1] && o !in g.offsets ==>
      Acknowledged(gaps, g.topic, g.partition, o)
  }

  ghost predicate Intact(g: Group, gaps: seq<Gap>)
    requires g.offsets != []
  {
    Strict(g.offsets) && AllMissingAcknowledged(g, gaps)
  }

  lemma {:induction false} HolesCoveredIff(g: Group, gaps: seq<Gap>)
    requires ValidGroup(g)
    ensures var h := HolesUpTo(g, |g.offsets|);
            NotCovered(h, |h|, gaps) == [] <==> AllMissingAcknowledged(g, gaps)
  {
    var n := |g.offsets|;
    var h := HolesUpTo(g, n);
    assert g.offsets[..n] == g.offsets;
    NoneUncovered(h, |h|, gaps);
    HolesBelong(g, n);
    forall o ensures InHoles(h, o) <==> g.offsets[0] <= o <= g.offsets[n - 1] && o !in g.offsets {
      HolesAreMissing(g, n, o);
    }
    if AllMissingAcknowledged(g, gaps) {
      forall i | 0 <= i < |h| ensures Covered(gaps, h[i]) {
        forall o | h[i].first <= o <= h[i].last ensures Acknowledged(gaps, g.topic, g.partition, o) {
          assert InHoles(h, o);
        }
      }
    }
    if forall i :: 0 <= i < |h| ==> Covered(gaps, h[i]) {
      forall o | g.offsets[0] <= o <= g.offsets[n - 1] && o !in g.offsets
        ensures Acknowledged(gaps, g.topic, g.partition, o)
      {
        var i :| 0 <= i < |h| && h[i].first <= o <= h[i].last;
        assert Covered(gaps, h[i]);
      }
    }
  }

  /** What the netting decides for a partition with `observed` offsets unaccounted for. */
  ghost predicate NettingPasses(g: Group, observed: int, gaps: seq<Gap>) {
    var h := HolesUpTo(g, |g.offsets|);
    observed > 0 && NotCovered(h, |h|, gaps) == [] && Accounted(h, |h|) == observed
  }

  /** For a partition with a shortfall, the netting is sound and complete. */
  lemma {:induction false} NettingExact(g: Group, gaps: seq<Gap>)
    requires ValidGroup(g) && Span(g.offsets) > |g.offsets|
    ensures NettingPasses(g, Span(g.offsets) - |g.offsets|, gaps) <==> Intact(g, gaps)
  {
    var n := |g.offsets|;
    assert g.offsets[..n] == g.offsets;
    HolesAccount(g, n);
    NoRepeatsIffStrict(g.offsets, n);
    HolesCoveredIff(g, gaps);
  }

  method NetRecorded(groups: seq<Group>, f: Failure, gaps: seq<Gap>, ghost home: nat) returns (passed: bool)
    requires Grouped(groups) && home < |groups|
    requires f.scope == ScopeOf(groups[home].topic, groups[home].partition)
    ensures passed <==> NettingPasses(groups[home], f.observed, gaps)
  {
    var (topic, digits) := SplitScope(f.scope);
    SplitOfScope(groups[home].topic, groups[home].partition);
    if f.observed <= 0 || digits == [] || !AllDigits(digits) {
      return false;
    }
    var partition := ValueOf(digits);
    var k := 0;
    while !(groups[k].topic == topic && groups[k].partition == partition)
      invariant k <= home
      decreases home - k
    {
      k := k + 1;
    }
    var holes := HolesUpTo(groups[k], |groups[k].offsets|);
    var uncovered := UncoveredHoles(holes, gaps);
    passed := uncovered == [] && Accounted(holes, |holes|) == f.observed;
  }

  datatype Result = Result(scope: string, passed: bool, observed: int)

  function Failed(g: Group): Result
    requires g.offsets != []
  {
    Result(ScopeOf(g.topic, g.partition), false, Span(g.offsets) - |g.offsets|)
  }

  /** The audit's verdict on one partition: the count first, the holes only when it comes up different. */
  ghost predicate PartitionPasses(g: Group, gaps: seq<Gap>)
    requires g.offsets != []
  {
    Span(g.offsets) == |g.offsets| || (Span(g.offsets) > |g.offsets| && Intact(g, gaps))
  }

  ghost predicate Flagged(groups: seq<Group>, i: nat, f: Failure)
    requires i < |groups| && groups[i].offsets != []
  {
    FailureOf(groups[i]) == [f]
  }

  ghost predicate HasHome(groups: seq<Group>, n: nat, f: Failure)
    requires n <= |groups| && forall i :: 0 <= i < |groups| ==> groups[i].offsets != []
  {
    exists i: nat :: i < n && Flagged(groups, i, f)
  }

  lemma {:induction false} FailuresAreFlagged(groups: seq<Group>, n: nat, f: Failure)
    requires n <= |groups| && forall i :: 0 <= i < |groups| ==> groups[i].offsets != []
    requires f in FailuresUpTo(groups, n)
    ensures HasHome(groups, n, f)
  {
    if f in FailuresUpTo(groups, n - 1) {
      FailuresAreFlagged(groups, n - 1, f);
      var i: nat :| i < n - 1 && Flagged(groups, i, f);
      assert Flagged(groups, i, f);
    } else {
      assert Flagged(groups, n - 1, f);
    }
  }

  lemma {:induction false} FlaggedIsReported(groups: seq<Group>, n: nat, i: nat)
    requires i < n <= |groups| && forall i :: 0 <= i < |groups| ==> groups[i].offsets != []
    requires FailureOf(groups[i]) != []
    ensures FailureOf(groups[i])[0] in FailuresUpTo(groups, n)
  {
    if i < n - 1 { FlaggedIsReported(groups, n - 1, i); }
  }

  lemma {:induction false} HomeIsUnique(groups: seq<Group>, i: nat, j: nat, f: Failure)
    requires Grouped(groups) && i < |groups| && j < |groups| && Flagged(groups, i, f) && Flagged(groups, j, f)
    ensures i == j
  {
    SplitOfScope(groups[i].topic, groups[i].partition);
    SplitOfScope(groups[j].topic, groups[j].partition);
  }

  lemma {:induction false} NettingIsTheVerdict(g: Group, f: Failure, gaps: seq<Gap>)
    requires ValidGroup(g) && FailureOf(g) == [f]
    ensures NettingPasses(g, f.observed, gaps) <==> PartitionPasses(g, gaps)
  {
    if Span(g.offsets) > |g.offsets| { NettingExact(g, gaps); }
  }

  ghost predicate VerdictFits(groups: seq<Group>, f: Failure, r: Result, gaps: seq<Gap>)
    requires Grouped(groups)
  {
    && r.scope == f.scope && r.observed == f.observed
    && forall i: nat :: i < |groups| && Flagged(groups, i, f) ==> (r.passed <==> PartitionPasses(groups[i], gaps))
  }

  method NetAll(groups: seq<Group>, failures: seq<Failure>, gaps: seq<Gap>) returns (results: seq<Result>)
    requires Grouped(groups)
    requires forall f :: f in failures ==> HasHome(groups, |groups|, f)
    ensures |results| == |failures|
    ensures forall j :: 0 <= j < |failures| ==> VerdictFits(groups, failures[j], results[j], gaps)
  {
    results := [];
    for k := 0 to |failures|
      invariant |results| == k
      invariant forall j :: 0 <= j < k ==> VerdictFits(groups, failures[j], results[j], gaps)
    {
      var f := failures[k];
      assert HasHome(groups, |groups|, f);
      ghost var home: nat :| home < |groups| && Flagged(groups, home, f);
      var passed := NetRecorded(groups, f, gaps, home);
      NettingIsTheVerdict(groups[home], f, gaps);
      var r := Result(f.scope, passed, f.observed);
      forall i: nat | i < |groups| && Flagged(groups, i, f) ensures passed <==> PartitionPasses(groups[i], gaps) {
        HomeIsUnique(groups, i, home, f);
      }
      assert VerdictFits(groups, f, r, gaps);
      results := results + [r];
    }
  }

  /**
   The whole audit. It reports every partition that fails, and it is green exactly when each partition
   either counts out or is intact up to its acknowledged losses.
   */
  method AuditOffsetContinuity(groups: seq<Group>, checks: seq<Check>) returns (results: seq<Result>)
    requires Grouped(groups)
    ensures (forall r :: r in results ==> r.passed) <==>
            forall i :: 0 <= i < |groups| ==> PartitionPasses(groups[i], RecordedUpTo(checks, |checks|))
    ensures forall i :: 0 <= i < |groups| && !PartitionPasses(groups[i], RecordedUpTo(checks, |checks|)) ==>
              Failed(groups[i]) in results
  {
    if groups == [] {
      return [Result("raw.messages", true, 0)];
    }
    var failures := OffsetGaps(groups);
    forall f | f in failures ensures HasHome(groups, |groups|, f) {
      FailuresAreFlagged(groups, |groups|, f);
    }
    forall i: nat | i < |groups| && FailureOf(groups[i]) != [] ensures FailureOf(groups[i])[0] in failures {
      FlaggedIsReported(groups, |groups|, i);
    }
    if failures == [] {
      return [Result("raw.messages", true, 0)];
    }
    var gaps := RecordedGaps(checks);
    results := NetAll(groups, failures, gaps);
    FailuresAreNamed(groups, failures, results, gaps);
    PassesAreClean(groups, failures, results, gaps);
  }

  /** Each partition that does not pass is reported as failed. */
  lemma {:induction false} FailuresAreNamed(groups: seq<Group>, failures: seq<Failure>, results: seq<Result>,
                                            gaps: seq<Gap>)
    requires Grouped(groups) && |results| == |failures|
    requires forall j :: 0 <= j < |failures| ==> VerdictFits(groups, failures[j], results[j], gaps)
    requires forall i: nat :: i < |groups| && FailureOf(groups[i]) != [] ==> FailureOf(groups[i])[0] in failures
    ensures forall i :: 0 <= i < |groups| && !PartitionPasses(groups[i], gaps) ==> Failed(groups[i]) in results
  {
    forall i: nat | i < |groups| && !PartitionPasses(groups[i], gaps)
      ensures Failed(groups[i]) in results
    {
      var f := FailureOf(groups[i])[0];
      var j :| 0 <= j < |failures| && failures[j] == f;
      assert VerdictFits(groups, failures[j], results[j], gaps);
      assert Flagged(groups, i, f);
      assert results[j] == Failed(groups[i]);
    }
  }

  /** Where every partition passes, nothing is reported as failed. */
  lemma {:induction false} PassesAreClean(groups: seq<Group>, failures: seq<Failure>, results: seq<Result>,
                                          gaps: seq<Gap>)
    requires Grouped(groups) && |results| == |failures|
    requires forall j :: 0 <= j < |failures| ==> VerdictFits(groups, failures[j], results[j], gaps)
    requires forall f :: f in failures ==> HasHome(groups, |groups|, f)
    ensures (forall i :: 0 <= i < |groups| ==> PartitionPasses(groups[i], gaps)) ==>
              forall r :: r in results ==> r.passed
  {
    forall j | 0 <= j < |results| && forall i :: 0 <= i < |groups| ==> PartitionPasses(groups[i], gaps)
      ensures results[j].passed
    {
      assert HasHome(groups, |groups|, failures[j]);
      var i: nat :| i < |groups| && Flagged(groups, i, failures[j]);
      assert VerdictFits(groups, failures[j], results[j], gaps);
    }
  }

  /**
   The count alone is blind to a loss hidden behind a duplicate: a partition that counts out is intact exactly
   when no offset repeats, and here is one that counts out and is not.
   */
  lemma {:induction false} CountIsBlind(g: Group, gaps: seq<Gap>)
    requires ValidGroup(g) && Span(g.offsets) == |g.offsets|
    ensures Intact(g, gaps) <==> Strict(g.offsets)
    ensures var blind := Group("t", 0, [0, 0, 2]);
            ValidGroup(blind) && PartitionPasses(blind, []) && !Intact(blind, [])
  {
    var n := |g.offsets|;
    assert g.offsets[..n] == g.offsets;
    HolesAccount(g, n);
    NoRepeatsIffStrict(g.offsets, n);
    var h := HolesUpTo(g, n);
    forall o | g.offsets[0] <= o <= g.offsets[n - 1] && Strict(g.offsets) ensures o in g.offsets {
      HolesAreMissing(g, n, o);
      HolesAreNotEmpty(g, n);
    }
    var blind := Group("t", 0, [0, 0, 2]);
    assert blind.offsets[0] >= blind.offsets[1];
  }

  lemma {:induction false} HolesAreNotEmpty(g: Group, n: nat)
    requires ValidGroup(g) && 0 < n <= |g.offsets|
    ensures var h := HolesUpTo(g, n); Accounted(h, |h|) >= |h|
  {
    if n > 1 {
      HolesAreNotEmpty(g, n - 1);
      AccountedPrefix(HolesUpTo(g, n - 1), HolesUpTo(g, n), |HolesUpTo(g, n - 1)|);
    }
  }
}
