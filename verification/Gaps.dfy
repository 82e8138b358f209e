/** Recorded losses (docker/lake/offsets.py, docker/lake/ingest.py): the row as text, its parser, the cursor walk. */
module Gaps {
  import opened Prelude
  import opened Digits
  import opened Offsets
  import Sorting

  /** One row of `audit.checks` as the audit reads it. */
  datatype Check = Check(scope: string, detail: string)

  /** An acknowledged range: both ends are missing. */
  datatype Gap = Gap(topic: string, partition: nat, first: int, last: int)

  // ---- the row _accept_data_loss files ----

  const COMMITTED := "committed "
  const LOG_START := ", broker LOG-START "

  function GapOffsets(committed: nat, logStart: nat): string {
    COMMITTED + (ToString(committed) + LOG_START + ToString(logStart))
  }

  function ScopeOf(topic: string, partition: nat): string {
    topic + "/" + ToString(partition)
  }

  function Preamble(topic: string, partition: nat): string {
    "--accept-data-loss: " + topic + " partition " + ToString(partition) + " "
  }

  function Epilogue(logStart: nat, lost: nat, appId: string): string {
    ", " + ToString(lost) + " records evicted by Redpanda retention and permanently gone; resumed at "
    + ToString(logStart) + " by run " + appId
  }

  function LossRow(l: Loss, appId: string): Check
    requires 0 <= l.start < l.logStart && l.lost == l.logStart - l.start
  {
    Check(ScopeOf(l.topic, l.partition),
          Preamble(l.topic, l.partition) + GapOffsets(l.start, l.logStart) + Epilogue(l.logStart, l.lost, appId))
  }

  // ---- recorded_gaps ----

  predicate LiteralAt(text: string, i: nat, literal: string) {
    i + |literal| <= |text| && text[i..i + |literal|] == literal
  }

  /**
   The expression `committed (\d+), broker LOG-START (\d+)` anchored at `i`. A greedy run of digits is the only
   one that can be followed by the comma, so no backtracking is needed.
   */
  function MatchAt(text: string, i: nat): Option<(nat, nat)>
    requires i <= |text|
  {
    if !LiteralAt(text, i, COMMITTED) then None else
      var a := i + |COMMITTED|;
      var b := RunEnd(text, a);
      if a == b || !LiteralAt(text, b, LOG_START) then None else
        var c := b + |LOG_START|;
        var d := RunEnd(text, c);
        if c == d then None else Some((ValueOf(text[a..b]), ValueOf(text[c..d])))
  }

  /** The leftmost match at or after `i`. */
  function Search(text: string, i: nat): Option<(nat, nat)>
    requires i <= |text|
    decreases |text| - i
  {
    if MatchAt(text, i).Some? then MatchAt(text, i)
    else if i == |text| then None
    else Search(text, i + 1)
  }

  /** What follows the last `/`, or everything when there is none: `rpartition("/")`. */
  function LastSlash(s: string): (r: Option<nat>)
    ensures r.Some? ==> r.value < |s| && s[r.value] == '/'
    ensures forall i :: (if r.Some? then r.value + 1 else 0) <= i < |s| ==> s[i] != '/'
  {
    if s == [] then None
    else if s[|s| - 1] == '/' then Some(|s| - 1)
    else LastSlash(s[..|s| - 1])
  }

  function SplitScope(scope: string): (string, string) {
    match LastSlash(scope)
    case None => ("", scope)
    case Some(i) => (scope[..i], scope[i + 1..])
  }

  /** The range one row acknowledges, if it parses. */
  function GapOf(c: Check): Option<Gap> {
    var found := Search(c.detail, 0);
    var (topic, partition) := SplitScope(c.scope);
    if found.None? || partition == [] || !AllDigits(partition) then None
    else Some(Gap(topic, ValueOf(partition), found.value.0, (found.value.1 as int) - 1))
  }

  function RecordedUpTo(rows: seq<Check>, n: nat): seq<Gap>
    requires n <= |rows|
  {
    Collect(GapOf, rows, n)
  }

  method RecordedGaps(rows: seq<Check>) returns (gaps: seq<Gap>)
    ensures gaps == RecordedUpTo(rows, |rows|)
  {
    gaps := [];
    for i := 0 to |rows|
      invariant gaps == RecordedUpTo(rows, i)
    {
      var found := Search(rows[i].detail, 0);
      var (topic, partition) := SplitScope(rows[i].scope);
      if found.None? || partition == [] || !AllDigits(partition) {
        continue;
      }
      gaps := gaps + [Gap(topic, ValueOf(partition), found.value.0, (found.value.1 as int) - 1)];
    }
  }

  // ---- the row parses back to exactly the range lost ----

  /** Kafka's topic alphabet has no space. */
  predicate LegalTopic(topic: string) {
    ' ' !in topic
  }

  lemma {:induction false} SplitOfScope(topic: string, partition: nat)
    ensures SplitScope(ScopeOf(topic, partition)) == (topic, ToString(partition))
  {
    var s := ScopeOf(topic, partition);
    var i := LastSlash(s);
    var digits := ToString(partition);
    assert s[|topic|] == '/';
    assert forall k :: |topic| < k < |s| ==> s[k] == digits[k - |topic| - 1];
    assert i == Some(|topic|);
    assert s[..|topic|] == topic && s[|topic| + 1..] == digits;
  }

  /** Nowhere does a space stand between a `d` and a digit, as it does inside every match. */
  predicate Clean(s: string) {
    forall q :: 1 <= q < |s| - 1 && s[q] == ' ' ==> !(s[q - 1] == 'd' && IsDigit(s[q + 1]))
  }

  lemma {:induction false} CleanConcat(a: string, b: string)
    requires Clean(a) && Clean(b)
    requires |a| >= 1 && |b| >= 2 && b[0] == ' ' ==> !IsDigit(b[1])
    requires |a| >= 2 && |b| >= 1 && a[|a| - 1] == ' ' ==> !(a[|a| - 2] == 'd' && IsDigit(b[0]))
    ensures Clean(a + b)
  {
    var s := a + b;
    forall q | 1 <= q < |s| - 1 && s[q] == ' ' ensures !(s[q - 1] == 'd' && IsDigit(s[q + 1])) {
      if q >= |a| + 1 {
        assert b[q - |a|] == ' ';
      }
    }
  }

  lemma {:induction false} TopicClean(topic: string)
    requires LegalTopic(topic)
    ensures Clean("--accept-data-loss: " + topic + " partition ")
  {
    var s1 := "--accept-data-loss: ";
    assert Clean(topic) by { assert forall q :: 0 <= q < |topic| ==> topic[q] in topic; }
    assert topic != [] ==> topic[0] in topic;
    CleanConcat(s1, topic);
    CleanConcat(s1 + topic, " partition ");
  }

  lemma {:induction false} NumberClean(s: string, partition: nat)
    requires Clean(s + " partition ")
    ensures Clean(s + " partition " + ToString(partition) + " ")
  {
    var p := ToString(partition);
    assert IsDigit(p[|p| - 1]);
    assert forall q :: 0 <= q < |p| ==> IsDigit(p[q]);
    CleanConcat(s + " partition ", p);
    CleanConcat(s + " partition " + p, " ");
  }

  lemma {:induction false} PreambleClean(topic: string, partition: nat)
    requires LegalTopic(topic)
    ensures Clean(Preamble(topic, partition) + COMMITTED)
  {
    TopicClean(topic);
    NumberClean("--accept-data-loss: " + topic, partition);
    assert Clean(Preamble(topic, partition));
    CleanConcat(Preamble(topic, partition), COMMITTED);
  }

  /** No match can start inside a text that is clean up to the end of the first `committed `. */
  lemma {:induction false} NoMatchInside(pre: string, tail: string, i: nat)
    requires Clean(pre + COMMITTED) && i < |pre|
    ensures MatchAt(pre + COMMITTED + tail, i).None?
  {
    var head := pre + COMMITTED;
    var text := head + tail;
    if LiteralAt(text, i, COMMITTED) {
      assert text[i..i + 10][9] == ' ' && text[i..i + 10][8] == 'd';
      assert head[i + 9] == ' ' && head[i + 8] == 'd' && head[i + 10] == text[i + 10];
    }
  }

  lemma {:induction false} SearchSkips(text: string, i: nat, j: nat)
    requires i <= j <= |text|
    requires forall k :: i <= k < j ==> MatchAt(text, k).None?
    requires MatchAt(text, j).Some?
    ensures Search(text, i) == MatchAt(text, j)
    decreases j - i
  {
    if i < j { SearchSkips(text, i + 1, j); }
  }

  lemma {:induction false} RunEndIs(s: string, i: nat, j: nat)
    requires i <= j <= |s|
    requires forall k :: i <= k < j ==> IsDigit(s[k])
    requires j < |s| ==> !IsDigit(s[j])
    ensures RunEnd(s, i) == j
    decreases j - i
  {
    if i < j { RunEndIs(s, i + 1, j); }
  }

  lemma {:induction false} Pieces(pre: string, x: string, y: string, post: string)
    ensures var text := pre + (COMMITTED + (x + LOG_START + y)) + post;
            var a := |pre| + |COMMITTED|;
            var b := a + |x|;
            var c := b + |LOG_START|;
            var d := c + |y|;
            && |text| == d + |post|
            && text[|pre|..a] == COMMITTED && text[a..b] == x && text[b..c] == LOG_START
            && text[c..d] == y && text[d..] == post
  {}

  lemma {:induction false} MatchAtOffsets(pre: string, committed: nat, logStart: nat, post: string)
    requires post != [] && !IsDigit(post[0])
    ensures MatchAt(pre + GapOffsets(committed, logStart) + post, |pre|) == Some((committed, logStart))
  {
    var x, y := ToString(committed), ToString(logStart);
    var text := pre + GapOffsets(committed, logStart) + post;
    Pieces(pre, x, y, post);
    var a := |pre| + |COMMITTED|;
    var b := a + |x|;
    var c := b + |LOG_START|;
    var d := c + |y|;
    assert text[b] == text[b..c][0] == LOG_START[0];
    assert text[d] == text[d..][0] == post[0];
    RunOfSlice(text, a, b, x);
    RunOfSlice(text, c, d, y);
  }

  lemma {:induction false} RunOfSlice(s: string, i: nat, j: nat, digits: string)
    requires i <= j < |s| && s[i..j] == digits && AllDigits(digits) && !IsDigit(s[j])
    ensures RunEnd(s, i) == j
  {
    assert forall k :: i <= k < j ==> s[k] == digits[k - i];
    RunEndIs(s, i, j);
  }

  lemma {:induction false} Reassociate(a: string, b: string, x: string, c: string)
    ensures a + (b + x) + c == a + b + (x + c)
  {}

  lemma {:induction false} SearchFinds(pre: string, committed: nat, logStart: nat, post: string)
    requires Clean(pre + COMMITTED) && post != [] && !IsDigit(post[0])
    ensures Search(pre + GapOffsets(committed, logStart) + post, 0) == Some((committed, logStart))
  {
    var text := pre + GapOffsets(committed, logStart) + post;
    MatchAtOffsets(pre, committed, logStart, post);
    var numbers := ToString(committed) + LOG_START + ToString(logStart);
    Reassociate(pre, COMMITTED, numbers, post);
    var tail := numbers + post;
    forall i: nat | i < |pre| ensures MatchAt(text, i).None? {
      NoMatchInside(pre, tail, i);
    }
    SearchSkips(text, 0, |pre|);
  }

  /** A loss as `evicted` reports one: a range, its size, a topic of Kafka's. */
  ghost predicate Proper(l: Loss) {
    0 <= l.start < l.logStart && l.lost == l.logStart - l.start && LegalTopic(l.topic)
  }

  /** Both ends of what was lost. */
  function GapOfLoss(l: Loss): Gap {
    Gap(l.topic, l.partition, l.start, l.logStart - 1)
  }

  /** The text `_accept_data_loss` writes is read back as exactly the range that was lost. */
  lemma {:induction false} LossRowRoundTrips(l: Loss, appId: string)
    requires Proper(l)
    ensures GapOf(LossRow(l, appId)) == Some(GapOfLoss(l))
  {
    DetailParses(l, appId);
    SplitOfScope(l.topic, l.partition);
    GapOfParts(LossRow(l, appId), l);
  }

  lemma {:induction false} DetailParses(l: Loss, appId: string)
    requires Proper(l)
    ensures Search(LossRow(l, appId).detail, 0) == Some((l.start as nat, l.logStart as nat))
  {
    PreambleClean(l.topic, l.partition);
    var post := Epilogue(l.logStart, l.lost, appId);
    assert post[0] == ',';
    SearchFinds(Preamble(l.topic, l.partition), l.start, l.logStart, post);
  }

  lemma {:induction false} GapOfParts(c: Check, l: Loss)
    requires Proper(l) && Search(c.detail, 0) == Some((l.start as nat, l.logStart as nat))
    requires SplitScope(c.scope) == (l.topic, ToString(l.partition))
    ensures GapOf(c) == Some(GapOfLoss(l))
  {}

  /** Some recorded range of the partition contains the offset. */
  ghost predicate Acknowledged(gaps: seq<Gap>, t: string, p: nat, o: int) {
    exists i :: 0 <= i < |gaps| && gaps[i].topic == t && gaps[i].partition == p && gaps[i].first <= o <= gaps[i].last
  }

  /** Every offset of the hole is acknowledged, by whatever ranges. */
  ghost predicate Covered(gaps: seq<Gap>, hole: Gap) {
    forall o :: hole.first <= o <= hole.last ==> Acknowledged(gaps, hole.topic, hole.partition, o)
  }

  type Range = (int, int)

  predicate RangeLe(a: Range, b: Range) {
    a.0 < b.0 || (a.0 == b.0 && a.1 <= b.1)
  }

  ghost predicate InRanges(ranges: seq<Range>, o: int) {
    exists i :: 0 <= i < |ranges| && ranges[i].0 <= o <= ranges[i].1
  }

  /** The sorted walk stops at the least offset from `first` on that no range contains. */
  method Walk(ranges: seq<Range>, first: int) returns (cursor: int)
    requires Sorting.SortedBy(RangeLe, ranges)
    ensures first <= cursor && !InRanges(ranges, cursor)
    ensures forall o :: first <= o < cursor ==> InRanges(ranges, o)
  {
    cursor := first;
    for i := 0 to |ranges|
      invariant first <= cursor
      invariant forall o :: first <= o < cursor ==> InRanges(ranges, o)
      invariant forall j :: 0 <= j < i ==> !(ranges[j].0 <= cursor <= ranges[j].1)
    {
      var (lo, hi) := ranges[i];
      if lo <= cursor <= hi {
        forall o | first <= o < hi + 1 ensures InRanges(ranges, o) {
          if o >= cursor { assert ranges[i].0 <= o <= ranges[i].1; }
        }
        forall j | 0 <= j < i ensures ranges[j].1 < cursor {
          assert RangeLe(ranges[j], ranges[i]);
        }
        cursor := hi + 1;
      }
    }
  }

  /** The ranges recorded for one partition. */
  function RangesOf(gaps: seq<Gap>, n: nat, t: string, p: nat): seq<Range>
    requires n <= |gaps|
  {
    if n == 0 then [] else
      var g := gaps[n - 1];
      RangesOf(gaps, n - 1, t, p) + (if g.topic == t && g.partition == p then [(g.first, g.last)] else [])
  }

  lemma {:induction false} RangesMean(gaps: seq<Gap>, n: nat, t: string, p: nat)
    requires n <= |gaps|
    ensures forall o :: InRanges(RangesOf(gaps, n, t, p), o) <==> Acknowledged(gaps[..n], t, p, o)
  {
    if n > 0 {
      var g, r := gaps[n - 1], RangesOf(gaps, n - 1, t, p);
      RangesMean(gaps, n - 1, t, p);
      RangesSplit(gaps, n, t, p);
      if g.topic == t && g.partition == p {
        RangesAppend(r, g.first, g.last);
      } else {
        assert RangesOf(gaps, n, t, p) == r;
      }
    }
  }

  lemma {:induction false} RangesAppend(r: seq<Range>, lo: int, hi: int)
    ensures forall o :: InRanges(r + [(lo, hi)], o) <==> InRanges(r, o) || lo <= o <= hi
  {
    var r' := r + [(lo, hi)];
    forall o ensures InRanges(r', o) <==> InRanges(r, o) || lo <= o <= hi {
      if InRanges(r, o) {
        var i :| 0 <= i < |r| && r[i].0 <= o <= r[i].1;
        assert r'[i] == r[i];
      }
      if lo <= o <= hi { assert r'[|r|] == (lo, hi); }
    }
  }

  lemma {:induction false} RangesSplit(gaps: seq<Gap>, n: nat, t: string, p: nat)
    requires 0 < n <= |gaps|
    ensures var g := gaps[n - 1];
            forall o :: Acknowledged(gaps[..n], t, p, o) <==>
              Acknowledged(gaps[..n - 1], t, p, o) || (g.topic == t && g.partition == p && g.first <= o <= g.last)
  {
    AcknowledgedAppend(gaps[..n - 1], gaps[n - 1], t, p);
    assert gaps[..n] == gaps[..n - 1] + [gaps[n - 1]];
  }

  lemma {:induction false} AcknowledgedAppend(gaps: seq<Gap>, g: Gap, t: string, p: nat)
    ensures forall o :: Acknowledged(gaps + [g], t, p, o) <==>
              Acknowledged(gaps, t, p, o) || (g.topic == t && g.partition == p && g.first <= o <= g.last)
  {
    var all := gaps + [g];
    forall o ensures Acknowledged(all, t, p, o) <==>
        Acknowledged(gaps, t, p, o) || (g.topic == t && g.partition == p && g.first <= o <= g.last)
    {
      if Acknowledged(gaps, t, p, o) {
        var i :| 0 <= i < |gaps| && gaps[i].topic == t && gaps[i].partition == p && gaps[i].first <= o <= gaps[i].last;
        assert all[i] == gaps[i];
      }
      assert all[|gaps|] == g;
    }
  }

  lemma {:induction false} SortKeepsRanges(r: seq<Range>)
    ensures Sorting.SortedBy(RangeLe, Sorting.Sort(RangeLe, r))
    ensures forall o :: InRanges(Sorting.Sort(RangeLe, r), o) <==> InRanges(r, o)
  {
    Sorting.SortSorted(RangeLe, r);
    var s := Sorting.Sort(RangeLe, r);
    forall o ensures InRanges(s, o) <==> InRanges(r, o) {
      if InRanges(s, o) {
        var i :| 0 <= i < |s| && s[i].0 <= o <= s[i].1;
        assert s[i] in multiset(r);
      }
      if InRanges(r, o) {
        var i :| 0 <= i < |r| && r[i].0 <= o <= r[i].1;
        assert r[i] in multiset(s);
      }
    }
  }

  /** The holes that are not covered, in order. */
  ghost function NotCovered(holes: seq<Gap>, n: nat, gaps: seq<Gap>): seq<Gap>
    requires n <= |holes|
  {
    if n == 0 then [] else
      NotCovered(holes, n - 1, gaps) + (if Covered(gaps, holes[n - 1]) then [] else [holes[n - 1]])
  }

  type Recorded = map<(string, nat), seq<Range>>

  function RangesIn(covered: Recorded, t: string, p: nat): seq<Range> {
    if (t, p) in covered then covered[(t, p)] else []
  }

  method GroupRanges(gaps: seq<Gap>) returns (covered: Recorded)
    ensures forall t, p: nat :: RangesIn(covered, t, p) == RangesOf(gaps, |gaps|, t, p)
  {
    covered := map[];
    for i := 0 to |gaps|
      invariant forall t, p: nat :: RangesIn(covered, t, p) == RangesOf(gaps, i, t, p)
    {
      var g := gaps[i];
      covered := covered[(g.topic, g.partition) := RangesIn(covered, g.topic, g.partition) + [(g.first, g.last)]];
    }
  }

  method IsCovered(hole: Gap, ranges: seq<Range>, ghost gaps: seq<Gap>) returns (yes: bool)
    requires ranges == RangesOf(gaps, |gaps|, hole.topic, hole.partition)
    ensures yes <==> Covered(gaps, hole)
  {
    assert gaps[..|gaps|] == gaps;
    RangesMean(gaps, |gaps|, hole.topic, hole.partition);
    SortKeepsRanges(ranges);
    var cursor := Walk(Sorting.Sort(RangeLe, ranges), hole.first);
    yes := hole.last < cursor;
    assert !Acknowledged(gaps, hole.topic, hole.partition, cursor);
  }

  /** The cursor walk decides union coverage exactly. */
  method UncoveredHoles(holes: seq<Gap>, gaps: seq<Gap>) returns (out: seq<Gap>)
    ensures out == NotCovered(holes, |holes|, gaps)
  {
    var covered := GroupRanges(gaps);
    out := [];
    for i := 0 to |holes|
      invariant out == NotCovered(holes, i, gaps)
    {
      var netted := IsCovered(holes[i], RangesIn(covered, holes[i].topic, holes[i].partition), gaps);
      if !netted {
        out := out + [holes[i]];
      }
    }
  }
}
