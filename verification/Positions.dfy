/** One table fed from several sources, one commit and one position per venue (docker/lake/gold.py:158-198). */
module Positions {
  import opened Prelude
  import opened Offsets
  import opened Silver

  type Venue = string
  /** `k2.src-snapshot-id.<venue>` for every venue, as one commit carries them. */
  type Marks = map<Venue, nat>
  type GoldRow = (Venue, Delivery)

  /**
   Each silver table as the commits it was written in, a snapshot id being how many there are; the snapshots of
   `gold.trades`, and its rows.
   */
  datatype Lake = Lake(silver: map<Venue, seq<seq<Scored>>>, snapshots: seq<Snapshot<Marks>>, rows: seq<GoldRow>) {
    function Commits(v: Venue): seq<seq<Scored>> {
      if v in silver then silver[v] else []
    }

    function Marked(): Marks {
      var s := LatestSummary(snapshots, Decode);
      if s.Some? then s.value else map[]
    }

    /** The venue's silver snapshot its gold rows are complete up to; none reads from the start. */
    function Position(v: Venue): nat {
      if v in Marked() then Marked()[v] else 0
    }
  }

  function KeepOriginal(r: Scored): Option<Delivery> {
    if r.replay then None else Some(r.d)
  }

  /** `_project_silver`: the non-replay rows. */
  function Project(rows: seq<Scored>): seq<Delivery> {
    Collect(KeepOriginal, rows, |rows|)
  }

  function Tag(v: Venue, ds: seq<Delivery>): seq<GoldRow> {
    seq(|ds|, i requires 0 <= i < |ds| => (v, ds[i]))
  }

  function OfVenue(v: Venue): GoldRow -> Option<Delivery> {
    (r: GoldRow) => if r.0 == v then Some(r.1) else None
  }

  /** The gold rows of one venue. */
  function RowsOf(rows: seq<GoldRow>, v: Venue): seq<Delivery> {
    Collect(OfVenue(v), rows, |rows|)
  }

  /** The rows a range read of a silver table returns. */
  function RangeRead(commits: seq<seq<Scored>>, start: nat): seq<Scored>
    requires start <= |commits|
  {
    Flatten(commits[start..], |commits| - start)
  }

  /** One turn of the loop: one venue, one commit, every venue's position on it. */
  function StageVenue(l: Lake, v: Venue, at: int): Lake
    requires l.Position(v) <= |l.Commits(v)|
  {
    var end := |l.Commits(v)|;
    if end == 0 || (v in l.Marked() && l.Position(v) == end) then l else
      var batch := Project(RangeRead(l.Commits(v), l.Position(v)));
      l.(snapshots := l.snapshots + [Snapshot(at, Some(Decode), l.Marked()[v := end])], rows := l.rows + Tag(v, batch))
  }

  /** What can happen: silver commits, one venue's gold commit, compaction of gold, expiry of an old gold snapshot. */
  datatype Action =
    | SilverCommits(v: Venue, added: seq<Scored>)
    | Stages(v: Venue, at: int)
    | Compacts(at: int)
    | Expires(k: nat)

  ghost predicate Later(snapshots: seq<Snapshot<Marks>>, at: int) {
    forall i :: 0 <= i < |snapshots| ==> snapshots[i].committedAt < at
  }

  ghost predicate Enabled(l: Lake, a: Action) {
    match a
    case SilverCommits(v, _) => v in l.silver
    case Stages(v, at) => l.Position(v) <= |l.Commits(v)| && Later(l.snapshots, at)
    case Compacts(at) => Later(l.snapshots, at)
    case Expires(k) => k < |l.snapshots| && NewestIndex(l.snapshots, Decode) != Some(k)
  }

  ghost function Next(l: Lake, a: Action): Lake
    requires Enabled(l, a)
  {
    match a
    case SilverCommits(v, added) => l.(silver := l.silver[v := l.silver[v] + [added]])
    case Stages(v, at) => StageVenue(l, v, at)
    case Compacts(at) => l.(snapshots := l.snapshots + [Snapshot(at, None, map[])])
    case Expires(k) => l.(snapshots := Without(l.snapshots, k))
  }

  /** Gold holds, for each venue, exactly the originals of silver up to the recorded position, in order, once. */
  ghost predicate Complete(l: Lake, v: Venue) {
    l.Position(v) <= |l.Commits(v)| && RowsOf(l.rows, v) == Project(Flatten(l.Commits(v), l.Position(v)))
  }

  ghost predicate Inv(l: Lake) {
    Chronological(l.snapshots) && forall v :: Complete(l, v)
  }

  // ---- one venue's commit ----

  lemma {:induction false} FlattenSplit(commits: seq<seq<Scored>>, start: nat, n: nat)
    requires start <= n <= |commits|
    ensures Flatten(commits, n) == Flatten(commits, start) + Flatten(commits[start..], n - start)
    decreases n
  {
    if start < n {
      FlattenSplit(commits, start, n - 1);
      assert commits[start..][n - 1 - start] == commits[n - 1];
    }
  }

  lemma {:induction false} ProjectConcat(a: seq<Scored>, b: seq<Scored>)
    ensures Project(a + b) == Project(a) + Project(b)
  {
    CollectConcat(KeepOriginal, a, b, |b|);
  }

  lemma {:induction false} TaggedRows(v: Venue, ds: seq<Delivery>, w: Venue, n: nat)
    requires n <= |ds|
    ensures Collect(OfVenue(w), Tag(v, ds), n) == if v == w then ds[..n] else []
  {
    if n > 0 {
      TaggedRows(v, ds, w, n - 1);
      assert ds[..n] == ds[..n - 1] + [ds[n - 1]];
    }
  }

  lemma {:induction false} RowsAppended(rows: seq<GoldRow>, v: Venue, ds: seq<Delivery>, w: Venue)
    ensures RowsOf(rows + Tag(v, ds), w) == if v == w then RowsOf(rows, w) + ds else RowsOf(rows, w)
  {
    var tagged := Tag(v, ds);
    CollectConcat(OfVenue(w), rows, tagged, |tagged|);
    TaggedRows(v, ds, w, |ds|);
    assert ds[..|ds|] == ds;
  }

  lemma {:induction false} AppendKeepsOrder(snapshots: seq<Snapshot<Marks>>, s: Snapshot<Marks>)
    requires Chronological(snapshots) && Later(snapshots, s.committedAt)
    ensures Chronological(snapshots + [s])
  {}

  /** The commit `stage_trades` makes for `v`. */
  function MarkCommit(l: Lake, v: Venue, at: int): Snapshot<Marks> {
    Snapshot(at, Some(Decode), l.Marked()[v := |l.Commits(v)|])
  }

  lemma {:induction false} MarksAfter(l: Lake, v: Venue, at: int)
    requires Chronological(l.snapshots) && Later(l.snapshots, at)
    ensures Chronological(l.snapshots + [MarkCommit(l, v, at)])
    ensures LatestSummary(l.snapshots + [MarkCommit(l, v, at)], Decode) == Some(l.Marked()[v := |l.Commits(v)|])
  {
    AppendKeepsOrder(l.snapshots, MarkCommit(l, v, at));
    LatestAfterCommit(l.snapshots, MarkCommit(l, v, at), Decode);
  }

  /** The originals already there and the batch's are all of them. */
  lemma {:induction false} BatchCompletes(l: Lake, v: Venue)
    requires Complete(l, v)
    ensures RowsOf(l.rows, v) + Project(RangeRead(l.Commits(v), l.Position(v))) ==
            Project(Flatten(l.Commits(v), |l.Commits(v)|))
  {
    FlattenSplit(l.Commits(v), l.Position(v), |l.Commits(v)|);
    ProjectConcat(Flatten(l.Commits(v), l.Position(v)), RangeRead(l.Commits(v), l.Position(v)));
  }

  predicate Level(l: Lake, v: Venue) {
    |l.Commits(v)| == 0 || (v in l.Marked() && l.Position(v) == |l.Commits(v)|)
  }

  /** The lake one commit later, its marks known. */
  lemma {:induction false} MarksNow(l: Lake, v: Venue, at: int)
    requires Chronological(l.snapshots) && l.Position(v) <= |l.Commits(v)| && Later(l.snapshots, at) && !Level(l, v)
    ensures var l' := StageVenue(l, v, at);
            && Chronological(l'.snapshots) && l'.silver == l.silver && l'.Marked() == l.Marked()[v := |l.Commits(v)|]
            && l'.rows == l.rows + Tag(v, Project(RangeRead(l.Commits(v), l.Position(v))))
  {
    MarksAfter(l, v, at);
  }

  lemma {:induction false} OwnCommit(l: Lake, l': Lake, v: Venue)
    requires Complete(l, v) && l'.silver == l.silver && l'.Marked() == l.Marked()[v := |l.Commits(v)|]
    requires l'.rows == l.rows + Tag(v, Project(RangeRead(l.Commits(v), l.Position(v))))
    ensures Complete(l', v) && l'.Position(v) == |l.Commits(v)|
  {
    RowsAppended(l.rows, v, Project(RangeRead(l.Commits(v), l.Position(v))), v);
    BatchCompletes(l, v);
  }

  lemma {:induction false} OthersCommit(l: Lake, l': Lake, v: Venue, w: Venue, batch: seq<Delivery>)
    requires Complete(l, w) && w != v && l'.silver == l.silver && l'.Marked() == l.Marked()[v := |l.Commits(v)|]
    requires l'.rows == l.rows + Tag(v, batch)
    ensures Complete(l', w) && l'.Position(w) == l.Position(w) && RowsOf(l'.rows, w) == RowsOf(l.rows, w)
  {
    RowsAppended(l.rows, v, batch, w);
  }

  /** One venue's commit, seen from venue `w`. */
  lemma {:induction false} StageSeenFrom(l: Lake, v: Venue, at: int, w: Venue)
    requires Chronological(l.snapshots) && Complete(l, v) && Complete(l, w) && Later(l.snapshots, at)
    ensures var l' := StageVenue(l, v, at);
            && Chronological(l'.snapshots) && l'.silver == l.silver && Complete(l', w)
            && (w == v ==> l'.Position(w) == |l.Commits(w)|)
            && (w != v ==> l'.Position(w) == l.Position(w) && RowsOf(l'.rows, w) == RowsOf(l.rows, w))
  {
    if !Level(l, v) {
      MarksNow(l, v, at);
      if w == v {
        OwnCommit(l, StageVenue(l, v, at), v);
      } else {
        OthersCommit(l, StageVenue(l, v, at), v, w, Project(RangeRead(l.Commits(v), l.Position(v))));
      }
    }
  }

  /** One venue's commit completes that venue and moves no other. */
  lemma {:induction false} StageCompletes(l: Lake, v: Venue, at: int)
    requires Inv(l) && Complete(l, v) && Later(l.snapshots, at)
    ensures var l' := StageVenue(l, v, at);
            && Inv(l') && l'.silver == l.silver
            && l'.Position(v) == |l.Commits(v)|
            && forall w :: w != v ==> l'.Position(w) == l.Position(w) && RowsOf(l'.rows, w) == RowsOf(l.rows, w)
  {
    var l' := StageVenue(l, v, at);
    StageSeenFrom(l, v, at, v);
    forall w
      ensures Complete(l', w) && (w != v ==> l'.Position(w) == l.Position(w) && RowsOf(l'.rows, w) == RowsOf(l.rows, w))
    {
      assert Complete(l, w);
      StageSeenFrom(l, v, at, w);
    }
  }

  lemma {:induction false} NextKeepsInv(l: Lake, a: Action)
    requires Inv(l) && Enabled(l, a)
    ensures Inv(Next(l, a))
  {
    var l' := Next(l, a);
    match a {
      case SilverCommits(v, added) =>
        forall w ensures Complete(l', w) {
          assert Complete(l, w);
          if w == v { FlattenPrefix(l.silver[v] + [added], l.silver[v], l.Position(v)); }
        }
      case Stages(v, at) =>
        assert Complete(l, v);
        StageCompletes(l, v, at);
      case Compacts(at) =>
        var s := Snapshot(at, None, map[]);
        AppendKeepsOrder(l.snapshots, s);
        LatestAfterCommit(l.snapshots, s, Decode);
        forall w ensures Complete(l', w) { assert Complete(l, w); }
      case Expires(k) =>
        WithoutKeepsOrder(l.snapshots, k);
        LatestAfterExpiry(l.snapshots, k, Decode);
        forall w ensures Complete(l', w) { assert Complete(l, w); }
    }
  }

  ghost predicate Initial(l: Lake) {
    l.snapshots == [] && l.rows == []
  }

  ghost predicate Legal(l: Lake, acts: seq<Action>, n: nat)
    requires n <= |acts|
    decreases n, 0
  {
    n == 0 || (Legal(l, acts, n - 1) && Enabled(After(l, acts, n - 1), acts[n - 1]))
  }

  ghost function After(l: Lake, acts: seq<Action>, n: nat): Lake
    requires n <= |acts| && Legal(l, acts, n)
    decreases n, 1
  {
    if n == 0 then l else Next(After(l, acts, n - 1), acts[n - 1])
  }

  /**
   In every reachable state, between any two venues' commits included, each venue's gold rows are exactly the originals
   of silver up to its recorded position.
   */
  lemma {:induction false} AlwaysComplete(l: Lake, acts: seq<Action>, n: nat)
    requires Initial(l) && n <= |acts| && Legal(l, acts, n)
    ensures Inv(After(l, acts, n))
    decreases n
  {
    if n == 0 {
      forall v ensures Complete(l, v) {
        assert Flatten(l.Commits(v), 0) == [];
      }
    } else {
      AlwaysComplete(l, acts, n - 1);
      NextKeepsInv(After(l, acts, n - 1), acts[n - 1]);
    }
  }

  // ---- the loop, crash and all ----

  ghost predicate Ticks(snapshots: seq<Snapshot<Marks>>, times: seq<int>) {
    && (forall i, j :: 0 <= i < |snapshots| && 0 <= j < |times| ==> snapshots[i].committedAt < times[j])
    && (forall i, j :: 0 <= i < j < |times| ==> times[i] < times[j])
  }

  /** The table after the loop has passed the first `n` venues. */
  ghost function Staged(l: Lake, venues: seq<Venue>, times: seq<int>, n: nat): (r: Lake)
    requires n <= |venues| == |times| && Inv(l) && Ticks(l.snapshots, times)
    ensures Inv(r) && r.silver == l.silver
    ensures forall i, j :: 0 <= i < |r.snapshots| && n <= j < |times| ==> r.snapshots[i].committedAt < times[j]
  {
    if n == 0 then l else
      var before := Staged(l, venues, times, n - 1);
      assert Complete(before, venues[n - 1]);
      StageCompletes(before, venues[n - 1], times[n - 1]);
      StageVenue(before, venues[n - 1], times[n - 1])
  }

  class GoldTrades {
    const silver: map<Venue, seq<seq<Scored>>>
    var snapshots: seq<Snapshot<Marks>>
    var rows: seq<GoldRow>

    constructor (silver: map<Venue, seq<seq<Scored>>>)
      ensures this.silver == silver && Initial(View())
    {
      this.silver, snapshots, rows := silver, [], [];
    }

    function View(): Lake
      reads this
    {
      Lake(silver, snapshots, rows)
    }

    /** One venue's turn. */
    method StageOne(v: Venue, at: int) returns (n: nat)
      requires View().Position(v) <= |View().Commits(v)|
      modifies this
      ensures View() == StageVenue(old(View()), v, at) && n == |rows| - |old(rows)|
    {
      var end := |View().Commits(v)|;
      if end == 0 {
        return 0;
      }
      var previous := View().Marked();
      var start := if v in previous then previous[v] else 0;
      if v in previous && start == end {
        return 0;
      }
      var batch := Tag(v, Project(RangeRead(silver[v], start)));
      snapshots := snapshots + [Snapshot(at, Some(Decode), previous[v := end])];
      rows := rows + batch;
      n := |batch|;
    }

    /** `stage_trades`: venue by venue; stopping after `stop` of them is a crash between two commits. */
    method StageTrades(venues: seq<Venue>, times: seq<int>, stop: nat) returns (total: nat)
      requires stop <= |venues| == |times| && Inv(View()) && Ticks(snapshots, times)
      modifies this
      ensures View() == Staged(old(View()), venues, times, stop)
      ensures total == |rows| - |old(rows)|
    {
      total := 0;
      ghost var l := View();
      for i := 0 to stop
        invariant View() == Staged(l, venues, times, i)
        invariant total == |rows| - |old(rows)|
      {
        assert Complete(View(), venues[i]);
        var n := StageOne(venues[i], times[i]);
        total := total + n;
      }
    }
  }

  /** `r` has `w` complete if the loop passed it, and where it was in `l` if not. */
  ghost predicate Passed(l: Lake, r: Lake, w: Venue, passed: bool) {
    && r.silver == l.silver
    && if passed
       then r.Position(w) == |l.Commits(w)| && RowsOf(r.rows, w) == Project(Flatten(l.Commits(w), |l.Commits(w)|))
       else r.Position(w) == l.Position(w) && RowsOf(r.rows, w) == RowsOf(l.rows, w)
  }

  lemma {:induction false} PassedNext(l: Lake, before: Lake, after: Lake, v: Venue, at: int, w: Venue, passed: bool)
    requires Inv(before) && Complete(before, v) && Later(before.snapshots, at) && after == StageVenue(before, v, at)
    requires Passed(l, before, w, passed)
    ensures Passed(l, after, w, passed || w == v)
  {
    StageCompletes(before, v, at);
    assert Complete(after, w);
  }

  ghost predicate Visited(venues: seq<Venue>, n: nat, w: Venue) {
    exists i: nat :: i < n && i < |venues| && venues[i] == w
  }

  lemma {:induction false} VisitedNext(venues: seq<Venue>, n: nat, w: Venue)
    requires 0 < n <= |venues|
    ensures Visited(venues, n, w) <==> Visited(venues, n - 1, w) || w == venues[n - 1]
  {}

  /** A loop that got past `w` left `w` complete; one that crashed before it left `w` where it was. */
  lemma {:induction false} StagedPositions(l: Lake, venues: seq<Venue>, times: seq<int>, n: nat, w: Venue)
    requires n <= |venues| == |times| && Inv(l) && Ticks(l.snapshots, times)
    ensures Passed(l, Staged(l, venues, times, n), w, Visited(venues, n, w))
  {
    if n > 0 {
      StagedPositions(l, venues, times, n - 1, w);
      StagedStep(l, venues, times, n, Visited(venues, n - 1, w), w);
      VisitedNext(venues, n, w);
    }
  }

  lemma {:induction false} StagedStep(l: Lake, venues: seq<Venue>, times: seq<int>, n: nat, passed: bool, w: Venue)
    requires 0 < n <= |venues| == |times| && Inv(l) && Ticks(l.snapshots, times)
    requires Passed(l, Staged(l, venues, times, n - 1), w, passed)
    ensures Passed(l, Staged(l, venues, times, n), w, passed || w == venues[n - 1])
  {
    var before := Staged(l, venues, times, n - 1);
    assert Complete(before, venues[n - 1]);
    PassedNext(l, before, Staged(l, venues, times, n), venues[n - 1], times[n - 1], w, passed);
  }

  // ---- with silver's flags: one row per trade ----

  lemma {:induction false} ProjectMeans(rows: seq<Scored>, n: nat, d: Delivery)
    requires n <= |rows|
    ensures d in Collect(KeepOriginal, rows, n) <==> exists i :: 0 <= i < n && rows[i].d == d && !rows[i].replay
  {
    if n > 0 {
      ProjectMeans(rows, n - 1, d);
      var before, after := Collect(KeepOriginal, rows, n - 1), Collect(KeepOriginal, rows, n);
      assert after == before + (if rows[n - 1].replay then [] else [rows[n - 1].d]);
    }
  }

  /** When silver's flags are right, gold holds one row for every trade delivered, its first delivery. */
  lemma {:induction false} GoldOncePerTrade(l: Lake, v: Venue, batches: seq<seq<Delivery>>, n: nat, d: Delivery)
    requires Complete(l, v) && n <= |batches| && Flatten(l.Commits(v), l.Position(v)) == RowsAfter(batches, n)
    requires EarlierSeen(batches, n) && OnceArchived(batches, n) && DistinctPositions(All(batches, n))
    requires d in All(batches, n)
    ensures exists f :: f in RowsOf(l.rows, v) && SameTrade(f, d)
              && forall e :: e in RowsOf(l.rows, v) && SameTrade(e, d) ==> e == f
  {
    OneOriginal(batches, n, d);
    var rows := RowsAfter(batches, n);
    var i: nat :| IsOriginalRow(batches, n, d, i) && forall j: nat :: IsOriginalRow(batches, n, d, j) ==> j == i;
    var f := rows[i].d;
    ProjectMeans(rows, |rows|, f);
    forall e | e in RowsOf(l.rows, v) && SameTrade(e, d) ensures e == f {
      ProjectMeans(rows, |rows|, e);
      var j :| 0 <= j < |rows| && rows[j].d == e && !rows[j].replay;
      assert IsOriginalRow(batches, n, d, j);
    }
  }
}
