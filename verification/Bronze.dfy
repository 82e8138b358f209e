/** One raw range in, N tables out (docker/lake/bronze.py:298-425): they advance together or the run refuses. */
module Bronze {
  import opened Prelude
  import opened Offsets

  /** An archived frame of one venue, as the decode sees it. */
  datatype Frame = Frame(id: int, stream: string, schemaId: int)

  datatype BronzeTable = BronzeTable(stream: string, snapshots: seq<Snapshot<nat>>, rows: seq<Frame>) {
    /** The raw snapshot the table last read, if any. */
    function Position(): Option<nat> {
      LatestSummary(snapshots, Decode)
    }

    function Start(): nat {
      if Position().Some? then Position().value else 0
    }
  }

  function Picker(p: Frame -> bool): Frame -> Option<Frame> {
    (f: Frame) => if p(f) then Some(f) else None
  }

  function Pick(p: Frame -> bool, frames: seq<Frame>): seq<Frame> {
    Collect(Picker(p), frames, |frames|)
  }

  /** The frames whose writer schema the registry can fetch. */
  function Decodable(frames: seq<Frame>, resolves: set<int>): seq<Frame> {
    Pick((f: Frame) => f.schemaId in resolves, frames)
  }

  function Routed(frames: seq<Frame>, stream: string): seq<Frame> {
    Pick((f: Frame) => f.stream == stream, frames)
  }

  /** Control frames: of none of the venue's streams. */
  function Unrouted(frames: seq<Frame>, streams: seq<string>): seq<Frame> {
    Pick((f: Frame) => f.stream !in streams, frames)
  }

  /** The raw commits after `start`, up to `end`. */
  function Range(raw: seq<seq<Frame>>, start: nat, end: nat): seq<Frame>
    requires start <= end <= |raw|
  {
    Flatten(raw[start..end], end - start)
  }

  datatype Outcome = Refused | Level | Undecodable | Decoded(written: nat, balanced: bool, unaccounted: int)

  function CountTo(frames: seq<Frame>, streams: seq<string>, n: nat): nat
    requires n <= |streams|
  {
    if n == 0 then 0 else CountTo(frames, streams, n - 1) + |Routed(frames, streams[n - 1])|
  }

  /** How many of the first `n` frames have a schema the registry cannot fetch. */
  function Missed(source: seq<Frame>, resolves: set<int>, n: nat): nat
    requires n <= |source|
  {
    if n == 0 then 0 else Missed(source, resolves, n - 1) + (if source[n - 1].schemaId in resolves then 0 else 1)
  }

  /** The table after its own commit. */
  function Committed(t: BronzeTable, frames: seq<Frame>, end: nat, at: int): BronzeTable {
    t.(snapshots := t.snapshots + [Snapshot(at, Some(Decode), end)], rows := t.rows + Routed(frames, t.stream))
  }

  /** The venue's tables stand at one raw snapshot. */
  predicate Together(tables: seq<BronzeTable>) {
    forall i, j :: 0 <= i < |tables| && 0 <= j < |tables| ==> tables[i].Position() == tables[j].Position()
  }

  /** The tables after one call of `stage`, stopped once `stop` of them have committed. */
  function StageTables(tables: seq<BronzeTable>, raw: seq<seq<Frame>>, end: nat, at: int, resolves: set<int>, stop: nat)
    : (r: seq<BronzeTable>)
    requires tables != [] && stop <= |tables| && end <= |raw|
    requires forall i :: 0 <= i < |tables| ==> tables[i].Start() <= end
    ensures |r| == |tables|
  {
    if !Together(tables) || tables[0].Position() == Some(end) then tables else
      var frames := Decodable(Range(raw, tables[0].Start(), end), resolves);
      if frames == [] then tables else
        seq(|tables|, i requires 0 <= i < |tables| =>
            if i < stop then Committed(tables[i], frames, end, at) else tables[i])
  }

  class Venue {
    const streams: seq<string>
    var tables: seq<BronzeTable>

    ghost predicate Valid()
      reads this
    {
      && streams != [] && |tables| == |streams|
      && (forall i :: 0 <= i < |tables| ==> tables[i].stream == streams[i])
      && (forall i, j :: 0 <= i < j < |streams| ==> streams[i] != streams[j])
    }

    constructor (streams: seq<string>)
      requires streams != [] && forall i, j :: 0 <= i < j < |streams| ==> streams[i] != streams[j]
      ensures Valid() && this.streams == streams && Together(tables)
      ensures forall i :: 0 <= i < |tables| ==> tables[i] == BronzeTable(streams[i], [], [])
    {
      this.streams := streams;
      tables := seq(|streams|, i requires 0 <= i < |streams| => BronzeTable(streams[i], [], []));
    }

    /** The decode of one range: one commit per table; stopping after `stop` is a crash between two. */
    method DecodeRange(source: seq<Frame>, end: nat, at: int, resolves: set<int>, stop: nat) returns (outcome: Outcome)
      requires Valid() && stop <= |tables|
      modifies this
      ensures Valid() && |tables| == |old(tables)|
      ensures var frames := Decodable(source, resolves);
              if frames == [] then outcome == Undecodable && tables == old(tables)
              else
                && (forall i :: 0 <= i < stop ==> tables[i] == Committed(old(tables)[i], frames, end, at))
                && (forall i :: stop <= i < |tables| ==> tables[i] == old(tables)[i])
                && outcome == Decoded(CountTo(frames, streams, stop),
                                      |source| == CountTo(frames, streams, stop) + |Unrouted(frames, streams)|,
                                      |source| - CountTo(frames, streams, stop) - |Unrouted(frames, streams)|)
      ensures stop == |tables| && outcome.Decoded? ==>
                && outcome.unaccounted == Missed(source, resolves, |source|)
                && (outcome.balanced <==> Missed(source, resolves, |source|) == 0)
    {
      UnaccountedIsMissed(source, resolves, streams);
      var frames := Decodable(source, resolves);
      if frames == [] {
        return Undecodable;
      }
      var written := 0;
      for i := 0 to stop
        invariant Valid() && |tables| == |old(tables)|
        invariant written == CountTo(frames, streams, i)
        invariant forall j :: 0 <= j < i ==> tables[j] == Committed(old(tables)[j], frames, end, at)
        invariant forall j :: i <= j < |tables| ==> tables[j] == old(tables)[j]
      {
        tables := tables[i := Committed(tables[i], frames, end, at)];
        written := written + |Routed(frames, streams[i])|;
      }
      var unrouted := |Unrouted(frames, streams)|;
      outcome := Decoded(written, |source| == written + unrouted, |source| - written - unrouted);
    }

    /** `stage` for one venue, up to raw snapshot `end`. */
    method Stage(raw: seq<seq<Frame>>, end: nat, at: int, resolves: set<int>, stop: nat) returns (outcome: Outcome)
      requires Valid() && stop <= |tables| && 0 < end <= |raw|
      requires forall i :: 0 <= i < |tables| ==> tables[i].Start() <= end
      modifies this
      ensures Valid() && |tables| == |old(tables)|
      ensures outcome == Refused <==> !Together(old(tables))
      ensures outcome == Level <==> Together(old(tables)) && old(tables)[0].Position() == Some(end)
      ensures outcome == Undecodable <==>
                Together(old(tables)) && old(tables)[0].Position() != Some(end)
                && Decodable(Range(raw, old(tables)[0].Start(), end), resolves) == []
      ensures tables == StageTables(old(tables), raw, end, at, resolves, stop)
      ensures outcome.Decoded? ==>
                var source := Range(raw, old(tables)[0].Start(), end);
                var frames := Decodable(source, resolves);
                && outcome == Decoded(CountTo(frames, streams, stop),
                                      |source| == CountTo(frames, streams, stop) + |Unrouted(frames, streams)|,
                                      |source| - CountTo(frames, streams, stop) - |Unrouted(frames, streams)|)
      ensures stop == |tables| && outcome.Decoded? ==>
                var source := Range(raw, old(tables)[0].Start(), end);
                && outcome.unaccounted == Missed(source, resolves, |source|)
                && (outcome.balanced <==> Missed(source, resolves, |source|) == 0)
    {
      var together := true;
      for i := 1 to |tables|
        invariant together <==> forall j :: 0 <= j < i ==> tables[j].Position() == tables[0].Position()
      {
        if tables[i].Position() != tables[0].Position() {
          together := false;
        }
      }
      assert together <==> Together(tables);
      if !together {
        return Refused;
      }
      if tables[0].Position() == Some(end) {
        return Outcome.Level;
      }
      outcome := DecodeRange(Range(raw, tables[0].Start(), end), end, at, resolves, stop);
    }
  }

  // ---- no frame doubled, none skipped ----

  /** The table holds exactly the frames of its stream up to its position, in order, once each. */
  ghost predicate Exact(t: BronzeTable, raw: seq<seq<Frame>>) {
    t.Start() <= |raw| && t.rows == Routed(Flatten(raw, t.Start()), t.stream)
  }

  lemma {:induction false} RangeSplit(raw: seq<seq<Frame>>, start: nat, n: nat)
    requires start <= n <= |raw|
    ensures Flatten(raw, n) == Flatten(raw, start) + Range(raw, start, n)
    decreases n
  {
    if start < n {
      RangeSplit(raw, start, n - 1);
      FlattenPrefix(raw[start..n], raw[start..n - 1], n - 1 - start);
      assert raw[start..n][n - 1 - start] == raw[n - 1];
    }
  }

  lemma {:induction false} PickSome(p: Frame -> bool, q: Frame -> bool, frames: seq<Frame>, n: nat)
    requires n <= |frames|
    ensures Pick(p, Collect(Picker(q), frames, n)) == Collect(Picker((f: Frame) => p(f) && q(f)), frames, n)
  {
    if n > 0 {
      PickSome(p, q, frames, n - 1);
      var before := Collect(Picker(q), frames, n - 1);
      var f := frames[n - 1];
      if q(f) {
        CollectConcat(Picker(p), before, [f], 1);
        assert Collect(Picker(p), [f], 1) == Collect(Picker(p), [f], 0) + (if p(f) then [f] else []);
      } else {
        assert before + [] == before;
      }
    }
  }

  /** Picking less keeps as many only by dropping nothing. */
  lemma {:induction false} PickCount(p: Frame -> bool, q: Frame -> bool, frames: seq<Frame>, n: nat)
    requires n <= |frames| && forall f :: p(f) ==> q(f)
    ensures |Collect(Picker(p), frames, n)| <= |Collect(Picker(q), frames, n)| <= n
    ensures |Collect(Picker(p), frames, n)| == |Collect(Picker(q), frames, n)| <==>
            forall i :: 0 <= i < n && q(frames[i]) ==> p(frames[i])
  {
    if n > 0 { PickCount(p, q, frames, n - 1); }
  }

  lemma {:induction false} PickAlike(p: Frame -> bool, q: Frame -> bool, frames: seq<Frame>, n: nat)
    requires n <= |frames| && forall i :: 0 <= i < n ==> p(frames[i]) == q(frames[i])
    ensures Collect(Picker(p), frames, n) == Collect(Picker(q), frames, n)
  {
    if n > 0 { PickAlike(p, q, frames, n - 1); }
  }

  /** A stream's decodable frames are all its frames exactly when every one of them resolves. */
  lemma {:induction false} RoutedLosesIff(frames: seq<Frame>, resolves: set<int>, stream: string)
    ensures Routed(Decodable(frames, resolves), stream) == Routed(frames, stream) <==>
            forall i :: 0 <= i < |frames| && frames[i].stream == stream ==> frames[i].schemaId in resolves
  {
    var p, q := (f: Frame) => f.stream == stream, (f: Frame) => f.schemaId in resolves;
    var both := (f: Frame) => p(f) && q(f);
    PickSome(p, q, frames, |frames|);
    PickCount(both, p, frames, |frames|);
    if forall i :: 0 <= i < |frames| && frames[i].stream == stream ==> frames[i].schemaId in resolves {
      PickAlike(both, p, frames, |frames|);
    }
  }

  lemma {:induction false} CommitPosition(t: BronzeTable, frames: seq<Frame>, end: nat, at: int)
    requires Chronological(t.snapshots) && forall i :: 0 <= i < |t.snapshots| ==> t.snapshots[i].committedAt < at
    ensures Chronological(Committed(t, frames, end, at).snapshots)
    ensures Committed(t, frames, end, at).Position() == Some(end)
  {
    LatestAfterCommit(t.snapshots, Snapshot(at, Some(Decode), end), Decode);
  }

  /**
   A table stays exact through a commit exactly when every frame of its stream in the range resolves: a frame whose
   schema the registry cannot fetch is passed over for good once a neighbour's commit moves the position.
   */
  lemma {:induction false} CommitExactIff(t: BronzeTable, raw: seq<seq<Frame>>, end: nat, at: int, resolves: set<int>)
    requires Exact(t, raw) && t.Start() <= end <= |raw| && Chronological(t.snapshots)
    requires forall i :: 0 <= i < |t.snapshots| ==> t.snapshots[i].committedAt < at
    ensures var source := Range(raw, t.Start(), end);
            Exact(Committed(t, Decodable(source, resolves), end, at), raw) <==>
            forall i :: 0 <= i < |source| && source[i].stream == t.stream ==> source[i].schemaId in resolves
  {
    var source := Range(raw, t.Start(), end);
    var held := Flatten(raw, t.Start());
    CommitPosition(t, Decodable(source, resolves), end, at);
    RangeSplit(raw, t.Start(), end);
    CollectConcat(Picker((f: Frame) => f.stream == t.stream), held, source, |source|);
    RoutedLosesIff(source, resolves, t.stream);
    var a, b, c := t.rows, Routed(Decodable(source, resolves), t.stream), Routed(source, t.stream);
    assert a + b == a + c <==> b == c by {
      assert (a + b)[|a|..] == b && (a + c)[|a|..] == c;
    }
  }

  /** After a crash between two tables' commits the venue refuses, so nothing is decoded twice or passed over. */
  lemma {:induction false} CrashSplitsPositions(t: BronzeTable, u: BronzeTable, frames: seq<Frame>, end: nat, at: int,
                                                tables: seq<BronzeTable>, i: nat, j: nat)
    requires Chronological(t.snapshots) && forall k :: 0 <= k < |t.snapshots| ==> t.snapshots[k].committedAt < at
    requires u.Position() != Some(end)
    requires i < |tables| && j < |tables| && tables[i] == Committed(t, frames, end, at) && tables[j] == u
    ensures !Together(tables)
  {
    CommitPosition(t, frames, end, at);
    assert tables[i].Position() != tables[j].Position();
  }

  // ---- every run ----

  /** One commit of a table: the raw range it took, and the schemas that could be fetched then. */
  datatype Taken = Taken(start: nat, end: nat, resolves: set<int>)

  /** The raw archive of a venue, its tables, and what each table's commits took. */
  datatype World = World(raw: seq<seq<Frame>>, tables: seq<BronzeTable>, logs: seq<seq<Taken>>)

  /** What can happen: raw grows, the venue is staged up to a snapshot and perhaps crashes, a table is maintained. */
  datatype Action =
    | RawCommits(added: seq<Frame>)
    | Stages(end: nat, at: int, resolves: set<int>, stop: nat)
    | Compacts(i: nat, at: int)
    | Expires(i: nat, k: nat)

  ghost predicate Later(t: BronzeTable, at: int) {
    forall k :: 0 <= k < |t.snapshots| ==> t.snapshots[k].committedAt < at
  }

  ghost predicate Enabled(w: World, a: Action) {
    match a
    case RawCommits(_) => true
    case Stages(end, at, resolves, stop) =>
      && w.tables != [] && stop <= |w.tables| == |w.logs| && 0 < end <= |w.raw|
      && forall i :: 0 <= i < |w.tables| ==> w.tables[i].Start() <= end && Later(w.tables[i], at)
    case Compacts(i, at) => i < |w.tables| && Later(w.tables[i], at)
    case Expires(i, k) =>
      i < |w.tables| && k < |w.tables[i].snapshots| && NewestIndex(w.tables[i].snapshots, Decode) != Some(k)
  }

  /** The logs after a staging that left `after`: a table that committed took the range from its own position. */
  ghost function Logged(w: World, after: seq<BronzeTable>, end: nat, resolves: set<int>): seq<seq<Taken>>
    requires |after| == |w.tables| == |w.logs|
  {
    seq(|w.logs|, i requires 0 <= i < |w.logs| =>
      if after[i] == w.tables[i] then w.logs[i] else w.logs[i] + [Taken(w.tables[i].Start(), end, resolves)])
  }

  ghost function Next(w: World, a: Action): World
    requires Enabled(w, a)
  {
    match a
    case RawCommits(added) => w.(raw := w.raw + [added])
    case Stages(end, at, resolves, stop) =>
      var after := StageTables(w.tables, w.raw, end, at, resolves, stop);
      w.(tables := after, logs := Logged(w, after, end, resolves))
    case Compacts(i, at) =>
      var t := w.tables[i];
      w.(tables := w.tables[i := t.(snapshots := t.snapshots + [Snapshot(at, None, 0)])])
    case Expires(i, k) =>
      var t := w.tables[i];
      w.(tables := w.tables[i := t.(snapshots := Without(t.snapshots, k))])
  }

  /** The first `n` commits took adjoining ranges, from the beginning of raw up to `position`. */
  ghost predicate Chained(log: seq<Taken>, n: nat, position: nat)
    requires n <= |log|
  {
    if n == 0 then position == 0 else
      log[n - 1].start <= log[n - 1].end == position && Chained(log, n - 1, log[n - 1].start)
  }

  /** What the first `n` commits wrote. */
  ghost function Wrote(raw: seq<seq<Frame>>, stream: string, log: seq<Taken>, n: nat, position: nat): seq<Frame>
    requires n <= |log| && Chained(log, n, position) && position <= |raw|
  {
    if n == 0 then [] else
      var c := log[n - 1];
      Wrote(raw, stream, log, n - 1, c.start) + Routed(Decodable(Range(raw, c.start, c.end), c.resolves), stream)
  }

  /** Each frame of the stream resolved when its range was taken. */
  ghost predicate AllResolved(raw: seq<seq<Frame>>, stream: string, log: seq<Taken>, n: nat, position: nat)
    requires n <= |log| && Chained(log, n, position) && position <= |raw|
  {
    n == 0 ||
    var c := log[n - 1];
    && AllResolved(raw, stream, log, n - 1, c.start)
    && Resolved(Range(raw, c.start, c.end), stream, c.resolves)
  }

  ghost predicate Resolved(source: seq<Frame>, stream: string, resolves: set<int>) {
    forall i :: 0 <= i < |source| && source[i].stream == stream ==> source[i].schemaId in resolves
  }

  ghost predicate TableOk(raw: seq<seq<Frame>>, t: BronzeTable, log: seq<Taken>) {
    && Chronological(t.snapshots) && t.Start() <= |raw| && Chained(log, |log|, t.Start())
    && t.rows == Wrote(raw, t.stream, log, |log|, t.Start())
  }

  ghost predicate Inv(w: World) {
    |w.tables| == |w.logs| && forall i :: 0 <= i < |w.tables| ==> TableOk(w.raw, w.tables[i], w.logs[i])
  }

  /** No frame of the stream is held more often than raw holds it up to the table's position, and no other frame is. */
  ghost predicate NoDoubles(raw: seq<seq<Frame>>, t: BronzeTable) {
    t.Start() <= |raw| && multiset(t.rows) <= multiset(Routed(Flatten(raw, t.Start()), t.stream))
  }

  lemma {:induction false} RoutedSplit(raw: seq<seq<Frame>>, stream: string, start: nat, end: nat)
    requires start <= end <= |raw|
    ensures Routed(Flatten(raw, end), stream) ==
            Routed(Flatten(raw, start), stream) + Routed(Range(raw, start, end), stream)
  {
    RangeSplit(raw, start, end);
    CollectConcat(Picker((f: Frame) => f.stream == stream), Flatten(raw, start), Range(raw, start, end),
                  |Range(raw, start, end)|);
  }

  lemma {:induction false} PickFewer(p: Frame -> bool, q: Frame -> bool, frames: seq<Frame>, n: nat)
    requires n <= |frames| && forall f :: p(f) ==> q(f)
    ensures multiset(Collect(Picker(p), frames, n)) <= multiset(Collect(Picker(q), frames, n))
  {
    if n > 0 {
      PickFewer(p, q, frames, n - 1);
      var last := frames[n - 1];
      FewerConcat(Collect(Picker(p), frames, n - 1), Collect(Picker(q), frames, n - 1),
                  if p(last) then [last] else [], if q(last) then [last] else []);
    }
  }

  lemma {:induction false} FewerConcat(a: seq<Frame>, b: seq<Frame>, c: seq<Frame>, d: seq<Frame>)
    requires multiset(a) <= multiset(b) && multiset(c) <= multiset(d)
    ensures multiset(a + c) <= multiset(b + d)
  {
    assert multiset(a + c) == multiset(a) + multiset(c) && multiset(b + d) == multiset(b) + multiset(d);
  }

  lemma {:induction false} DecodableFewer(frames: seq<Frame>, resolves: set<int>, stream: string)
    ensures multiset(Routed(Decodable(frames, resolves), stream)) <= multiset(Routed(frames, stream))
  {
    var p, q := (f: Frame) => f.stream == stream, (f: Frame) => f.schemaId in resolves;
    PickSome(p, q, frames, |frames|);
    PickFewer((f: Frame) => p(f) && q(f), p, frames, |frames|);
  }

  lemma {:induction false} WroteWithin(raw: seq<seq<Frame>>, stream: string, log: seq<Taken>, n: nat, position: nat)
    requires n <= |log| && Chained(log, n, position) && position <= |raw|
    ensures multiset(Wrote(raw, stream, log, n, position)) <= multiset(Routed(Flatten(raw, position), stream))
    decreases n
  {
    if n > 0 {
      var c := log[n - 1];
      WroteWithin(raw, stream, log, n - 1, c.start);
      DecodableFewer(Range(raw, c.start, c.end), c.resolves, stream);
      RoutedSplit(raw, stream, c.start, c.end);
    }
  }

  lemma {:induction false} FewerIsShorter(a: seq<Frame>, b: seq<Frame>)
    requires multiset(a) <= multiset(b)
    ensures |a| <= |b|
  {
    var rest := multiset(b) - multiset(a);
    assert multiset(b) == multiset(a) + rest;
    assert |multiset(b)| == |multiset(a)| + |rest|;
  }

  /** Two concatenations of no longer parts are equal exactly part by part. */
  lemma {:induction false} PartsEqual(a: seq<Frame>, b: seq<Frame>, c: seq<Frame>, d: seq<Frame>)
    requires |a| <= |c| && |b| <= |d|
    ensures a + b == c + d <==> a == c && b == d
  {
    if a + b == c + d {
      assert |a| == |c|;
      assert a == (a + b)[..|a|] == (c + d)[..|c|] == c;
      assert b == (a + b)[|a|..] == (c + d)[|c|..] == d;
    }
  }

  lemma {:induction false} WroteAllIff(raw: seq<seq<Frame>>, stream: string, log: seq<Taken>, n: nat, position: nat)
    requires n <= |log| && Chained(log, n, position) && position <= |raw|
    ensures Wrote(raw, stream, log, n, position) == Routed(Flatten(raw, position), stream) <==>
            AllResolved(raw, stream, log, n, position)
    decreases n
  {
    if n == 0 {
      assert Flatten(raw, 0) == [];
    } else {
      WroteAllIff(raw, stream, log, n - 1, log[n - 1].start);
      LastTaken(raw, stream, log, n, position);
    }
  }

  /** The last commit's part, and the parts before it, are each within what raw holds. */
  lemma {:induction false} LastTaken(raw: seq<seq<Frame>>, stream: string, log: seq<Taken>, n: nat, position: nat)
    requires 0 < n <= |log| && Chained(log, n, position) && position <= |raw|
    ensures var c := log[n - 1];
            Wrote(raw, stream, log, n, position) == Routed(Flatten(raw, position), stream) <==>
            && Wrote(raw, stream, log, n - 1, c.start) == Routed(Flatten(raw, c.start), stream)
            && Resolved(Range(raw, c.start, c.end), stream, c.resolves)
  {
    var c := log[n - 1];
    var source := Range(raw, c.start, c.end);
    var before, held := Wrote(raw, stream, log, n - 1, c.start), Routed(Flatten(raw, c.start), stream);
    var kept, all := Routed(Decodable(source, c.resolves), stream), Routed(source, stream);
    assert kept == all <==> Resolved(source, stream, c.resolves) by { RoutedLosesIff(source, c.resolves, stream); }
    assert Routed(Flatten(raw, position), stream) == held + all by { RoutedSplit(raw, stream, c.start, c.end); }
    assert |before| <= |held| by {
      WroteWithin(raw, stream, log, n - 1, c.start);
      FewerIsShorter(before, held);
    }
    assert |kept| <= |all| by {
      DecodableFewer(source, c.resolves, stream);
      FewerIsShorter(kept, all);
    }
    PartsEqual(before, kept, held, all);
  }

  lemma {:induction false} WroteSame(raw: seq<seq<Frame>>, added: seq<Frame>, stream: string, log: seq<Taken>, n: nat,
                                     position: nat)
    requires n <= |log| && Chained(log, n, position) && position <= |raw|
    ensures Wrote(raw + [added], stream, log, n, position) == Wrote(raw, stream, log, n, position)
    decreases n
  {
    if n > 0 {
      var c := log[n - 1];
      WroteSame(raw, added, stream, log, n - 1, c.start);
      assert (raw + [added])[c.start..c.end] == raw[c.start..c.end];
    }
  }

  lemma {:induction false} LogSame(raw: seq<seq<Frame>>, stream: string, log: seq<Taken>, more: seq<Taken>, n: nat,
                                   position: nat)
    requires n <= |log| && n <= |more| && (forall i :: 0 <= i < n ==> log[i] == more[i])
    requires Chained(log, n, position) && position <= |raw|
    ensures Chained(more, n, position)
    ensures Wrote(raw, stream, more, n, position) == Wrote(raw, stream, log, n, position)
    decreases n
  {
    if n > 0 { LogSame(raw, stream, log, more, n - 1, log[n - 1].start); }
  }

  /** A commit takes the range from where the table stands. */
  lemma {:induction false} CommitKeepsOk(raw: seq<seq<Frame>>, t: BronzeTable, log: seq<Taken>, end: nat, at: int,
                                         resolves: set<int>)
    requires TableOk(raw, t, log) && t.Start() <= end <= |raw| && Later(t, at)
    ensures var t' := Committed(t, Decodable(Range(raw, t.Start(), end), resolves), end, at);
            TableOk(raw, t', log + [Taken(t.Start(), end, resolves)]) && t' != t
  {
    var log' := log + [Taken(t.Start(), end, resolves)];
    CommitPosition(t, Decodable(Range(raw, t.Start(), end), resolves), end, at);
    LogSame(raw, t.stream, log, log', |log|, t.Start());
    assert Chained(log', |log'|, end);
  }

  /** Tables that stand together read the same range. */
  lemma {:induction false} StagesOneTable(w: World, end: nat, at: int, resolves: set<int>, stop: nat, i: nat)
    requires Inv(w) && Enabled(w, Stages(end, at, resolves, stop)) && i < |w.tables|
    ensures var w' := Next(w, Stages(end, at, resolves, stop)); TableOk(w'.raw, w'.tables[i], w'.logs[i])
  {
    var after := StageTables(w.tables, w.raw, end, at, resolves, stop);
    assert TableOk(w.raw, w.tables[i], w.logs[i]);
    if after[i] != w.tables[i] {
      assert w.tables[i].Position() == w.tables[0].Position();
      CommitKeepsOk(w.raw, w.tables[i], w.logs[i], end, at, resolves);
    }
  }

  lemma {:induction false} MaintenanceKeepsOk(raw: seq<seq<Frame>>, t: BronzeTable, log: seq<Taken>, at: int, k: nat)
    requires TableOk(raw, t, log)
    ensures Later(t, at) ==> TableOk(raw, t.(snapshots := t.snapshots + [Snapshot(at, None, 0)]), log)
    ensures k < |t.snapshots| && NewestIndex(t.snapshots, Decode) != Some(k) ==>
              TableOk(raw, t.(snapshots := Without(t.snapshots, k)), log)
  {
    if Later(t, at) { LatestAfterCommit(t.snapshots, Snapshot(at, None, 0), Decode); }
    if k < |t.snapshots| && NewestIndex(t.snapshots, Decode) != Some(k) {
      WithoutKeepsOrder(t.snapshots, k);
      LatestAfterExpiry(t.snapshots, k, Decode);
    }
  }

  lemma {:induction false} NextKeepsInv(w: World, a: Action)
    requires Inv(w) && Enabled(w, a)
    ensures Inv(Next(w, a))
  {
    var w' := Next(w, a);
    forall i | 0 <= i < |w'.tables| ensures TableOk(w'.raw, w'.tables[i], w'.logs[i]) {
      assert TableOk(w.raw, w.tables[i], w.logs[i]);
      match a {
        case RawCommits(added) =>
          WroteSame(w.raw, added, w.tables[i].stream, w.logs[i], |w.logs[i]|, w.tables[i].Start());
        case Stages(end, at, resolves, stop) => StagesOneTable(w, end, at, resolves, stop, i);
        case Compacts(j, at) => MaintenanceKeepsOk(w.raw, w.tables[i], w.logs[i], at, 0);
        case Expires(j, k) => MaintenanceKeepsOk(w.raw, w.tables[i], w.logs[i], 0, k);
      }
    }
  }

  /** Empty tables, nothing taken. */
  ghost predicate Initial(w: World) {
    |w.tables| == |w.logs| && forall i :: 0 <= i < |w.tables| ==>
      w.tables[i].snapshots == [] && w.tables[i].rows == [] && w.logs[i] == []
  }

  ghost predicate Legal(w: World, acts: seq<Action>, n: nat)
    requires n <= |acts|
    decreases n, 0
  {
    n == 0 || (Legal(w, acts, n - 1) && Enabled(After(w, acts, n - 1), acts[n - 1]))
  }

  ghost function After(w: World, acts: seq<Action>, n: nat): World
    requires n <= |acts| && Legal(w, acts, n)
    decreases n, 1
  {
    if n == 0 then w else Next(After(w, acts, n - 1), acts[n - 1])
  }

  lemma {:induction false} RunKeepsInv(w: World, acts: seq<Action>, n: nat)
    requires Initial(w) && n <= |acts| && Legal(w, acts, n)
    ensures Inv(After(w, acts, n))
    decreases n
  {
    if n > 0 {
      RunKeepsInv(w, acts, n - 1);
      NextKeepsInv(After(w, acts, n - 1), acts[n - 1]);
    }
  }

  /**
   In every reachable state, whatever crashed, was maintained or would not resolve, no table holds a frame twice, and
   a table holds every frame of its stream up to its position exactly when each resolved at the commit that took its
   range.
   */
  lemma {:induction false} NeverDoubles(w: World, acts: seq<Action>, n: nat, i: nat)
    requires Initial(w) && n <= |acts| && Legal(w, acts, n) && i < |After(w, acts, n).tables|
    ensures var s := After(w, acts, n);
            var t := s.tables[i];
            && |s.logs| == |s.tables| && NoDoubles(s.raw, t)
            && Chained(s.logs[i], |s.logs[i]|, t.Start())
            && (Exact(t, s.raw) <==> AllResolved(s.raw, t.stream, s.logs[i], |s.logs[i]|, t.Start()))
  {
    RunKeepsInv(w, acts, n);
    var s := After(w, acts, n);
    var t, log := s.tables[i], s.logs[i];
    assert TableOk(s.raw, t, log);
    WroteWithin(s.raw, t.stream, log, |log|, t.Start());
    WroteAllIff(s.raw, t.stream, log, |log|, t.Start());
  }

  // ---- the accounting ----

  lemma {:induction false} CountByStream(frames: seq<Frame>, streams: seq<string>, f: Frame, n: nat)
    requires n <= |streams| && forall i, j :: 0 <= i < j < |streams| ==> streams[i] != streams[j]
    ensures CountTo(frames + [f], streams, n) ==
            CountTo(frames, streams, n) + (if f.stream in streams[..n] then 1 else 0)
  {
    if n > 0 {
      CountByStream(frames, streams, f, n - 1);
      assert streams[..n] == streams[..n - 1] + [streams[n - 1]];
      PickOneMore((g: Frame) => g.stream == streams[n - 1], frames, f);
      if f.stream == streams[n - 1] { assert f.stream !in streams[..n - 1]; }
    }
  }

  lemma {:induction false} PickOneMore(p: Frame -> bool, frames: seq<Frame>, f: Frame)
    ensures Pick(p, frames + [f]) == if p(f) then Pick(p, frames) + [f] else Pick(p, frames)
  {
    CollectConcat(Picker(p), frames, [f], 1);
    assert Collect(Picker(p), [f], 1) == Collect(Picker(p), [f], 0) + (if p(f) then [f] else []);
  }

  lemma {:induction false} NothingCounts(streams: seq<string>, n: nat)
    requires n <= |streams|
    ensures CountTo([], streams, n) == 0
  {
    if n > 0 { NothingCounts(streams, n - 1); }
  }

  /** Every decodable frame is in one table or is a control frame. */
  lemma {:induction false} EveryFrameOnce(frames: seq<Frame>, streams: seq<string>)
    requires forall i, j :: 0 <= i < j < |streams| ==> streams[i] != streams[j]
    ensures CountTo(frames, streams, |streams|) + |Unrouted(frames, streams)| == |frames|
  {
    if frames == [] {
      NothingCounts(streams, |streams|);
    } else {
      var init, f := frames[..|frames| - 1], frames[|frames| - 1];
      assert frames == init + [f];
      EveryFrameOnce(init, streams);
      CountByStream(init, streams, f, |streams|);
      assert streams[..|streams|] == streams;
      PickOneMore((g: Frame) => g.stream !in streams, init, f);
    }
  }

  lemma {:induction false} DecodableOrMissed(source: seq<Frame>, resolves: set<int>, n: nat)
    requires n <= |source|
    ensures |Collect(Picker((f: Frame) => f.schemaId in resolves), source, n)| + Missed(source, resolves, n) == n
  {
    if n > 0 { DecodableOrMissed(source, resolves, n - 1); }
  }

  /** What the parity line leaves unaccounted for is the frames passed over for their schema, one by one. */
  lemma {:induction false} UnaccountedIsMissed(source: seq<Frame>, resolves: set<int>, streams: seq<string>)
    requires forall i, j :: 0 <= i < j < |streams| ==> streams[i] != streams[j]
    ensures var frames := Decodable(source, resolves);
            CountTo(frames, streams, |streams|) + |Unrouted(frames, streams)| + Missed(source, resolves, |source|)
            == |source|
  {
    EveryFrameOnce(Decodable(source, resolves), streams);
    DecodableOrMissed(source, resolves, |source|);
  }

  /** The parity line balances exactly when no frame of the range was passed over for its schema. */
  lemma {:induction false} BalancedIff(source: seq<Frame>, resolves: set<int>, streams: seq<string>)
    requires forall i, j :: 0 <= i < j < |streams| ==> streams[i] != streams[j]
    ensures var frames := Decodable(source, resolves);
            |source| == CountTo(frames, streams, |streams|) + |Unrouted(frames, streams)| <==>
            forall i :: 0 <= i < |source| ==> source[i].schemaId in resolves
  {
    EveryFrameOnce(Decodable(source, resolves), streams);
    PickCount((f: Frame) => f.schemaId in resolves, (f: Frame) => true, source, |source|);
    AllPicked(source, |source|);
  }

  lemma {:induction false} AllPicked(frames: seq<Frame>, n: nat)
    requires n <= |frames|
    ensures |Collect(Picker((f: Frame) => true), frames, n)| == n
  {
    if n > 0 { AllPicked(frames, n - 1); }
  }
}
