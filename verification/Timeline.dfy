/** Version timelines: what uninterrupted and interrupted SCD2 cycles leave behind (docker/lake/gold.py:230-258). */
module Timeline {
  import opened Prelude
  import opened Scd2

  /** The row a dictionary over the current rows keeps: the last one. */
  function OpenOf(h: seq<Version>): Option<Version> {
    if h == [] then None
    else if h[|h| - 1].isCurrent then Some(h[|h| - 1])
    else OpenOf(h[..|h| - 1])
  }

  /** The MERGE's effect on one row. */
  function Shut(v: Version, ts: int): Version {
    if v.isCurrent then v.(validTo := ts, isCurrent := false) else v
  }

  function ShutAll(h: seq<Version>, ts: int): seq<Version> {
    seq(|h|, i requires 0 <= i < |h| => Shut(h[i], ts))
  }

  /** One key through the first commit only. */
  function KeyCrash(sha: string -> string, tracked: seq<string>, h: seq<Version>, now: Option<Attrs>,
                    ts: int): seq<Version> {
    if Decide(sha, tracked, OpenOf(h), now, ts).closes then ShutAll(h, ts) else h
  }

  /** One key through both commits. */
  function KeyRun(sha: string -> string, tracked: seq<string>, h: seq<Version>, now: Option<Attrs>,
                  ts: int): seq<Version> {
    KeyCrash(sha, tracked, h, now, ts) + Listed(Decide(sha, tracked, OpenOf(h), now, ts).opens)
  }

  // ---- tiling ----

  /** A key's versions cover all of time once, and only the last is open. */
  ghost predicate Tiles(h: seq<Version>) {
    h != [] ==>
      && h[0].validFrom == EPOCH && h[|h| - 1].validTo == FOREVER
      && (forall i :: 0 <= i < |h| ==> h[i].validFrom < h[i].validTo && (h[i].isCurrent <==> i == |h| - 1))
      && (forall i :: 0 <= i < |h| - 1 ==> h[i].validTo == h[i + 1].validFrom)
  }

  /** Every version so far began before `ts`. */
  ghost predicate Before(h: seq<Version>, ts: int) {
    forall i :: 0 <= i < |h| ==> h[i].validFrom < ts
  }

  /** Every version so far began by `ts`. */
  ghost predicate Started(h: seq<Version>, ts: int) {
    forall i :: 0 <= i < |h| ==> h[i].validFrom <= ts
  }

  lemma {:induction false} TiledOpen(h: seq<Version>)
    requires Tiles(h)
    ensures OpenOf(h) == if h == [] then None else Some(h[|h| - 1])
  {}

  /** A cycle at a later time keeps the timeline tiled. */
  lemma {:induction false} RunTiles(sha: string -> string, tracked: seq<string>, h: seq<Version>, now: Option<Attrs>,
                                    ts: int)
    requires Tiles(h) && Before(h, ts) && EPOCH < ts < FOREVER
    ensures Tiles(KeyRun(sha, tracked, h, now, ts))
    ensures Started(KeyRun(sha, tracked, h, now, ts), ts)
  {
    TiledOpen(h);
    var h' := KeyRun(sha, tracked, h, now, ts);
    var d := Decide(sha, tracked, OpenOf(h), now, ts);
    if d.closes {
      var shut := ShutAll(h, ts);
      assert forall i :: 0 <= i < |h| ==> h'[i] == shut[i] == Shut(h[i], ts);
    }
  }

  /** The version a range predicate `validFrom <= t < validTo` selects. */
  ghost predicate Covers(v: Version, t: int) {
    v.validFrom <= t < v.validTo
  }

  lemma {:induction false} LaterStarts(h: seq<Version>, i: nat, j: nat)
    requires Tiles(h) && i < j < |h|
    ensures h[i].validTo <= h[j].validFrom
  {
    if i < j - 1 { LaterStarts(h, i, j - 1); }
  }

  lemma {:induction false} SomeCovers(h: seq<Version>, t: int, n: nat) returns (i: nat)
    requires Tiles(h) && 0 < n <= |h| && EPOCH <= t < h[n - 1].validTo
    ensures i < n && Covers(h[i], t)
  {
    if h[n - 1].validFrom <= t {
      i := n - 1;
    } else {
      i := SomeCovers(h, t, n - 1);
    }
  }

  /** An as-of lookup finds exactly one version, and matching on `validFrom` alone finds the same one. */
  lemma {:induction false} AsOfUnique(h: seq<Version>, t: int)
    requires Tiles(h) && h != [] && EPOCH <= t < FOREVER
    ensures exists i: nat :: i < |h| && Covers(h[i], t)
              && (forall j: nat :: j < |h| && Covers(h[j], t) ==> j == i)
              && (forall j: nat :: j < |h| && h[j].validFrom <= t ==> h[j].validFrom <= h[i].validFrom)
  {
    var i := SomeCovers(h, t, |h|);
    forall j: nat | j < |h| && j != i ensures !Covers(h[j], t) {
      if j < i { LaterStarts(h, j, i); } else { LaterStarts(h, i, j); }
    }
    forall j: nat | j < |h| && h[j].validFrom <= t ensures h[j].validFrom <= h[i].validFrom {
      if i < j { LaterStarts(h, i, j); }
      if j < i { LaterStarts(h, j, i); }
    }
  }

  // ---- many cycles ----

  /** One cycle as it happened to one key: at `ts`, with these registry attributes, to the end or not. */
  datatype Cycle = Cycle(now: Option<Attrs>, ts: int, crashed: bool)

  function After(sha: string -> string, tracked: seq<string>, h: seq<Version>, cycles: seq<Cycle>, n: nat): seq<Version>
    requires n <= |cycles|
  {
    if n == 0 then h else
      var before, c := After(sha, tracked, h, cycles, n - 1), cycles[n - 1];
      if c.crashed then KeyCrash(sha, tracked, before, c.now, c.ts) else KeyRun(sha, tracked, before, c.now, c.ts)
  }

  ghost predicate Uninterrupted(cycles: seq<Cycle>) {
    && (forall i :: 0 <= i < |cycles| ==> !cycles[i].crashed && EPOCH < cycles[i].ts < FOREVER)
    && (forall i, j :: 0 <= i < j < |cycles| ==> cycles[i].ts < cycles[j].ts)
  }

  /** Uninterrupted cycles at increasing times keep every key tiled, from its first version on. */
  lemma {:induction false} TimelineTiles(sha: string -> string, tracked: seq<string>, cycles: seq<Cycle>, n: nat)
    requires Uninterrupted(cycles) && n <= |cycles|
    ensures Tiles(After(sha, tracked, [], cycles, n))
    ensures Started(After(sha, tracked, [], cycles, n), if n > 0 then cycles[n - 1].ts else EPOCH)
  {
    if n > 0 {
      TimelineTiles(sha, tracked, cycles, n - 1);
      var c := cycles[n - 1];
      RunTiles(sha, tracked, After(sha, tracked, [], cycles, n - 1), c.now, c.ts);
    }
  }

  /** An unchanged registry plans nothing: neither for a listed key nor for one already closed as gone. */
  lemma {:induction false} RerunPlansNothing(sha: string -> string, tracked: seq<string>, h: seq<Version>,
                                             now: Option<Attrs>, ts: int, later: int)
    ensures var h' := KeyRun(sha, tracked, h, now, ts);
            && Decide(sha, tracked, OpenOf(h'), now, later) == Decision(false, None)
            && KeyRun(sha, tracked, h', now, later) == h'
  {
    var d := Decide(sha, tracked, OpenOf(h), now, ts);
    var h' := KeyRun(sha, tracked, h, now, ts);
    if d.opens.Some? {
      assert h'[|h'| - 1] == d.opens.value;
    } else {
      assert h' == h;
    }
  }

  /** However many cycles follow, a delisting adds one row, and only if there was a subscribed version to carry. */
  lemma {:induction false} DelistedOnce(sha: string -> string, tracked: seq<string>, h: seq<Version>,
                                        cycles: seq<Cycle>, n: nat)
    requires 0 < n <= |cycles| && forall i :: 0 <= i < |cycles| ==> cycles[i].now.None? && !cycles[i].crashed
    ensures var h' := After(sha, tracked, h, cycles, n);
            |h'| == |h| + (if OpenOf(h).Some? && OpenOf(h).value.attrs.subscribed then 1 else 0)
            && (OpenOf(h').Some? ==> !OpenOf(h').value.attrs.subscribed)
  {
    if n == 1 {
      assert After(sha, tracked, h, cycles, 0) == h;
      var d := Decide(sha, tracked, OpenOf(h), None, cycles[0].ts);
      var h' := After(sha, tracked, h, cycles, 1);
      if d.opens.Some? { assert h'[|h'| - 1] == d.opens.value; } else { assert h' == h; }
    } else {
      DelistedOnce(sha, tracked, h, cycles, n - 1);
      var h' := After(sha, tracked, h, cycles, n - 1);
      assert After(sha, tracked, h, cycles, n) == h' + [] == h';
    }
  }

  // ---- crashes ----

  ghost predicate OneOpen(h: seq<Version>) {
    forall i, j :: 0 <= i < j < |h| ==> !(h[i].isCurrent && h[j].isCurrent)
  }

  lemma {:induction false} OpenIsCurrent(h: seq<Version>)
    ensures OpenOf(h).Some? <==> exists i :: 0 <= i < |h| && h[i].isCurrent
  {
    if h != [] {
      var init := h[..|h| - 1];
      OpenIsCurrent(init);
      if OpenOf(init).Some? {
        var i :| 0 <= i < |init| && init[i].isCurrent;
        assert h[i].isCurrent;
      }
      if !h[|h| - 1].isCurrent && exists i :: 0 <= i < |h| && h[i].isCurrent {
        var i :| 0 <= i < |h| && h[i].isCurrent;
        assert init[i].isCurrent;
      }
    }
  }

  lemma {:induction false} KeyKeepsOneOpen(sha: string -> string, tracked: seq<string>, h: seq<Version>,
                                           now: Option<Attrs>, ts: int)
    requires OneOpen(h)
    ensures OneOpen(KeyCrash(sha, tracked, h, now, ts)) && OneOpen(KeyRun(sha, tracked, h, now, ts))
  {
    OpenIsCurrent(h);
    var d := Decide(sha, tracked, OpenOf(h), now, ts);
    if d.closes {
      assert forall i :: 0 <= i < |h| ==> !ShutAll(h, ts)[i].isCurrent;
    } else if d.opens.Some? {
      assert forall i :: 0 <= i < |h| ==> !h[i].isCurrent;
    }
  }

  /** Whatever crashes between the two commits, a key never has two open versions. */
  lemma {:induction false} NeverTwoOpen(sha: string -> string, tracked: seq<string>, cycles: seq<Cycle>, n: nat)
    requires n <= |cycles|
    ensures OneOpen(After(sha, tracked, [], cycles, n))
  {
    if n > 0 {
      NeverTwoOpen(sha, tracked, cycles, n - 1);
      var c := cycles[n - 1];
      KeyKeepsOneOpen(sha, tracked, After(sha, tracked, [], cycles, n - 1), c.now, c.ts);
    }
  }

  lemma {:induction false} ShutLeavesNone(h: seq<Version>, ts: int)
    ensures OpenOf(ShutAll(h, ts)) == None
  {
    OpenIsCurrent(ShutAll(h, ts));
    assert forall i :: 0 <= i < |h| ==> !ShutAll(h, ts)[i].isCurrent;
  }

  /**
   The cycle after a crash tiles a key again exactly when the crashed one had not closed it: a key it closed comes
   back, if at all, as if it had never been seen.
   */
  lemma {:induction false} CrashHeals(sha: string -> string, tracked: seq<string>, h: seq<Version>, now: Option<Attrs>,
                                      ts: int, later: Option<Attrs>, laterTs: int)
    requires Tiles(h) && Before(h, ts) && EPOCH < ts < laterTs < FOREVER
    ensures Tiles(KeyRun(sha, tracked, KeyCrash(sha, tracked, h, now, ts), later, laterTs))
            <==> !Decide(sha, tracked, OpenOf(h), now, ts).closes
  {
    TiledOpen(h);
    var crashed := KeyCrash(sha, tracked, h, now, ts);
    var healed := KeyRun(sha, tracked, crashed, later, laterTs);
    if Decide(sha, tracked, OpenOf(h), now, ts).closes {
      ShutLeavesNone(h, ts);
      assert crashed[|h| - 1] == Shut(h[|h| - 1], ts);
      assert healed[|h| - 1] == crashed[|h| - 1] && healed[|h| - 1].validTo == ts;
    } else {
      RunTiles(sha, tracked, h, later, laterTs);
    }
  }

  /**
   What the next cycle makes of a key the crash closed. Still listed, it reopens from EPOCH, and every time up to the
   crash is covered twice. No longer listed, it is never opened again.
   */
  lemma {:induction false} CrashedKey(sha: string -> string, tracked: seq<string>, h: seq<Version>, now: Option<Attrs>,
                                      ts: int, later: Option<Attrs>, laterTs: int, t: int)
    requires Tiles(h) && Before(h, ts) && EPOCH <= t < ts < laterTs < FOREVER
    requires Decide(sha, tracked, OpenOf(h), now, ts).closes
    ensures var healed := KeyRun(sha, tracked, KeyCrash(sha, tracked, h, now, ts), later, laterTs);
            if later.Some? then
              exists i: nat :: i < |h| < |healed| && Covers(healed[i], t) && Covers(healed[|h|], t)
            else healed == KeyCrash(sha, tracked, h, now, ts) && OpenOf(healed) == None
  {
    TiledOpen(h);
    ShutLeavesNone(h, ts);
    var crashed := ShutAll(h, ts);
    var healed := KeyRun(sha, tracked, crashed, later, laterTs);
    if later.Some? {
      var i := SomeCovers(h, t, |h|);
      assert healed[i] == crashed[i] == Shut(h[i], ts);
      assert healed[|h|] == NewVersion(sha, tracked, later.value, EPOCH, laterTs);
      assert Covers(healed[i], t);
    }
  }
}
