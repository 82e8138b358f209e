/** What a key's versions say about it: the registry's attributes, at every time (docker/lake/scd2.py:96-150). */
module AsOf {
  import opened Prelude
  import opened Scd2
  import opened Timeline

  /** Attributes some of the first `n` cycles listed, or the same delisted. */
  ghost predicate Seen(cycles: seq<Cycle>, n: nat, a: Attrs)
    requires n <= |cycles|
  {
    exists i :: 0 <= i < n && cycles[i].now.Some? &&
      (a == cycles[i].now.value || a == Attrs(false, cycles[i].now.value.fields))
  }

  /** A stored version's hash is that of its own attributes, which the registry gave, at the cycle that recorded it. */
  ghost predicate Own(sha: string -> string, tracked: seq<string>, cycles: seq<Cycle>, n: nat, v: Version)
    requires n <= |cycles|
  {
    && v.hash == AttrHash(sha, v.attrs, tracked) && Seen(cycles, n, v.attrs)
    && exists c :: 0 <= c < n && v.recordedAt == cycles[c].ts && (v.validFrom == EPOCH || v.validFrom == cycles[c].ts)
  }

  lemma {:induction false} OwnLater(sha: string -> string, tracked: seq<string>, cycles: seq<Cycle>, n: nat, v: Version,
                                    w: Version)
    requires 0 < n <= |cycles| && Own(sha, tracked, cycles, n - 1, v)
    requires w.attrs == v.attrs && w.hash == v.hash && w.recordedAt == v.recordedAt && w.validFrom == v.validFrom
    ensures Own(sha, tracked, cycles, n, w)
  {
    var i :| 0 <= i < n - 1 && cycles[i].now.Some? &&
      (v.attrs == cycles[i].now.value || v.attrs == Attrs(false, cycles[i].now.value.fields));
    var c :| 0 <= c < n - 1 && v.recordedAt == cycles[c].ts && (v.validFrom == EPOCH || v.validFrom == cycles[c].ts);
    assert i < n && c < n;
  }

  lemma {:induction false} OpenedIsOwn(sha: string -> string, tracked: seq<string>, cycles: seq<Cycle>, n: nat,
                                       h: seq<Version>)
    requires 0 < n <= |cycles| && forall v :: v in h ==> Own(sha, tracked, cycles, n - 1, v)
    ensures var c := cycles[n - 1];
            var d := Decide(sha, tracked, OpenOf(h), c.now, c.ts);
            d.opens.Some? ==> Own(sha, tracked, cycles, n, d.opens.value)
  {
    var c := cycles[n - 1];
    var d := Decide(sha, tracked, OpenOf(h), c.now, c.ts);
    if d.opens.Some? {
      var v := d.opens.value;
      if c.now.None? {
        OpenIsIn(h);
        var w := OpenOf(h).value;
        var i :| 0 <= i < n - 1 && cycles[i].now.Some? &&
          (w.attrs == cycles[i].now.value || w.attrs == Attrs(false, cycles[i].now.value.fields));
        assert i < n && v.attrs == Attrs(false, cycles[i].now.value.fields);
      } else {
        assert cycles[n - 1].now.Some? && v.attrs == cycles[n - 1].now.value;
      }
      assert v.recordedAt == cycles[n - 1].ts;
    }
  }

  lemma {:induction false} OpenIsIn(h: seq<Version>)
    ensures OpenOf(h).Some? ==> OpenOf(h).value in h && OpenOf(h).value.isCurrent
  {
    if h != [] && !h[|h| - 1].isCurrent { OpenIsIn(h[..|h| - 1]); }
  }

  /** Whatever crashed, every stored version is its own. */
  lemma {:induction false} VersionsAreOwn(sha: string -> string, tracked: seq<string>, cycles: seq<Cycle>, n: nat)
    requires n <= |cycles|
    ensures forall v :: v in After(sha, tracked, [], cycles, n) ==> Own(sha, tracked, cycles, n, v)
  {
    if n > 0 {
      VersionsAreOwn(sha, tracked, cycles, n - 1);
      var h, c := After(sha, tracked, [], cycles, n - 1), cycles[n - 1];
      OpenedIsOwn(sha, tracked, cycles, n, h);
      var kept := KeyCrash(sha, tracked, h, c.now, c.ts);
      forall v | v in kept ensures Own(sha, tracked, cycles, n, v) {
        var i :| 0 <= i < |kept| && kept[i] == v;
        OwnLater(sha, tracked, cycles, n, h[i], v);
      }
    }
  }

  // ---- one cycle ----

  /** The open version's hash is that of its own attributes. */
  ghost predicate OwnHash(sha: string -> string, tracked: seq<string>, open: Option<Version>) {
    open.Some? ==> open.value.hash == AttrHash(sha, open.value.attrs, tracked)
  }

  /** The hash tells these two apart if any tracked attribute does. */
  ghost predicate ToldApart(sha: string -> string, tracked: seq<string>, a: Attrs, b: Attrs) {
    AttrHash(sha, a, tracked) == AttrHash(sha, b, tracked) ==> SameTracked(a, b, tracked, |tracked|)
  }

  /**
   After an uninterrupted cycle a listed key has an open version with the registry's tracked attributes, and with all
   of the registry's attributes if it was opened by that cycle. A key no longer listed keeps the fields it had, not
   subscribed; one never seen stays unseen.
   */
  lemma {:induction false} CycleOpens(sha: string -> string, tracked: seq<string>, h: seq<Version>, now: Option<Attrs>,
                                      ts: int)
    requires OwnHash(sha, tracked, OpenOf(h))
    requires OpenOf(h).Some? && now.Some? ==> ToldApart(sha, tracked, OpenOf(h).value.attrs, now.value)
    ensures var h' := KeyRun(sha, tracked, h, now, ts);
            && (now.Some? ==>
                  && OpenOf(h').Some? && SameTracked(OpenOf(h').value.attrs, now.value, tracked, |tracked|)
                  && (h' != h ==> OpenOf(h').value.attrs == now.value))
            && (now.None? && OpenOf(h).Some? ==>
                  OpenOf(h').Some? && OpenOf(h').value.attrs == Attrs(false, OpenOf(h).value.attrs.fields))
            && (now.None? && OpenOf(h).None? ==> h' == h)
  {
    var d := Decide(sha, tracked, OpenOf(h), now, ts);
    var h' := KeyRun(sha, tracked, h, now, ts);
    if d.opens.Some? {
      assert h'[|h'| - 1] == d.opens.value;
    } else {
      assert h' == h;
    }
  }

  // ---- an as-of lookup ----

  /** No two attribute sets the cycles give rise to collide. */
  ghost predicate NoCollision(sha: string -> string, tracked: seq<string>, cycles: seq<Cycle>) {
    forall a, b :: Seen(cycles, |cycles|, a) && Seen(cycles, |cycles|, b) ==> ToldApart(sha, tracked, a, b)
  }

  /** It is so when no text holds the separator or spells NULL and the hash does not collide on their payloads. */
  lemma {:induction false} SerialisableApart(sha: string -> string, tracked: seq<string>, cycles: seq<Cycle>)
    requires forall a :: Seen(cycles, |cycles|, a) ==> Serialisable(a, tracked)
    requires forall a, b :: Seen(cycles, |cycles|, a) && Seen(cycles, |cycles|, b) ==>
               sha(Payload(a, tracked, |tracked|)) == sha(Payload(b, tracked, |tracked|)) ==>
               Payload(a, tracked, |tracked|) == Payload(b, tracked, |tracked|)
    ensures NoCollision(sha, tracked, cycles)
  {
    forall a, b | Seen(cycles, |cycles|, a) && Seen(cycles, |cycles|, b) ensures ToldApart(sha, tracked, a, b) {
      HashSeesTracked(sha, a, b, tracked);
    }
  }

  lemma {:induction false} SeenLater(cycles: seq<Cycle>, n: nat, m: nat, a: Attrs)
    requires n <= m <= |cycles| && Seen(cycles, n, a)
    ensures Seen(cycles, m, a)
  {
    var i :| 0 <= i < n && cycles[i].now.Some? &&
      (a == cycles[i].now.value || a == Attrs(false, cycles[i].now.value.fields));
    assert i < m;
  }

  /** What the first `n` cycles last said of the key: as listed, or the last listing's fields when it is gone. */
  function Registry(cycles: seq<Cycle>, n: nat): Option<Attrs>
    requires n <= |cycles|
  {
    if n == 0 then None
    else if cycles[n - 1].now.Some? then cycles[n - 1].now
    else match Registry(cycles, n - 1)
      case None => None
      case Some(a) => Some(Attrs(false, a.fields))
  }

  /** The open version of `h` is there exactly when the registry has said something, and says the same. */
  ghost predicate Matches(h: seq<Version>, said: Option<Attrs>, tracked: seq<string>) {
    && (OpenOf(h).Some? <==> said.Some?)
    && (said.Some? ==> SameTracked(OpenOf(h).value.attrs, said.value, tracked, |tracked|))
  }

  lemma {:induction false} GoneMatches(sha: string -> string, tracked: seq<string>, h: seq<Version>, ts: int,
                                       said: Option<Attrs>)
    requires Matches(h, said, tracked) && OwnHash(sha, tracked, OpenOf(h))
    ensures Matches(KeyRun(sha, tracked, h, None, ts),
                    if said.Some? then Some(Attrs(false, said.value.fields)) else None, tracked)
  {
    CycleOpens(sha, tracked, h, None, ts);
    if said.Some? {
      var a, b := OpenOf(h).value.attrs, said.value;
      forall i | 0 <= i < |tracked|
        ensures Attrs(false, a.fields).Get(tracked[i]) == Attrs(false, b.fields).Get(tracked[i])
      {
        assert a.Get(tracked[i]) == b.Get(tracked[i]);
      }
    }
  }

  lemma {:induction false} ListedMatches(sha: string -> string, tracked: seq<string>, h: seq<Version>, now: Attrs,
                                         ts: int)
    requires OwnHash(sha, tracked, OpenOf(h))
    requires OpenOf(h).Some? ==> ToldApart(sha, tracked, OpenOf(h).value.attrs, now)
    ensures Matches(KeyRun(sha, tracked, h, Some(now), ts), Some(now), tracked)
  {
    CycleOpens(sha, tracked, h, Some(now), ts);
  }

  lemma {:induction false} NextMatches(sha: string -> string, tracked: seq<string>, cycles: seq<Cycle>, n: nat,
                                       h: seq<Version>, said: Option<Attrs>)
    requires NoCollision(sha, tracked, cycles) && 0 < n <= |cycles| && !cycles[n - 1].crashed
    requires h == After(sha, tracked, [], cycles, n - 1) && Matches(h, said, tracked)
    ensures var c := cycles[n - 1];
            Matches(KeyRun(sha, tracked, h, c.now, c.ts), if c.now.Some? then c.now
                    else if said.Some? then Some(Attrs(false, said.value.fields)) else None, tracked)
  {
    var c := cycles[n - 1];
    VersionsAreOwn(sha, tracked, cycles, n - 1);
    OpenIsIn(h);
    if c.now.None? {
      GoneMatches(sha, tracked, h, c.ts, said);
    } else {
      if OpenOf(h).Some? {
        SeenLater(cycles, n - 1, |cycles|, OpenOf(h).value.attrs);
        assert Seen(cycles, |cycles|, c.now.value);
      }
      ListedMatches(sha, tracked, h, c.now.value, c.ts);
    }
  }

  /** After every uninterrupted cycle the open version says what the registry last said. */
  lemma {:induction false} OpenIsRegistry(sha: string -> string, tracked: seq<string>, cycles: seq<Cycle>, n: nat)
    requires NoCollision(sha, tracked, cycles) && n <= |cycles| && forall k :: 0 <= k < n ==> !cycles[k].crashed
    ensures Matches(After(sha, tracked, [], cycles, n), Registry(cycles, n), tracked)
  {
    if n > 0 {
      OpenIsRegistry(sha, tracked, cycles, n - 1);
      NextMatches(sha, tracked, cycles, n, After(sha, tracked, [], cycles, n - 1), Registry(cycles, n - 1));
    }
  }

  /** A version that covers a time keeps it, and its attributes, through every later cycle. */
  lemma {:induction false} StaysCovered(sha: string -> string, tracked: seq<string>, h: seq<Version>,
                                        now: Option<Attrs>, ts: int, i: nat, t: int)
    requires Tiles(h) && i < |h| && Covers(h[i], t) && t < ts
    ensures var h' := KeyRun(sha, tracked, h, now, ts);
            i < |h'| && Covers(h'[i], t) && h'[i].attrs == h[i].attrs
  {
    var kept := KeyCrash(sha, tracked, h, now, ts);
    assert KeyRun(sha, tracked, h, now, ts)[i] == kept[i];
  }

  lemma {:induction false} CoveredFrom(sha: string -> string, tracked: seq<string>, cycles: seq<Cycle>, m: nat, n: nat,
                                       i: nat, t: int)
    requires Uninterrupted(cycles) && m <= n <= |cycles| && forall k :: m <= k < n ==> t < cycles[k].ts
    requires var h := After(sha, tracked, [], cycles, m); i < |h| && Covers(h[i], t)
    ensures var h, h' := After(sha, tracked, [], cycles, m), After(sha, tracked, [], cycles, n);
            i < |h'| && Covers(h'[i], t) && h'[i].attrs == h[i].attrs
    decreases n
  {
    if m < n {
      CoveredFrom(sha, tracked, cycles, m, n - 1, i, t);
      TimelineTiles(sha, tracked, cycles, n - 1);
      StaysCovered(sha, tracked, After(sha, tracked, [], cycles, n - 1), cycles[n - 1].now, cycles[n - 1].ts, i, t);
    }
  }

  /** Time `t` falls after cycle `j` and before the next. */
  ghost predicate LastBy(cycles: seq<Cycle>, n: nat, j: nat, t: int)
    requires n <= |cycles|
  {
    j < n && cycles[j].ts <= t < FOREVER && forall k :: j < k < n ==> t < cycles[k].ts
  }

  /** A lookup at `t` finds a version, and whichever it finds has these attributes. */
  ghost predicate Finds(h: seq<Version>, t: int, a: Attrs) {
    && (exists i: nat :: i < |h| && Covers(h[i], t))
    && forall i: nat :: i < |h| && Covers(h[i], t) ==> h[i].attrs == a
  }

  lemma {:induction false} FindsOnly(h: seq<Version>, i: nat, t: int)
    requires Tiles(h) && i < |h| && Covers(h[i], t)
    ensures Finds(h, t, h[i].attrs)
  {
    forall k: nat | k < |h| && k != i ensures !Covers(h[k], t) {
      if k < i { LaterStarts(h, k, i); } else { LaterStarts(h, i, k); }
    }
  }

  lemma {:induction false} LastCovers(h: seq<Version>, ts: int, t: int)
    requires Tiles(h) && h != [] && Started(h, ts) && ts <= t < FOREVER
    ensures Covers(h[|h| - 1], t) && OpenOf(h) == Some(h[|h| - 1])
  {
    TiledOpen(h);
  }

  lemma {:induction false} FoundAfter(sha: string -> string, tracked: seq<string>, cycles: seq<Cycle>, m: nat, n: nat,
                                      i: nat, t: int, h: seq<Version>)
    requires Uninterrupted(cycles) && m <= n <= |cycles| && forall k :: m <= k < n ==> t < cycles[k].ts
    requires h == After(sha, tracked, [], cycles, m) && i < |h| && Covers(h[i], t)
    ensures Finds(After(sha, tracked, [], cycles, n), t, h[i].attrs)
  {
    CoveredFrom(sha, tracked, cycles, m, n, i, t);
    TimelineTiles(sha, tracked, cycles, n);
    FindsOnly(After(sha, tracked, [], cycles, n), i, t);
  }

  lemma {:induction false} OpenCovers(sha: string -> string, tracked: seq<string>, cycles: seq<Cycle>, j: nat, t: int,
                                      h: seq<Version>)
    requires Uninterrupted(cycles) && j < |cycles| && cycles[j].ts <= t < FOREVER
    requires h == After(sha, tracked, [], cycles, j + 1) && h != []
    ensures Covers(h[|h| - 1], t) && OpenOf(h) == Some(h[|h| - 1])
  {
    TimelineTiles(sha, tracked, cycles, j + 1);
    LastCovers(h, cycles[j].ts, t);
  }

  /** Versions run from the start of 1970 to the last second of 9999. */
  lemma {:induction false} AllOfTime(sha: string -> string, tracked: seq<string>, cycles: seq<Cycle>, n: nat)
    requires Uninterrupted(cycles) && n <= |cycles| && After(sha, tracked, [], cycles, n) != []
    ensures var h := After(sha, tracked, [], cycles, n);
            h[0].validFrom == 0 && h[|h| - 1].validTo == 253_402_300_799_000_000
  {
    TimelineTiles(sha, tracked, cycles, n);
  }

  /** The version found for `t` has the attributes that were open after the last cycle by `t`. */
  lemma {:induction false} FoundIsOpen(sha: string -> string, tracked: seq<string>, cycles: seq<Cycle>, n: nat, j: nat,
                                       t: int, current: seq<Version>)
    requires Uninterrupted(cycles) && n <= |cycles| && LastBy(cycles, n, j, t)
    requires current == After(sha, tracked, [], cycles, j + 1) && OpenOf(current).Some?
    ensures Finds(After(sha, tracked, [], cycles, n), t, OpenOf(current).value.attrs)
  {
    OpenCovers(sha, tracked, cycles, j, t, current);
    FoundAfter(sha, tracked, cycles, j + 1, n, |current| - 1, t, current);
  }

  /** An as-of lookup finds the tracked attributes the registry had last said by then. */
  lemma {:induction false} AsOfIsRegistry(sha: string -> string, tracked: seq<string>, cycles: seq<Cycle>, n: nat,
                                          j: nat, t: int)
    requires Uninterrupted(cycles) && NoCollision(sha, tracked, cycles)
    requires n <= |cycles| && LastBy(cycles, n, j, t) && Registry(cycles, j + 1).Some?
    ensures exists a :: Finds(After(sha, tracked, [], cycles, n), t, a) &&
                        SameTracked(a, Registry(cycles, j + 1).value, tracked, |tracked|)
  {
    var current := After(sha, tracked, [], cycles, j + 1);
    OpenIsRegistry(sha, tracked, cycles, j + 1);
    FoundIsOpen(sha, tracked, cycles, n, j, t, current);
    assert Finds(After(sha, tracked, [], cycles, n), t, OpenOf(current).value.attrs);
  }

  lemma {:induction false} StaysUnseen(sha: string -> string, tracked: seq<string>, cycles: seq<Cycle>, n: nat)
    requires Uninterrupted(cycles) && n <= |cycles| && forall k :: 0 <= k < n ==> cycles[k].now.None?
    ensures After(sha, tracked, [], cycles, n) == []
  {
    if n > 0 { StaysUnseen(sha, tracked, cycles, n - 1); }
  }

  /** Before the first cycle that listed the key, the lookup finds what that cycle listed. */
  lemma {:induction false} AsOfUnlisted(sha: string -> string, tracked: seq<string>, cycles: seq<Cycle>, n: nat, f: nat,
                                        t: int)
    requires Uninterrupted(cycles) && f < n <= |cycles| && EPOCH <= t < cycles[f].ts && cycles[f].now.Some?
    requires forall k :: 0 <= k < f ==> cycles[k].now.None?
    ensures Finds(After(sha, tracked, [], cycles, n), t, cycles[f].now.value)
  {
    FirstSeen(sha, tracked, cycles, f, t);
    FoundFirst(sha, tracked, cycles, n, f, t, After(sha, tracked, [], cycles, f + 1), cycles[f].now.value);
  }

  lemma {:induction false} FoundFirst(sha: string -> string, tracked: seq<string>, cycles: seq<Cycle>, n: nat, f: nat,
                                      t: int, h: seq<Version>, a: Attrs)
    requires Uninterrupted(cycles) && f < n <= |cycles| && t < cycles[f].ts
    requires h == After(sha, tracked, [], cycles, f + 1) && First(h, t, a)
    ensures Finds(After(sha, tracked, [], cycles, n), t, a)
  {
    ListedLater(cycles, f, t);
    FoundAfter(sha, tracked, cycles, f + 1, n, 0, t, h);
  }

  /** The history starts with these attributes, and they cover the time. */
  ghost predicate First(h: seq<Version>, t: int, a: Attrs) {
    h != [] && Covers(h[0], t) && h[0].attrs == a
  }

  lemma {:induction false} FirstSeen(sha: string -> string, tracked: seq<string>, cycles: seq<Cycle>, f: nat, t: int)
    requires Uninterrupted(cycles) && f < |cycles| && EPOCH <= t < cycles[f].ts && cycles[f].now.Some?
    requires forall k :: 0 <= k < f ==> cycles[k].now.None?
    ensures First(After(sha, tracked, [], cycles, f + 1), t, cycles[f].now.value)
  {
    StaysUnseen(sha, tracked, cycles, f);
    FirstListing(sha, tracked, cycles[f], t);
    AfterOne(sha, tracked, cycles, f, After(sha, tracked, [], cycles, f));
  }

  lemma {:induction false} AfterOne(sha: string -> string, tracked: seq<string>, cycles: seq<Cycle>, f: nat,
                                    h: seq<Version>)
    requires f < |cycles| && !cycles[f].crashed && h == After(sha, tracked, [], cycles, f)
    ensures After(sha, tracked, [], cycles, f + 1) == KeyRun(sha, tracked, h, cycles[f].now, cycles[f].ts)
  {}

  lemma {:induction false} ListedLater(cycles: seq<Cycle>, f: nat, t: int)
    requires Uninterrupted(cycles) && f < |cycles| && t < cycles[f].ts
    ensures t < FOREVER && !cycles[f].crashed && forall k :: f <= k < |cycles| ==> t < cycles[k].ts
  {}

  lemma {:induction false} FirstListing(sha: string -> string, tracked: seq<string>, c: Cycle, t: int)
    requires c.now.Some? && EPOCH <= t < FOREVER
    ensures First(KeyRun(sha, tracked, [], c.now, c.ts), t, c.now.value)
  {}
}
