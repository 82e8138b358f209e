/** Type-2 dimension bookkeeping (docker/lake/scd2.py) and the cycle that applies it (docker/lake/gold.py). */
module Scd2 {
  import opened Prelude

  /** Microseconds since 1970; `FOREVER` is 9999-12-31 23:59:59. */
  const EPOCH := 0
  const FOREVER := 253_402_300_799_000_000

  const SEP: char := '\U{001f}'
  const NULL_TEXT: string := "\0"

  /** A natural key; never looked inside. */
  type Key = seq<string>

  /** The attributes a version is about, each as `str` prints it; an absent one is NULL. */
  datatype Attrs = Attrs(subscribed: bool, fields: map<string, Option<string>>) {
    function Get(name: string): Option<string> {
      if name == "subscribed" then Some(if subscribed then "True" else "False")
      else if name in fields then fields[name] else None
    }
  }

  datatype Version = Version(attrs: Attrs, hash: string, validFrom: int, validTo: int, isCurrent: bool, recordedAt: int)

  // ---- the attribute hash ----

  function Text(v: Option<string>): string {
    if v.None? then NULL_TEXT else v.value
  }

  /** `_SEP.join` over the first `n` tracked attributes. */
  function Payload(a: Attrs, tracked: seq<string>, n: nat): string
    requires n <= |tracked|
  {
    if n == 0 then ""
    else if n == 1 then Text(a.Get(tracked[0]))
    else Payload(a, tracked, n - 1) + [SEP] + Text(a.Get(tracked[n - 1]))
  }

  function AttrHash(sha: string -> string, a: Attrs, tracked: seq<string>): string {
    sha(Payload(a, tracked, |tracked|))
  }

  /** No tracked text holds the separator or spells NULL. */
  ghost predicate Serialisable(a: Attrs, tracked: seq<string>) {
    forall i :: 0 <= i < |tracked| && a.Get(tracked[i]).Some? ==>
      SEP !in a.Get(tracked[i]).value && a.Get(tracked[i]).value != NULL_TEXT
  }

  ghost predicate SameTracked(a: Attrs, b: Attrs, tracked: seq<string>, n: nat)
    requires n <= |tracked|
  {
    forall i :: 0 <= i < n ==> a.Get(tracked[i]) == b.Get(tracked[i])
  }

  lemma {:induction false} LastPart(p: string, u: string, q: string, v: string)
    requires p + [SEP] + u == q + [SEP] + v && SEP !in u && SEP !in v
    ensures p == q && u == v
  {
    var s := p + [SEP] + u;
    assert s[|p|] == SEP && s[|q|] == SEP;
    assert forall i :: |p| < i < |s| ==> s[i] == u[i - |p| - 1];
    assert forall i :: |q| < i < |s| ==> s[i] == v[i - |q| - 1];
    assert |p| == |q|;
    assert p == s[..|p|] == q && u == s[|p| + 1..] == v;
  }

  lemma {:induction false} TextInjective(v: Option<string>, w: Option<string>)
    requires v.Some? ==> v.value != NULL_TEXT
    requires w.Some? ==> w.value != NULL_TEXT
    ensures Text(v) == Text(w) <==> v == w
  {}

  /** Rows that serialise alike are tracked alike: one hash comparison stands for a column-by-column one. */
  lemma {:induction false} PayloadInjective(a: Attrs, b: Attrs, tracked: seq<string>, n: nat)
    requires n <= |tracked| && Serialisable(a, tracked) && Serialisable(b, tracked)
    ensures Payload(a, tracked, n) == Payload(b, tracked, n) <==> SameTracked(a, b, tracked, n)
  {
    if n > 0 {
      var v, w := a.Get(tracked[n - 1]), b.Get(tracked[n - 1]);
      TextInjective(v, w);
      PayloadInjective(a, b, tracked, n - 1);
      if n > 1 && Payload(a, tracked, n) == Payload(b, tracked, n) {
        assert SEP !in NULL_TEXT;
        LastPart(Payload(a, tracked, n - 1), Text(v), Payload(b, tracked, n - 1), Text(w));
      }
    }
  }

  /** The hash sees exactly the tracked attributes, as long as it does not collide on these two payloads. */
  lemma {:induction false} HashSeesTracked(sha: string -> string, a: Attrs, b: Attrs, tracked: seq<string>)
    requires Serialisable(a, tracked) && Serialisable(b, tracked)
    requires var p, q := Payload(a, tracked, |tracked|), Payload(b, tracked, |tracked|); sha(p) == sha(q) ==> p == q
    ensures AttrHash(sha, a, tracked) == AttrHash(sha, b, tracked) <==> SameTracked(a, b, tracked, |tracked|)
  {
    PayloadInjective(a, b, tracked, |tracked|);
  }

  /** A text that holds the separator, or spells NULL, can pass for another row. */
  lemma {:induction false} PayloadCollides()
    ensures var tracked := ["x", "y"];
            var a := Attrs(true, map["x" := Some("1\U{001f}2"), "y" := Some("3")]);
            var b := Attrs(true, map["x" := Some("1"), "y" := Some("2\U{001f}3")]);
            !SameTracked(a, b, tracked, 2) && Payload(a, tracked, 2) == Payload(b, tracked, 2)
    ensures var tracked := ["x"];
            var a := Attrs(true, map["x" := Some(NULL_TEXT)]);
            var b := Attrs(true, map[]);
            !SameTracked(a, b, tracked, 1) && Payload(a, tracked, 1) == Payload(b, tracked, 1)
  {
    var tracked := ["x", "y"];
    var a := Attrs(true, map["x" := Some("1\U{001f}2"), "y" := Some("3")]);
    var b := Attrs(true, map["x" := Some("1"), "y" := Some("2\U{001f}3")]);
    assert a.Get(tracked[0]) != b.Get(tracked[0]);
    assert Payload(a, tracked, 2) == "1\U{001f}2\U{001f}3" == Payload(b, tracked, 2);
    assert Attrs(true, map["x" := Some(NULL_TEXT)]).Get(["x"][0]) != Attrs(true, map[]).Get(["x"][0]);
  }

  /** The payload spelt out: the tracked texts in order, the unit separator between, NULL as one zero character. */
  lemma {:induction false} PayloadText(tick: string)
    ensures var tracked := ["base", "subscribed", "tick_size"];
            Payload(Attrs(true, map["tick_size" := Some(tick)]), tracked, 3) ==
            "\0" + "\U{001f}" + "True" + "\U{001f}" + tick
    ensures Payload(Attrs(false, map["subscribed" := None]), ["subscribed"], 1) == "False"
  {
    var a, tracked := Attrs(true, map["tick_size" := Some(tick)]), ["base", "subscribed", "tick_size"];
    assert Payload(a, tracked, 1) == "\0";
    assert Payload(a, tracked, 2) == "\0" + "\U{001f}" + "True";
  }

  // ---- the diff ----

  /** A Python dict: its keys in insertion order, once each. */
  datatype Dict<V> = Dict(keys: seq<Key>, at: map<Key, V>) {
    ghost predicate Valid() {
      && (forall i, j :: 0 <= i < j < |keys| ==> keys[i] != keys[j])
      && (forall k :: k in keys <==> k in at)
    }

    function Find(k: Key): Option<V> {
      if k in at then Some(at[k]) else None
    }
  }

  /** What the registry and the open version of one key make of it: close the open one? open a new one? */
  datatype Decision = Decision(closes: bool, opens: Option<Version>)

  function NewVersion(sha: string -> string, tracked: seq<string>, a: Attrs, validFrom: int, runTs: int): Version {
    Version(a, AttrHash(sha, a, tracked), validFrom, FOREVER, true, runTs)
  }

  function Decide(sha: string -> string, tracked: seq<string>, open: Option<Version>, now: Option<Attrs>,
                  runTs: int): Decision {
    match (open, now)
    case (None, None) => Decision(false, None)
    case (None, Some(row)) => Decision(false, Some(NewVersion(sha, tracked, row, EPOCH, runTs)))
    case (Some(v), Some(row)) =>
      if v.hash == AttrHash(sha, row, tracked) then Decision(false, None)
      else Decision(true, Some(NewVersion(sha, tracked, row, runTs, runTs)))
    case (Some(v), None) =>
      if !v.attrs.subscribed then Decision(false, None)
      else Decision(true, Some(NewVersion(sha, tracked, v.attrs.(subscribed := false), runTs, runTs)))
  }

  type Rows = seq<(Key, Version)>

  /** A key's versions, in the order they were appended. */
  function History(rows: Rows, k: Key): seq<Version> {
    if rows == [] then [] else
      var (key, v) := rows[|rows| - 1];
      History(rows[..|rows| - 1], k) + (if key == k then [v] else [])
  }

  lemma {:induction false} HistoryAppend(rows: Rows, key: Key, v: Version, k: Key)
    ensures History(rows + [(key, v)], k) == if key == k then History(rows, k) + [v] else History(rows, k)
  {
    assert (rows + [(key, v)])[..|rows|] == rows;
  }

  lemma {:induction false} HistoryConcat(a: Rows, b: Rows, k: Key)
    ensures History(a + b, k) == History(a, k) + History(b, k)
  {
    if b == [] {
      assert a + b == a;
    } else {
      var init := b[..|b| - 1];
      var (key, v) := b[|b| - 1];
      HistoryConcat(a, init, k);
      assert b == init + [(key, v)] && a + b == (a + init) + [(key, v)];
      HistoryAppend(a + init, key, v, k);
      HistoryAppend(init, key, v, k);
    }
  }

  function Listed(v: Option<Version>): seq<Version> {
    if v.None? then [] else [v.value]
  }

  ghost predicate OnceEach(keys: seq<Key>) {
    forall i, j :: 0 <= i < j < |keys| ==> keys[i] != keys[j]
  }

  /** The keys to close, of those in `done`. */
  ghost predicate Closes(decide: Key -> Decision, done: set<Key>, close: seq<Key>) {
    OnceEach(close) && forall k :: k in close <==> k in done && decide(k).closes
  }

  /** The versions to open, of the keys in `done`. */
  ghost predicate Opens(decide: Key -> Decision, done: set<Key>, insert: Rows) {
    forall k :: History(insert, k) == if k in done then Listed(decide(k).opens) else []
  }

  /** The plan has got as far as the keys in `done`. */
  ghost predicate Planned(decide: Key -> Decision, done: set<Key>, close: seq<Key>, insert: Rows) {
    Closes(decide, done, close) && Opens(decide, done, insert)
  }

  lemma {:induction false} CloseKey(decide: Key -> Decision, done: set<Key>, close: seq<Key>, k: Key)
    requires Closes(decide, done, close) && k !in done
    ensures Closes(decide, done + {k}, if decide(k).closes then close + [k] else close)
  {}

  lemma {:induction false} OpenKey(decide: Key -> Decision, done: set<Key>, insert: Rows, k: Key)
    requires Opens(decide, done, insert) && k !in done
    ensures Opens(decide, done + {k}, match decide(k).opens case None => insert case Some(v) => insert + [(k, v)])
  {
    var d := decide(k);
    if d.opens.Some? {
      var v := d.opens.value;
      forall j ensures History(insert + [(k, v)], j) == if j in done + {k} then Listed(decide(j).opens) else [] {
        HistoryAppend(insert, k, v, j);
      }
    }
  }

  lemma {:induction false} PlanKey(decide: Key -> Decision, done: set<Key>, close: seq<Key>, insert: Rows, k: Key)
    requires Planned(decide, done, close, insert) && k !in done
    ensures Planned(decide, done + {k}, if decide(k).closes then close + [k] else close,
                    match decide(k).opens case None => insert case Some(v) => insert + [(k, v)])
  {
    CloseKey(decide, done, close, k);
    OpenKey(decide, done, insert, k);
  }

  ghost function Decider(sha: string -> string, tracked: seq<string>, previous: Dict<Version>, current: Dict<Attrs>,
                         runTs: int)
    : Key -> Decision
  {
    k => Decide(sha, tracked, previous.Find(k), current.Find(k), runTs)
  }

  ghost function KeySet(keys: seq<Key>): set<Key> {
    set i | 0 <= i < |keys| :: keys[i]
  }

  lemma {:induction false} NextKey(keys: seq<Key>, i: nat)
    requires i < |keys| && OnceEach(keys)
    ensures KeySet(keys[..i + 1]) == KeySet(keys[..i]) + {keys[i]} && keys[i] !in KeySet(keys[..i])
  {
    forall k ensures k in KeySet(keys[..i + 1]) <==> k in KeySet(keys[..i]) + {keys[i]} {
      if k in KeySet(keys[..i]) {
        var j :| 0 <= j < i && keys[..i][j] == k;
        assert keys[..i + 1][j] == k;
      }
      if k == keys[i] { assert keys[..i + 1][i] == k; }
    }
  }

  lemma {:induction false} WholeKeySet(keys: seq<Key>)
    ensures forall k :: k in KeySet(keys) <==> k in keys
    ensures keys[..|keys|] == keys
  {
    forall k ensures k in KeySet(keys) <==> k in keys {
      if k in keys { var i :| 0 <= i < |keys| && keys[i] == k; }
    }
  }

  /** The first loop: what the registry lists. */
  method PlanListed(sha: string -> string, tracked: seq<string>, previous: Dict<Version>, current: Dict<Attrs>,
                    runTs: int)
    returns (close: seq<Key>, insert: Rows)
    requires previous.Valid() && current.Valid()
    ensures Planned(Decider(sha, tracked, previous, current, runTs), KeySet(current.keys), close, insert)
  {
    close, insert := [], [];
    ghost var decide := Decider(sha, tracked, previous, current, runTs);
    for i := 0 to |current.keys|
      invariant Planned(decide, KeySet(current.keys[..i]), close, insert)
    {
      var key := current.keys[i];
      NextKey(current.keys, i);
      PlanKey(decide, KeySet(current.keys[..i]), close, insert, key);
      var row := current.at[key];
      var open := previous.Find(key);
      if open.Some? && open.value.hash == AttrHash(sha, row, tracked) {
        continue;
      }
      if open.Some? {
        close := close + [key];
      }
      insert := insert + [(key, NewVersion(sha, tracked, row, if open.Some? then runTs else EPOCH, runTs))];
    }
    WholeKeySet(current.keys);
  }

  /** One step of the second loop: a key the registry no longer lists. */
  method PlanGone(sha: string -> string, tracked: seq<string>, previous: Dict<Version>, current: Dict<Attrs>,
                  runTs: int, key: Key, close: seq<Key>, insert: Rows, ghost done: set<Key>)
    returns (close': seq<Key>, insert': Rows)
    requires previous.Valid() && current.Valid() && key in previous.at
    requires Planned(Decider(sha, tracked, previous, current, runTs), done, close, insert)
    requires key !in done || key in current.at
    requires forall k :: k in current.at ==> k in done
    ensures Planned(Decider(sha, tracked, previous, current, runTs), done + {key}, close', insert')
  {
    close', insert' := close, insert;
    ghost var decide := Decider(sha, tracked, previous, current, runTs);
    var open := previous.at[key];
    if key in current.at {
      assert done + {key} == done;
      return;
    }
    PlanKey(decide, done, close, insert, key);
    if !open.attrs.subscribed {
      return;
    }
    close' := close + [key];
    insert' := insert + [(key, NewVersion(sha, tracked, open.attrs.(subscribed := false), runTs, runTs))];
  }

  /** The keys handled once `n` of the previous ones are. */
  ghost function Handled(previous: Dict<Version>, current: Dict<Attrs>, n: nat): set<Key>
    requires n <= |previous.keys|
  {
    KeySet(current.keys) + KeySet(previous.keys[..n])
  }

  lemma {:induction false} HandledNext(previous: Dict<Version>, current: Dict<Attrs>, i: nat)
    requires previous.Valid() && current.Valid() && i < |previous.keys|
    ensures var key, done := previous.keys[i], Handled(previous, current, i);
            && key in previous.at && Handled(previous, current, i + 1) == done + {key}
            && (key !in done || key in current.at)
            && forall k :: k in current.at ==> k in done
  {
    WholeKeySet(current.keys);
    NextKey(previous.keys, i);
    assert previous.keys[i] in previous.keys;
  }

  lemma {:induction false} HandledAll(previous: Dict<Version>, current: Dict<Attrs>)
    requires previous.Valid() && current.Valid()
    ensures forall k :: k in previous.at || k in current.at ==> k in Handled(previous, current, |previous.keys|)
    ensures Handled(previous, current, 0) == KeySet(current.keys)
  {
    WholeKeySet(current.keys);
    WholeKeySet(previous.keys);
  }

  /** The second loop: what the registry no longer lists. */
  method PlanUnlisted(sha: string -> string, tracked: seq<string>, previous: Dict<Version>, current: Dict<Attrs>,
                      runTs: int, close0: seq<Key>, insert0: Rows)
    returns (close: seq<Key>, insert: Rows)
    requires previous.Valid() && current.Valid()
    requires Planned(Decider(sha, tracked, previous, current, runTs), Handled(previous, current, 0), close0, insert0)
    ensures Planned(Decider(sha, tracked, previous, current, runTs), Handled(previous, current, |previous.keys|),
                    close, insert)
  {
    close, insert := close0, insert0;
    for i := 0 to |previous.keys|
      invariant Planned(Decider(sha, tracked, previous, current, runTs), Handled(previous, current, i), close, insert)
    {
      close, insert := PlanOne(sha, tracked, previous, current, runTs, i, close, insert);
    }
  }

  method PlanOne(sha: string -> string, tracked: seq<string>, previous: Dict<Version>, current: Dict<Attrs>, runTs: int,
                 i: nat, close: seq<Key>, insert: Rows)
    returns (close': seq<Key>, insert': Rows)
    requires previous.Valid() && current.Valid() && i < |previous.keys|
    requires Planned(Decider(sha, tracked, previous, current, runTs), Handled(previous, current, i), close, insert)
    ensures Planned(Decider(sha, tracked, previous, current, runTs), Handled(previous, current, i + 1), close', insert')
  {
    HandledNext(previous, current, i);
    close', insert' := PlanGone(sha, tracked, previous, current, runTs, previous.keys[i], close, insert,
                                Handled(previous, current, i));
  }

  /** `plan`: the keys to close, once each, and one new version for every key that opens one. */
  method Plan(sha: string -> string, tracked: seq<string>, previous: Dict<Version>, current: Dict<Attrs>, runTs: int)
    returns (close: seq<Key>, insert: Rows)
    requires previous.Valid() && current.Valid()
    ensures OnceEach(close)
    ensures forall k :: k in close <==> Decide(sha, tracked, previous.Find(k), current.Find(k), runTs).closes
    ensures forall k ::
              History(insert, k) == Listed(Decide(sha, tracked, previous.Find(k), current.Find(k), runTs).opens)
  {
    close, insert := PlanListed(sha, tracked, previous, current, runTs);
    HandledAll(previous, current);
    close, insert := PlanUnlisted(sha, tracked, previous, current, runTs, close, insert);
    PlanMeans(sha, tracked, previous, current, runTs, Handled(previous, current, |previous.keys|), close, insert);
  }

  lemma {:induction false} PlanMeans(sha: string -> string, tracked: seq<string>, previous: Dict<Version>,
                                     current: Dict<Attrs>, runTs: int, done: set<Key>, close: seq<Key>, insert: Rows)
    requires Planned(Decider(sha, tracked, previous, current, runTs), done, close, insert)
    requires forall k :: k in previous.at || k in current.at ==> k in done
    ensures forall k :: k in close <==> Decide(sha, tracked, previous.Find(k), current.Find(k), runTs).closes
    ensures forall k ::
              History(insert, k) == Listed(Decide(sha, tracked, previous.Find(k), current.Find(k), runTs).opens)
  {
    var decide := Decider(sha, tracked, previous, current, runTs);
    forall k ensures k in close <==> Decide(sha, tracked, previous.Find(k), current.Find(k), runTs).closes {
      assert decide(k) == Decide(sha, tracked, previous.Find(k), current.Find(k), runTs);
    }
    forall k
      ensures History(insert, k) == Listed(Decide(sha, tracked, previous.Find(k), current.Find(k), runTs).opens)
    {
      assert decide(k) == Decide(sha, tracked, previous.Find(k), current.Find(k), runTs);
    }
  }
}
