/** The dimension table and the cycle over it. */
module Dimension {
  import opened Scd2
  import opened Timeline

  /** The MERGE: every current row of a closed key. */
  function CloseRows(rows: Rows, close: seq<Key>, ts: int): Rows {
    seq(|rows|, i requires 0 <= i < |rows| => if rows[i].0 in close then (rows[i].0, Shut(rows[i].1, ts)) else rows[i])
  }

  lemma {:induction false} CloseHistory(rows: Rows, close: seq<Key>, ts: int, k: Key)
    ensures History(CloseRows(rows, close, ts), k) ==
            if k in close then ShutAll(History(rows, k), ts) else History(rows, k)
  {
    if rows != [] {
      var init, last := rows[..|rows| - 1], rows[|rows| - 1];
      CloseHistory(init, close, ts, k);
      assert CloseRows(rows, close, ts)[..|rows| - 1] == CloseRows(init, close, ts);
      assert rows == init + [last];
      if last.0 == k { ShutAppend(History(init, k), last.1, ts); }
    }
  }

  lemma {:induction false} ShutAppend(h: seq<Version>, v: Version, ts: int)
    ensures ShutAll(h + [v], ts) == ShutAll(h, ts) + [Shut(v, ts)]
  {}

  class Dim {
    var rows: Rows

    constructor ()
      ensures rows == []
    {
      rows := [];
    }

    /** `{key: row ... WHERE is_current}` */
    method OpenVersions() returns (previous: Dict<Version>)
      ensures previous.Valid()
      ensures forall k :: previous.Find(k) == OpenOf(History(rows, k))
    {
      var keys: seq<Key> := [];
      var at: map<Key, Version> := map[];
      for i := 0 to |rows|
        invariant Dict(keys, at).Valid()
        invariant forall k :: Dict(keys, at).Find(k) == OpenOf(History(rows[..i], k))
      {
        var (key, v) := rows[i];
        assert rows[..i + 1] == rows[..i] + [(key, v)];
        forall k
          ensures History(rows[..i + 1], k) == if key == k then History(rows[..i], k) + [v] else History(rows[..i], k)
        {
          HistoryAppend(rows[..i], key, v, k);
        }
        assert (History(rows[..i], key) + [v])[..|History(rows[..i], key)|] == History(rows[..i], key);
        if v.isCurrent {
          if key !in at {
            keys := keys + [key];
          }
          at := at[key := v];
        }
      }
      assert rows[..|rows|] == rows;
      previous := Dict(keys, at);
    }

    /** `_merge_dim`: close, then insert; `crashed` stops it between the two. */
    method MergeDim(sha: string -> string, tracked: seq<string>, current: Dict<Attrs>, runTs: int, crashed: bool)
      requires current.Valid()
      modifies this
      ensures forall k :: History(rows, k) ==
                (if crashed then KeyCrash(sha, tracked, old(History(rows, k)), current.Find(k), runTs)
                 else KeyRun(sha, tracked, old(History(rows, k)), current.Find(k), runTs))
    {
      ghost var was := rows;
      var previous := OpenVersions();
      var close, insert := Plan(sha, tracked, previous, current, runTs);
      if close != [] {
        rows := CloseRows(rows, close, runTs);
      }
      forall k ensures History(rows, k) == KeyCrash(sha, tracked, History(was, k), current.Find(k), runTs) {
        CloseHistory(was, close, runTs, k);
        assert previous.Find(k) == OpenOf(History(was, k));
        assert k in close <==> Decide(sha, tracked, previous.Find(k), current.Find(k), runTs).closes;
      }
      if crashed {
        return;
      }
      ghost var closed := rows;
      rows := rows + insert;
      forall k ensures History(rows, k) == KeyRun(sha, tracked, History(was, k), current.Find(k), runTs) {
        HistoryConcat(closed, insert, k);
        assert previous.Find(k) == OpenOf(History(was, k));
      }
    }
  }
}
