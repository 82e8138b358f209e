/** What `missing_before` counts, in one scored set and over all runs (docker/lake/silver.py:200-219); flat indices. */
module Gapless {
  import opened Prelude
  import opened Sorting
  import opened Silver

  /** No id twice: one original per trade, ids in step with trades. */
  ghost predicate NoRepeats(ids: seq<int>) {
    forall i, j :: 0 <= i < j < |ids| ==> ids[i] != ids[j]
  }

  lemma {:induction false} PrevMeans(x: int, ids: seq<int>, n: nat)
    requires n <= |ids|
    ensures var p := PrevTo(x, ids, n);
            && (p.None? ==> forall y :: y in ids[..n] ==> y >= x)
            && (p.Some? ==> p.value in ids[..n] && p.value < x && forall y :: y in ids[..n] && y < x ==> y <= p.value)
  {
    if n > 0 {
      PrevMeans(x, ids, n - 1);
      assert ids[..n] == ids[..n - 1] + [ids[n - 1]];
    }
  }

  lemma {:induction false} PrevIs(x: int, ids: seq<int>)
    ensures var p := Prev(x, ids);
            && (p.None? ==> forall y :: y in ids ==> y >= x)
            && (p.Some? ==> p.value in ids && p.value < x && forall y :: y in ids && y < x ==> y <= p.value)
  {
    PrevMeans(x, ids, |ids|);
    assert ids[..|ids|] == ids;
  }

  /** `missing_before` of an original, NULL counted as nothing. */
  function Missing(ids: seq<int>, x: int): int {
    match Prev(x, ids)
    case None => 0
    case Some(p) => x - p - 1
  }

  /** The column summed over the originals `xs`, previous ids taken from `ids`. */
  function MissingSum(ids: seq<int>, xs: seq<int>): int {
    if xs == [] then 0 else MissingSum(ids, xs[..|xs| - 1]) + Missing(ids, xs[|xs| - 1])
  }

  predicate IntLe(a: int, b: int) {
    a <= b
  }

  lemma {:induction false} SumAppend(ids: seq<int>, xs: seq<int>, x: int)
    ensures MissingSum(ids, xs + [x]) == MissingSum(ids, xs) + Missing(ids, x)
  {
    assert (xs + [x])[..|xs|] == xs;
  }

  lemma {:induction false} SumInsert(ids: seq<int>, xs: seq<int>, x: int)
    ensures MissingSum(ids, Insert(IntLe, xs, x)) == MissingSum(ids, xs) + Missing(ids, x)
  {
    if xs == [] || IntLe(xs[|xs| - 1], x) {
      SumAppend(ids, xs, x);
      assert xs == [] ==> Insert(IntLe, xs, x) == xs + [x];
    } else {
      var init, last := xs[..|xs| - 1], xs[|xs| - 1];
      SumInsert(ids, init, x);
      SumAppend(ids, Insert(IntLe, init, x), last);
    }
  }

  lemma {:induction false} SumSort(ids: seq<int>, xs: seq<int>)
    ensures MissingSum(ids, Sort(IntLe, xs)) == MissingSum(ids, xs)
  {
    if xs != [] {
      SumSort(ids, xs[..|xs| - 1]);
      SumInsert(ids, Sort(IntLe, xs[..|xs| - 1]), xs[|xs| - 1]);
    }
  }

  lemma {:induction false} PrevSorted(ids: seq<int>, ys: seq<int>, i: nat)
    requires i < |ys| && (forall a, b :: 0 <= a < b < |ys| ==> ys[a] < ys[b]) && forall y :: y in ids <==> y in ys
    ensures Missing(ids, ys[i]) == if i == 0 then 0 else ys[i] - ys[i - 1] - 1
  {
    PrevIs(ys[i], ids);
    if i > 0 { assert ys[i - 1] in ys && ys[i - 1] in ids; }
    var p := Prev(ys[i], ids);
    if p.Some? {
      assert p.value in ys;
      var j :| 0 <= j < |ys| && ys[j] == p.value;
    }
  }

  lemma {:induction false} SumSorted(ids: seq<int>, ys: seq<int>, n: nat)
    requires 0 < n <= |ys| && (forall a, b :: 0 <= a < b < |ys| ==> ys[a] < ys[b]) && forall y :: y in ids <==> y in ys
    ensures MissingSum(ids, ys[..n]) == ys[n - 1] - ys[0] + 1 - n
  {
    PrevSorted(ids, ys, n - 1);
    assert ys[..n] == ys[..n - 1] + [ys[n - 1]];
    SumAppend(ids, ys[..n - 1], ys[n - 1]);
    if n > 1 {
      SumSorted(ids, ys, n - 1);
    } else {
      assert ys[..0] == [];
    }
  }

  lemma {:induction false} IntOrder()
    ensures TotalPreorder(IntLe)
  {}

  lemma {:induction false} SortedStrictly(ids: seq<int>)
    requires NoRepeats(ids)
    ensures var ys := Sort(IntLe, ids);
            && (forall a, b :: 0 <= a < b < |ys| ==> ys[a] < ys[b])
            && forall y :: y in ids <==> y in ys
  {
    IntOrder();
    SortSorted(IntLe, ids);
    var ys := Sort(IntLe, ids);
    assert Distinct(IntLe, ids);
    DistinctPermutation(IntLe, ids, ys);
    forall y ensures y in ids <==> y in ys {
      assert y in ids <==> y in multiset(ids);
      assert y in ys <==> y in multiset(ys);
    }
  }

  /**
   The missing trades of one symbol, summed, are exactly the ids between the least and the greatest that no original
   carries.
   */
  lemma {:induction false} MissingTelescopes(ids: seq<int>, low: int, high: int)
    requires NoRepeats(ids) && low in ids && high in ids && forall y :: y in ids ==> low <= y <= high
    ensures MissingSum(ids, ids) == high - low + 1 - |ids|
  {
    SortedStrictly(ids);
    SumSort(ids, ids);
    var ys := Sort(IntLe, ids);
    SumSorted(ids, ys, |ys|);
    assert ys[..|ys|] == ys;
    var i :| 0 <= i < |ys| && ys[i] == low;
    var j :| 0 <= j < |ys| && ys[j] == high;
    assert ys[0] in ys && ys[|ys| - 1] in ys;
    assert ys[0] == low && ys[|ys| - 1] == high;
  }

  // ---- the originals of a scored set ----

  lemma {:induction false} OriginalsMean(both: seq<Delivery>, symbol: string, n: nat, x: int)
    requires n <= |both|
    ensures x in Collect(OriginalOf(both, symbol), both, n) <==>
            exists i :: 0 <= i < n && both[i].symbol == symbol && both[i].seqNo == x && !IsReplay(both[i], both)
  {
    if n > 0 {
      OriginalsMean(both, symbol, n - 1, x);
      var before, after := Collect(OriginalOf(both, symbol), both, n - 1), Collect(OriginalOf(both, symbol), both, n);
      var d := both[n - 1];
      assert after == before + (if d.symbol == symbol && !IsReplay(d, both) then [d.seqNo] else []);
    }
  }

  /** A trade delivered anywhere in the set has an original in it. */
  lemma {:induction false} DeliveredHasOriginal(both: seq<Delivery>, symbol: string, x: int)
    ensures x in Originals(both, symbol) <==> exists d :: d in both && d.symbol == symbol && d.seqNo == x
  {
    OriginalsMean(both, symbol, |both|, x);
    if exists d :: d in both && d.symbol == symbol && d.seqNo == x {
      var d :| d in both && d.symbol == symbol && d.seqNo == x;
      var f := FirstDelivery(both, d);
      var i :| 0 <= i < |both| && both[i] == f;
      forall j | 0 <= j < |both| && SameTrade(both[j], f) ensures !Earlier(both[j], f) {
        assert both[j] in both && SameTrade(both[j], d);
      }
      assert both[i].symbol == symbol && both[i].seqNo == x && !IsReplay(both[i], both);
    }
  }

  lemma {:induction false} NotYetCollected(both: seq<Delivery>, symbol: string, n: nat)
    requires n < |both| && DistinctPositions(both) && both[n].symbol == symbol && !IsReplay(both[n], both)
    requires forall i, j :: 0 <= i < j < |both| ==> both[i] != both[j]
    ensures both[n].seqNo !in Collect(OriginalOf(both, symbol), both, n)
  {
    OriginalsMean(both, symbol, n, both[n].seqNo);
    forall i | 0 <= i < n && both[i].symbol == symbol && both[i].seqNo == both[n].seqNo
      ensures IsReplay(both[i], both)
    {
      NotBothFirst(both, i, n);
    }
  }

  lemma {:induction false} OriginalsOnce(both: seq<Delivery>, symbol: string, n: nat)
    requires n <= |both| && DistinctPositions(both)
    requires forall i, j :: 0 <= i < j < |both| ==> both[i] != both[j]
    ensures NoRepeats(Collect(OriginalOf(both, symbol), both, n))
  {
    if n > 0 {
      OriginalsOnce(both, symbol, n - 1);
      var before, d := Collect(OriginalOf(both, symbol), both, n - 1), both[n - 1];
      if d.symbol == symbol && !IsReplay(d, both) {
        NotYetCollected(both, symbol, n - 1);
        assert Collect(OriginalOf(both, symbol), both, n) == before + [d.seqNo];
      } else {
        assert Collect(OriginalOf(both, symbol), both, n) == before + [];
      }
    }
  }

  lemma {:induction false} NotBothFirst(both: seq<Delivery>, i: nat, j: nat)
    requires i < j < |both| && DistinctPositions(both) && both[i] != both[j] && SameTrade(both[i], both[j])
    ensures IsReplay(both[i], both) || IsReplay(both[j], both)
  {
    assert both[i] in both && both[j] in both;
    assert Earlier(both[i], both[j]) || Earlier(both[j], both[i]);
  }

  // ---- the columns as stored ----

  /** `SUM(missing_before)` over the first `n` rows of one symbol; a NULL adds nothing. */
  function MissingTotal(rows: seq<Scored>, symbol: string, n: nat): int
    requires n <= |rows|
  {
    if n == 0 then 0 else
      var r := rows[n - 1];
      MissingTotal(rows, symbol, n - 1) +
        if r.d.symbol == symbol && r.missingBefore.Some? then r.missingBefore.value else 0
  }

  /** Every row is the one a single scoring over `both` gives its delivery. */
  ghost predicate ScoredOver(rows: seq<Scored>, both: seq<Delivery>) {
    |rows| == |both| && forall i :: 0 <= i < |rows| ==> rows[i] == ScoreOne(both[i], both)
  }

  lemma {:induction false} CollectStep(both: seq<Delivery>, symbol: string, n: nat)
    requires 0 < n <= |both|
    ensures var f, d := OriginalOf(both, symbol), both[n - 1];
            var before := Collect(f, both, n - 1);
            Collect(f, both, n) == if d.symbol == symbol && !IsReplay(d, both) then before + [d.seqNo] else before
  {
    assert Collect(OriginalOf(both, symbol), both, n - 1) + [] == Collect(OriginalOf(both, symbol), both, n - 1);
  }

  lemma {:induction false} TotalIsSum(rows: seq<Scored>, both: seq<Delivery>, symbol: string, n: nat)
    requires ScoredOver(rows, both) && n <= |both|
    ensures MissingTotal(rows, symbol, n) ==
            MissingSum(Originals(both, symbol), Collect(OriginalOf(both, symbol), both, n))
  {
    if n > 0 {
      TotalIsSum(rows, both, symbol, n - 1);
      CollectStep(both, symbol, n);
      assert rows[n - 1] == ScoreOne(both[n - 1], both);
      SumAppend(Originals(both, symbol), Collect(OriginalOf(both, symbol), both, n - 1), both[n - 1].seqNo);
    }
  }

  /** The trade ids delivered for one symbol. */
  ghost function Delivered(both: seq<Delivery>, symbol: string): set<int> {
    set d | d in both && d.symbol == symbol :: d.seqNo
  }

  /** The least and the greatest id. */
  ghost predicate Ends(ids: set<int>, low: int, high: int) {
    low in ids && high in ids && forall y :: y in ids ==> low <= y <= high
  }

  lemma {:induction false} SizeOfDistinct(ids: seq<int>, n: nat)
    requires n <= |ids| && NoRepeats(ids)
    ensures |set i | 0 <= i < n :: ids[i]| == n
  {
    if n > 0 {
      SizeOfDistinct(ids, n - 1);
      assert (set i | 0 <= i < n :: ids[i]) == (set i | 0 <= i < n - 1 :: ids[i]) + {ids[n - 1]};
    }
  }

  lemma {:induction false} OriginalsAreDelivered(both: seq<Delivery>, symbol: string)
    requires DistinctPositions(both) && forall i, j :: 0 <= i < j < |both| ==> both[i] != both[j]
    ensures NoRepeats(Originals(both, symbol))
    ensures forall x :: x in Originals(both, symbol) <==> x in Delivered(both, symbol)
    ensures |Originals(both, symbol)| == |Delivered(both, symbol)|
  {
    var ids := Originals(both, symbol);
    OriginalsOnce(both, symbol, |both|);
    forall x ensures x in ids <==> x in Delivered(both, symbol) { DeliveredHasOriginal(both, symbol, x); }
    SizeOfDistinct(ids, |ids|);
    assert (set i | 0 <= i < |ids| :: ids[i]) == Delivered(both, symbol);
  }

  /** Summed over rows scored together, `missing_before` counts the ids of the symbol's range that nobody delivered. */
  lemma {:induction false} ScoredSetTelescopes(rows: seq<Scored>, both: seq<Delivery>, symbol: string, low: int,
                                               high: int)
    requires ScoredOver(rows, both)
    requires DistinctPositions(both) && forall i, j :: 0 <= i < j < |both| ==> both[i] != both[j]
    requires Ends(Delivered(both, symbol), low, high)
    ensures MissingTotal(rows, symbol, |rows|) == high - low + 1 - |Delivered(both, symbol)|
  {
    OriginalsAreDelivered(both, symbol);
    TotalIsSum(rows, both, symbol, |both|);
    MissingTelescopes(Originals(both, symbol), low, high);
  }

  /** One `score` with nothing to look back on is such a set. */
  lemma {:induction false} ScoreIsScoredOver(both: seq<Delivery>)
    ensures ScoredOver(Score(both, []), both)
  {
    assert both + [] == both;
  }

  // ---- scored beside part of the archive ----

  /** `p` is the id just below `x`. */
  ghost predicate GreatestBelow(p: int, x: int, ids: seq<int>) {
    p < x && p in ids && forall y :: y in ids && y < x ==> y <= p
  }

  lemma {:induction false} PrevAgreesIff(x: int, near: seq<int>, far: seq<int>)
    requires forall y :: y in near ==> y in far
    ensures Prev(x, near) == Prev(x, far) <==> forall p :: GreatestBelow(p, x, far) ==> p in near
  {
    PrevIs(x, near);
    PrevIs(x, far);
    var q, r := Prev(x, far), Prev(x, near);
    if q.Some? { assert GreatestBelow(q.value, x, far); }
    assert r.Some? ==> r.value in far;
    if forall p :: GreatestBelow(p, x, far) ==> p in near {
      if q.Some? { assert q.value in near; }
    }
    if q == r {
      forall p | GreatestBelow(p, x, far) ensures p in near {
        assert q.Some? && q.value == p;
      }
    }
  }

  ghost predicate Within(seen: seq<Delivery>, all: seq<Delivery>) {
    forall d :: d in seen ==> d in all
  }

  /** `e` delivers the trade just before `d`'s among those delivered in `all`. */
  ghost predicate JustBefore(e: Delivery, d: Delivery, all: seq<Delivery>) {
    && e in all && e.symbol == d.symbol && e.seqNo < d.seqNo
    && forall f :: f in all && f.symbol == d.symbol && f.seqNo < d.seqNo ==> f.seqNo <= e.seqNo
  }

  /** The trade just before `d`'s, if there is one, was delivered in `seen` too. */
  ghost predicate PredecessorSeen(d: Delivery, seen: seq<Delivery>, all: seq<Delivery>) {
    forall e :: JustBefore(e, d, all) ==> exists f :: f in seen && SameTrade(f, e)
  }

  lemma {:induction false} JustBeforeMeans(d: Delivery, all: seq<Delivery>, p: int)
    ensures GreatestBelow(p, d.seqNo, Originals(all, d.symbol)) <==> exists e :: JustBefore(e, d, all) && e.seqNo == p
  {
    var ids := Originals(all, d.symbol);
    forall x ensures x in ids <==> exists e :: e in all && e.symbol == d.symbol && e.seqNo == x {
      DeliveredHasOriginal(all, d.symbol, x);
    }
    if GreatestBelow(p, d.seqNo, ids) {
      var e :| e in all && e.symbol == d.symbol && e.seqNo == p;
      forall f | f in all && f.symbol == d.symbol && f.seqNo < d.seqNo ensures f.seqNo <= e.seqNo {
        assert f.seqNo in ids;
      }
      assert JustBefore(e, d, all);
    }
  }

  lemma {:induction false} PrevSeenIff(d: Delivery, seen: seq<Delivery>, all: seq<Delivery>)
    requires Within(seen, all)
    ensures Prev(d.seqNo, Originals(seen, d.symbol)) == Prev(d.seqNo, Originals(all, d.symbol)) <==>
            PredecessorSeen(d, seen, all)
  {
    var near, far := Originals(seen, d.symbol), Originals(all, d.symbol);
    forall x ensures x in near <==> exists f :: f in seen && f.symbol == d.symbol && f.seqNo == x {
      DeliveredHasOriginal(seen, d.symbol, x);
    }
    forall x | x in near ensures x in far { DeliveredHasOriginal(all, d.symbol, x); }
    PrevAgreesIff(d.seqNo, near, far);
    if PredecessorSeen(d, seen, all) {
      forall p | GreatestBelow(p, d.seqNo, far) ensures p in near {
        JustBeforeMeans(d, all, p);
        var e :| JustBefore(e, d, all) && e.seqNo == p;
        var f :| f in seen && SameTrade(f, e);
      }
    }
    if forall p :: GreatestBelow(p, d.seqNo, far) ==> p in near {
      forall e | JustBefore(e, d, all) ensures exists f :: f in seen && SameTrade(f, e) {
        JustBeforeMeans(d, all, e.seqNo);
        var f :| f in seen && f.symbol == d.symbol && f.seqNo == e.seqNo;
        assert SameTrade(f, e);
      }
    }
  }

  lemma {:induction false} SameColumnsIff(d: Delivery, p: Option<int>, q: Option<int>)
    ensures OriginalRow(d, p) == OriginalRow(d, q) <==> p == q
  {}

  /**
   Scored beside part of the archive, all three columns of a delivery are the whole archive's exactly when that part
   holds an earlier delivery of a re-delivered trade, or the trade before an original.
   */
  lemma {:induction false} ScoreAgreesIff(d: Delivery, seen: seq<Delivery>, all: seq<Delivery>)
    requires Within(seen, all)
    ensures ScoreOne(d, seen) == ScoreOne(d, all) <==>
            if IsReplay(d, all) then IsReplay(d, seen) else PredecessorSeen(d, seen, all)
  {
    if IsReplay(d, seen) {
      var i :| 0 <= i < |seen| && SameTrade(seen[i], d) && Earlier(seen[i], d);
      assert seen[i] in all;
      var j :| 0 <= j < |all| && all[j] == seen[i];
    } else if !IsReplay(d, all) {
      PrevSeenIff(d, seen, all);
      SameColumnsIff(d, Prev(d.seqNo, Originals(seen, d.symbol)), Prev(d.seqNo, Originals(all, d.symbol)));
    }
  }

  // ---- the stored rows over all runs ----

  /** What batch `k` is scored over. */
  function SeenBy(batches: seq<seq<Delivery>>, k: nat): seq<Delivery>
    requires k < |batches| && batches[k] != []
  {
    batches[k] + Lookback(RowsAfter(batches, k), batches[k])
  }

  lemma {:induction false} SeenWithinAll(batches: seq<seq<Delivery>>, n: nat, k: nat)
    requires k < n <= |batches| && batches[k] != []
    ensures Within(SeenBy(batches, k), All(batches, n))
  {
    forall d | d in SeenBy(batches, k) ensures d in All(batches, n) {
      SeenIsVisible(batches, k, d);
      if d in batches[k] { BatchInAll(batches, n, k, d); } else { AllGrows(batches, k, n, d); }
    }
  }

  /** Batch `k`'s scoring sees a delivery of the trade just before `d`'s, if the archive has one. */
  ghost predicate SeesPredecessor(batches: seq<seq<Delivery>>, n: nat, k: nat, d: Delivery)
    requires k < n <= |batches|
  {
    forall e :: JustBefore(e, d, All(batches, n)) ==> exists f :: Visible(batches, k, f) && SameTrade(f, e)
  }

  /** What has to be visible for row `d` of batch `k` to be right. */
  ghost predicate EnoughSeen(batches: seq<seq<Delivery>>, n: nat, k: nat, d: Delivery)
    requires k < n <= |batches|
  {
    if Redelivers(batches, n, d) then SeesEarlier(batches, k, d) else SeesPredecessor(batches, n, k, d)
  }

  lemma {:induction false} ScoredRightIff(batches: seq<seq<Delivery>>, n: nat, k: nat, d: Delivery)
    requires k < n <= |batches| && d in batches[k]
    ensures ScoreOne(d, SeenBy(batches, k)) == ScoreOne(d, All(batches, n)) <==> EnoughSeen(batches, n, k, d)
  {
    var seen, all := SeenBy(batches, k), All(batches, n);
    SeenWithinAll(batches, n, k);
    ScoreAgreesIff(d, seen, all);
    ReplayMeans(batches, k, d);
    assert IsReplay(d, all) <==> Redelivers(batches, n, d) by { RedeliversMeans(batches, n, d); }
    forall f ensures f in seen <==> Visible(batches, k, f) { SeenIsVisible(batches, k, f); }
  }

  lemma {:induction false} RedeliversMeans(batches: seq<seq<Delivery>>, n: nat, d: Delivery)
    requires n <= |batches|
    ensures IsReplay(d, All(batches, n)) <==> Redelivers(batches, n, d)
  {
    var all := All(batches, n);
    if Redelivers(batches, n, d) {
      var e :| e in all && SameTrade(e, d) && Earlier(e, d);
      var i :| 0 <= i < |all| && all[i] == e;
      assert SameTrade(all[i], d) && Earlier(all[i], d);
    }
  }

  /** The batch a stored row came from, and what it was scored over. */
  lemma {:induction false} RowScoring(batches: seq<seq<Delivery>>, n: nat, i: nat) returns (k: nat)
    requires n <= |batches| && i < |RowsAfter(batches, n)|
    ensures k < n && RowsAfter(batches, n)[i].d in batches[k]
    ensures RowsAfter(batches, n)[i] == ScoreOne(RowsAfter(batches, n)[i].d, SeenBy(batches, k))
  {
    var before := RowsAfter(batches, n - 1);
    if i < |before| {
      k := RowScoring(batches, n - 1, i);
    } else {
      k := n - 1;
      assert RowsAfter(batches, n)[i].d == batches[k][i - |before|];
    }
  }

  /** A row of every delivery of every batch. */
  lemma {:induction false} DeliveryRow(batches: seq<seq<Delivery>>, n: nat, k: nat, d: Delivery) returns (i: nat)
    requires k < n <= |batches| && d in batches[k]
    ensures i < |RowsAfter(batches, n)| && RowsAfter(batches, n)[i] == ScoreOne(d, SeenBy(batches, k))
  {
    if k < n - 1 {
      i := DeliveryRow(batches, n - 1, k, d);
    } else {
      var j :| 0 <= j < |batches[k]| && batches[k][j] == d;
      i := |RowsAfter(batches, k)| + j;
    }
  }

  /**
   The stored `venue_replay`, `seq_gap` and `missing_before` are those of one scoring over the whole archive exactly
   when every batch sees an earlier delivery of each trade it re-delivers and the predecessor of each it delivers first.
   */
  lemma {:induction false} ColumnsRightIff(batches: seq<seq<Delivery>>, n: nat)
    requires n <= |batches|
    ensures ScoredOver(RowsAfter(batches, n), All(batches, n)) <==>
            forall k: nat, d :: k < n && d in batches[k] ==> EnoughSeen(batches, n, k, d)
  {
    var rows, all := RowsAfter(batches, n), All(batches, n);
    RowsAreDeliveries(batches, n);
    if forall k: nat, d :: k < n && d in batches[k] ==> EnoughSeen(batches, n, k, d) {
      forall i | 0 <= i < |rows| ensures rows[i] == ScoreOne(all[i], all) {
        var k := RowScoring(batches, n, i);
        ScoredRightIff(batches, n, k, rows[i].d);
      }
    }
    if ScoredOver(rows, all) {
      forall k: nat, d | k < n && d in batches[k] ensures EnoughSeen(batches, n, k, d) {
        var i := DeliveryRow(batches, n, k, d);
        assert rows[i] == ScoreOne(all[i], all);
        ScoredRightIff(batches, n, k, d);
      }
    }
  }

  /** So the column as stored adds up to the ids of the range that were never delivered. */
  lemma {:induction false} StoredTelescopes(batches: seq<seq<Delivery>>, n: nat, symbol: string, low: int, high: int)
    requires n <= |batches| && OnceArchived(batches, n) && DistinctPositions(All(batches, n))
    requires forall k: nat, d :: k < n && d in batches[k] ==> EnoughSeen(batches, n, k, d)
    requires Ends(Delivered(All(batches, n), symbol), low, high)
    ensures var rows := RowsAfter(batches, n);
            MissingTotal(rows, symbol, |rows|) == high - low + 1 - |Delivered(All(batches, n), symbol)|
  {
    ColumnsRightIff(batches, n);
    ScoredSetTelescopes(RowsAfter(batches, n), All(batches, n), symbol, low, high);
  }

  lemma {:induction false} PrevFrom(d: Delivery, both: seq<Delivery>, e: Delivery)
    requires JustBefore(e, d, both)
    ensures Prev(d.seqNo, Originals(both, d.symbol)) == Some(e.seqNo)
  {
    PrevIs(d.seqNo, Originals(both, d.symbol));
    JustBeforeMeans(d, both, e.seqNo);
  }

  /**
   A trade delivered after its successor was scored: the successor's row counts it missing for good, while the whole
   archive does not.
   */
  lemma {:induction false} LatePredecessorCounts(a: Delivery, m: Delivery, b: Delivery)
    requires a.symbol == m.symbol == b.symbol && a.seqNo < m.seqNo < b.seqNo
    ensures var batches := [[a, b], [m]];
            && |RowsAfter(batches, 2)| == 3 && All(batches, 2) == [a, b, m]
            && RowsAfter(batches, 2)[1] == OriginalRow(b, Some(a.seqNo))
            && ScoreOne(b, All(batches, 2)) == OriginalRow(b, Some(m.seqNo))
  {
    var batches, near, all := [[a, b], [m]], [a, b], [a, b, m];
    AllOfTwo(batches, near, [m]);
    assert near + [m] == all;
    RowsAreDeliveries(batches, 2);
    ScoredBesideTwo(batches, near);
    ScoredAfter(b, near, a);
    ScoredAfter(b, all, m);
  }

  lemma {:induction false} AllOfTwo(batches: seq<seq<Delivery>>, first: seq<Delivery>, second: seq<Delivery>)
    requires batches == [first, second]
    ensures All(batches, 2) == first + second
  {
    assert All(batches, 0) == [] && All(batches, 1) == [] + first == first;
  }

  lemma {:induction false} ScoredAfter(d: Delivery, both: seq<Delivery>, e: Delivery)
    requires e in both && e.symbol == d.symbol && e.seqNo < d.seqNo
    requires forall f :: f in both && f.symbol == d.symbol ==> f.seqNo <= e.seqNo || f == d
    ensures ScoreOne(d, both) == OriginalRow(d, Some(e.seqNo))
  {
    assert JustBefore(e, d, both);
    PrevFrom(d, both, e);
    forall i | 0 <= i < |both| && SameTrade(both[i], d) ensures !Earlier(both[i], d) {
      assert both[i] in both;
    }
  }

  lemma {:induction false} ScoredBesideTwo(batches: seq<seq<Delivery>>, near: seq<Delivery>)
    requires |batches| == 2 && batches[0] == near && |near| == 2
    ensures |RowsAfter(batches, 2)| > 1 && RowsAfter(batches, 2)[1] == ScoreOne(near[1], near)
  {
    assert near + [] == near;
    assert RowsAfter(batches, 0) == [] && Lookback([], near) == [];
    assert RowsAfter(batches, 1) == [] + Score(near, []);
    assert RowsAfter(batches, 1)[1] == ScoreOne(near[1], near);
  }

  // ---- what a row says ----

  /** Another delivery of the trade, received before `d`; ties go by partition, offset and index. */
  ghost predicate DeliveredBefore(e: Delivery, d: Delivery) {
    && e.symbol == d.symbol && e.seqNo == d.seqNo
    && (e.recvNs < d.recvNs || (e.recvNs == d.recvNs && (e.partition < d.partition || (e.partition == d.partition &&
       (e.offset < d.offset || (e.offset == d.offset && e.index < d.index))))))
  }

  /** The gap columns of an original with id `x` among the delivered `ids`. */
  ghost predicate GapMeans(seqGap: Option<bool>, missing: Option<int>, x: int, ids: set<int>) {
    && (seqGap == None <==> forall y :: y in ids ==> y >= x)
    && (seqGap == Some(false) <==> x - 1 in ids)
    && (seqGap == Some(true) <==> x - 1 !in ids && exists y :: y in ids && y < x)
    && (missing == None <==> forall y :: y in ids ==> y >= x)
    && (missing.Some? ==> missing.value >= 0 && x - 1 - missing.value in ids)
    && (missing.Some? ==> forall y :: x - missing.value <= y < x ==> y !in ids)
  }

  /** Column by column, what a row says of delivery `d` among `both`. */
  ghost predicate RowMeans(r: Scored, d: Delivery, both: seq<Delivery>) {
    && r.d == d
    && (r.replay <==> exists e :: e in both && DeliveredBefore(e, d))
    && (r.replay ==> r.seqGap == Some(false) && r.missingBefore == Some(0))
    && (!r.replay ==> GapMeans(r.seqGap, r.missingBefore, d.seqNo, Delivered(both, d.symbol)))
  }

  lemma {:induction false} DeliveredIsOriginal(both: seq<Delivery>, symbol: string)
    ensures forall x :: x in Originals(both, symbol) <==> x in Delivered(both, symbol)
  {
    forall x ensures x in Originals(both, symbol) <==> x in Delivered(both, symbol) {
      DeliveredHasOriginal(both, symbol, x);
    }
  }

  lemma {:induction false} GapColumns(d: Delivery, ids: seq<int>, delivered: set<int>)
    requires forall x :: x in ids <==> x in delivered
    ensures var r := OriginalRow(d, Prev(d.seqNo, ids)); GapMeans(r.seqGap, r.missingBefore, d.seqNo, delivered)
  {
    PrevIs(d.seqNo, ids);
  }

  lemma {:induction false} ReplayIff(d: Delivery, both: seq<Delivery>)
    ensures IsReplay(d, both) <==> exists e :: e in both && DeliveredBefore(e, d)
  {
    if e :| e in both && DeliveredBefore(e, d) {
      var i :| 0 <= i < |both| && both[i] == e;
      assert SameTrade(both[i], d) && Earlier(both[i], d);
    }
    if IsReplay(d, both) {
      var i :| 0 <= i < |both| && SameTrade(both[i], d) && Earlier(both[i], d);
      assert both[i] in both && DeliveredBefore(both[i], d);
    }
  }

  lemma {:induction false} ScoredMeans(d: Delivery, both: seq<Delivery>)
    ensures RowMeans(ScoreOne(d, both), d, both)
  {
    ReplayIff(d, both);
    DeliveredIsOriginal(both, d.symbol);
    GapColumns(d, Originals(both, d.symbol), Delivered(both, d.symbol));
  }

  /** Every row a write adds means what its columns are for, among the batch and what it is scored beside. */
  lemma {:induction false} WrittenMeans(rows: seq<Scored>, batch: seq<Delivery>, i: nat)
    requires i < |batch|
    ensures |Written(rows, batch)| == |rows| + |batch|
    ensures RowMeans(Written(rows, batch)[|rows| + i], batch[i], batch + Lookback(rows, batch))
  {
    ScoredMeans(batch[i], batch + Lookback(rows, batch));
  }

  /** And where enough was visible to every batch, among all that was ever delivered. */
  lemma {:induction false} StoredMeans(batches: seq<seq<Delivery>>, n: nat, i: nat)
    requires n <= |batches| && i < |RowsAfter(batches, n)|
    requires forall k: nat, d :: k < n && d in batches[k] ==> EnoughSeen(batches, n, k, d)
    ensures |RowsAfter(batches, n)| == |All(batches, n)|
    ensures RowMeans(RowsAfter(batches, n)[i], All(batches, n)[i], All(batches, n))
  {
    RowsAreDeliveries(batches, n);
    ColumnsRightIff(batches, n);
    ScoredMeans(All(batches, n)[i], All(batches, n));
  }

  // ---- the flat index of a two-level frame ----

  /** `aggregate(slice(events, 1, i), 0, + size) + j`. */
  function FlatIndex<T>(events: seq<seq<T>>, i: nat, j: nat): nat
    requires i <= |events|
  {
    |Flatten(events, i)| + j
  }

  lemma {:induction false} FlatPosition<T>(events: seq<seq<T>>, i: nat, j: nat, n: nat)
    requires i < n <= |events| && j < |events[i]|
    ensures FlatIndex(events, i, j) < |Flatten(events, n)| &&
            Flatten(events, n)[FlatIndex(events, i, j)] == events[i][j]
  {
    if i < n - 1 { FlatPosition(events, i, j, n - 1); }
  }

  lemma {:induction false} EarlierEventsFirst<T>(events: seq<seq<T>>, i: nat, k: nat)
    requires i < k <= |events|
    ensures |Flatten(events, i)| + |events[i]| <= |Flatten(events, k)|
  {
    if i < k - 1 { EarlierEventsFirst(events, i, k - 1); }
  }

  /** `src_index` is the trade's place in the frame as sent, and no two trades of a frame share one. */
  lemma {:induction false} FlatIndexUnique<T>(events: seq<seq<T>>, i: nat, j: nat, k: nat, l: nat)
    requires i < |events| && j < |events[i]| && k < |events| && l < |events[k]|
    ensures FlatIndex(events, i, j) < |Flatten(events, |events|)|
    ensures Flatten(events, |events|)[FlatIndex(events, i, j)] == events[i][j]
    ensures FlatIndex(events, i, j) == FlatIndex(events, k, l) <==> i == k && j == l
    ensures FlatIndex(events, i, j) < FlatIndex(events, k, l) <==> i < k || (i == k && j < l)
  {
    FlatPosition(events, i, j, |events|);
    if i < k { EarlierEventsFirst(events, i, k); }
    if k < i { EarlierEventsFirst(events, k, i); }
  }
}
