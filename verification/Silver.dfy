/** Replay and gap flags over trade deliveries (docker/lake/silver.py). */
module Silver {
  import opened Prelude

  /** Microseconds in a day. */
  const LOOKBACK := 86_400_000_000

  /** One delivery of a trade; `seqNo` is the venue's sequential trade id. */
  datatype Delivery = Delivery(symbol: string, seqNo: int, recvNs: nat, partition: nat, offset: nat, index: nat) {
    function RecvTs(): int { recvNs / 1000 }
  }

  datatype Scored = Scored(d: Delivery, replay: bool, seqGap: Option<bool>, missingBefore: Option<int>)

  predicate SameTrade(a: Delivery, b: Delivery) {
    a.symbol == b.symbol && a.seqNo == b.seqNo
  }

  /** Earlier by `(recv_ts_ns, src_partition, src_offset, src_index)`. */
  predicate Earlier(a: Delivery, b: Delivery) {
    if a.recvNs != b.recvNs then a.recvNs < b.recvNs
    else if a.partition != b.partition then a.partition < b.partition
    else if a.offset != b.offset then a.offset < b.offset
    else a.index < b.index
  }

  /** `row_number() > 1` within the trade's deliveries. */
  predicate IsReplay(d: Delivery, both: seq<Delivery>) {
    exists i :: 0 <= i < |both| && SameTrade(both[i], d) && Earlier(both[i], d)
  }

  /** The ids of the original deliveries of one symbol. */
  function Originals(both: seq<Delivery>, symbol: string): seq<int> {
    Collect(OriginalOf(both, symbol), both, |both|)
  }

  function OriginalOf(both: seq<Delivery>, symbol: string): Delivery -> Option<int> {
    (d: Delivery) => if d.symbol == symbol && !IsReplay(d, both) then Some(d.seqNo) else None
  }

  /** The greatest of the first `n` ids below `x`: `lag` over the ids in order. */
  function PrevTo(x: int, ids: seq<int>, n: nat): Option<int>
    requires n <= |ids|
  {
    if n == 0 then None else
      var p := PrevTo(x, ids, n - 1);
      if ids[n - 1] < x && (p.None? || p.value < ids[n - 1]) then Some(ids[n - 1]) else p
  }

  function Prev(x: int, ids: seq<int>): Option<int> {
    PrevTo(x, ids, |ids|)
  }

  function ScoreOne(d: Delivery, both: seq<Delivery>): Scored {
    if IsReplay(d, both) then Scored(d, true, Some(false), Some(0))
    else OriginalRow(d, Prev(d.seqNo, Originals(both, d.symbol)))
  }

  /** The row of an original after trade id `prev`. */
  function OriginalRow(d: Delivery, prev: Option<int>): Scored {
    match prev
    case None => Scored(d, false, None, None)
    case Some(p) => Scored(d, false, Some(d.seqNo - p > 1), Some(d.seqNo - p - 1))
  }

  /** `score`: the batch's rows, flagged over `batch + lookback`. */
  function Score(batch: seq<Delivery>, lookback: seq<Delivery>): (rows: seq<Scored>)
    ensures |rows| == |batch|
  {
    seq(|batch|, i requires 0 <= i < |batch| => ScoreOne(batch[i], batch + lookback))
  }

  /** The earliest receive time of a batch. */
  function Lo(batch: seq<Delivery>, n: nat): int
    requires 0 < n <= |batch|
  {
    if n == 1 then batch[0].RecvTs() else Min(Lo(batch, n - 1), batch[n - 1].RecvTs())
  }

  function Recent(since: int): Scored -> Option<Delivery> {
    (r: Scored) => if r.d.RecvTs() >= since then Some(r.d) else None
  }

  /** The rows a batch is scored beside: those received no more than a day before its first. */
  function Lookback(rows: seq<Scored>, batch: seq<Delivery>): seq<Delivery>
    requires batch != []
  {
    Collect(Recent(Lo(batch, |batch|) - LOOKBACK), rows, |rows|)
  }

  function Written(rows: seq<Scored>, batch: seq<Delivery>): seq<Scored> {
    if batch == [] then rows else rows + Score(batch, Lookback(rows, batch))
  }

  class Table {
    var rows: seq<Scored>

    constructor ()
      ensures rows == []
    {
      rows := [];
    }

    /** `write`: score one batch against the lookback and append it; earlier rows keep their flags. */
    method Write(batch: seq<Delivery>) returns (written: nat)
      modifies this
      ensures rows == Written(old(rows), batch) && written == |rows| - |old(rows)|
    {
      if batch == [] {
        return 0;
      }
      var lo := batch[0].RecvTs();
      for i := 1 to |batch|
        invariant lo == Lo(batch, i)
      {
        lo := Min(lo, batch[i].RecvTs());
      }
      var lookback := [];
      for i := 0 to |rows|
        invariant lookback == Collect(Recent(lo - LOOKBACK), rows, i)
      {
        if rows[i].d.RecvTs() >= lo - LOOKBACK {
          lookback := lookback + [rows[i].d];
        }
      }
      rows := rows + Score(batch, lookback);
      written := |batch|;
    }
  }

  // ---- over all runs ----

  function RowsAfter(batches: seq<seq<Delivery>>, n: nat): seq<Scored>
    requires n <= |batches|
  {
    if n == 0 then [] else Written(RowsAfter(batches, n - 1), batches[n - 1])
  }

  /** Every delivery of the first `n` batches. */
  function All(batches: seq<seq<Delivery>>, n: nat): seq<Delivery>
    requires n <= |batches|
  {
    Flatten(batches, n)
  }

  lemma {:induction false} RowsAreDeliveries(batches: seq<seq<Delivery>>, n: nat)
    requires n <= |batches|
    ensures |RowsAfter(batches, n)| == |All(batches, n)|
    ensures forall i :: 0 <= i < |RowsAfter(batches, n)| ==> RowsAfter(batches, n)[i].d == All(batches, n)[i]
  {
    if n > 0 { RowsAreDeliveries(batches, n - 1); }
  }

  lemma {:induction false} RecentMeans(rows: seq<Scored>, since: int, n: nat, d: Delivery)
    requires n <= |rows|
    ensures d in Collect(Recent(since), rows, n) <==> d.RecvTs() >= since && exists i :: 0 <= i < n && rows[i].d == d
  {
    if n > 0 {
      RecentMeans(rows, since, n - 1, d);
      var before, after := Collect(Recent(since), rows, n - 1), Collect(Recent(since), rows, n);
      if d in after && d !in before { assert rows[n - 1].d == d; }
      if d.RecvTs() >= since && exists i :: 0 <= i < n && rows[i].d == d {
        var i :| 0 <= i < n && rows[i].d == d;
        if i == n - 1 { assert after == before + [d]; }
      }
    }
  }

  /** Batch `k`'s scoring sees `e`: in the batch, or already stored and received at most a day before its first. */
  ghost predicate Visible(batches: seq<seq<Delivery>>, k: nat, e: Delivery)
    requires k < |batches|
  {
    || e in batches[k]
    || (e in All(batches, k) && exists d :: d in batches[k] && e.recvNs / 1000 >= d.recvNs / 1000 - 86_400_000_000)
  }

  lemma {:induction false} LoIsReceived(batch: seq<Delivery>, n: nat)
    requires 0 < n <= |batch|
    ensures exists d :: d in batch[..n] && d.RecvTs() == Lo(batch, n)
    ensures forall d :: d in batch[..n] ==> Lo(batch, n) <= d.RecvTs()
  {
    if n > 1 {
      LoIsReceived(batch, n - 1);
      assert batch[..n] == batch[..n - 1] + [batch[n - 1]];
      var d :| d in batch[..n - 1] && d.RecvTs() == Lo(batch, n - 1);
      assert d in batch[..n] && batch[n - 1] in batch[..n];
    } else {
      assert batch[0] in batch[..n];
    }
  }

  lemma {:induction false} SeenIsVisible(batches: seq<seq<Delivery>>, k: nat, e: Delivery)
    requires k < |batches| && batches[k] != []
    ensures e in batches[k] + Lookback(RowsAfter(batches, k), batches[k]) <==> Visible(batches, k, e)
  {
    var rows := RowsAfter(batches, k);
    RowsAreDeliveries(batches, k);
    LoIsReceived(batches[k], |batches[k]|);
    assert batches[k][..|batches[k]|] == batches[k];
    RecentMeans(rows, Lo(batches[k], |batches[k]|) - LOOKBACK, |rows|, e);
    if e in All(batches, k) {
      var i :| 0 <= i < |All(batches, k)| && All(batches, k)[i] == e;
      assert rows[i].d == e;
    }
  }

  /** `d` has an earlier delivery somewhere in the archive. */
  ghost predicate Redelivers(batches: seq<seq<Delivery>>, n: nat, d: Delivery)
    requires n <= |batches|
  {
    exists e :: e in All(batches, n) && SameTrade(e, d) && Earlier(e, d)
  }

  /** Batch `k`'s scoring sees an earlier delivery of `d`. */
  ghost predicate SeesEarlier(batches: seq<seq<Delivery>>, k: nat, d: Delivery)
    requires k < |batches|
  {
    exists e :: Visible(batches, k, e) && SameTrade(e, d) && Earlier(e, d)
  }

  /** The stored flags are those of one scoring over the whole archive. */
  ghost predicate FlagsRight(batches: seq<seq<Delivery>>, n: nat)
    requires n <= |batches|
  {
    forall i :: 0 <= i < |RowsAfter(batches, n)| ==>
      (RowsAfter(batches, n)[i].replay <==> Redelivers(batches, n, RowsAfter(batches, n)[i].d))
  }

  /** Every re-delivery is scored where an earlier one can be seen. */
  ghost predicate EarlierSeen(batches: seq<seq<Delivery>>, n: nat)
    requires n <= |batches|
  {
    forall k: nat, d :: k < n && d in batches[k] && Redelivers(batches, n, d) ==> SeesEarlier(batches, k, d)
  }

  lemma {:induction false} ReplayMeans(batches: seq<seq<Delivery>>, k: nat, d: Delivery)
    requires k < |batches| && d in batches[k]
    ensures IsReplay(d, batches[k] + Lookback(RowsAfter(batches, k), batches[k])) <==> SeesEarlier(batches, k, d)
  {
    var both := batches[k] + Lookback(RowsAfter(batches, k), batches[k]);
    if IsReplay(d, both) {
      var i :| 0 <= i < |both| && SameTrade(both[i], d) && Earlier(both[i], d);
      SeenIsVisible(batches, k, both[i]);
      assert both[i] in both && Visible(batches, k, both[i]);
    }
    if SeesEarlier(batches, k, d) {
      var e :| Visible(batches, k, e) && SameTrade(e, d) && Earlier(e, d);
      SeenIsVisible(batches, k, e);
      var i :| 0 <= i < |both| && both[i] == e;
      assert SameTrade(both[i], d) && Earlier(both[i], d);
    }
  }

  /** Where row `i` was written, and with which flag. */
  lemma {:induction false} RowOrigin(batches: seq<seq<Delivery>>, n: nat, i: nat) returns (k: nat)
    requires n <= |batches| && i < |RowsAfter(batches, n)|
    ensures k < n && RowsAfter(batches, n)[i].d in batches[k]
    ensures RowsAfter(batches, n)[i].replay <==> SeesEarlier(batches, k, RowsAfter(batches, n)[i].d)
  {
    var before := RowsAfter(batches, n - 1);
    if i < |before| {
      k := RowOrigin(batches, n - 1, i);
    } else {
      k := n - 1;
      ReplayMeans(batches, k, batches[k][i - |before|]);
    }
  }

  lemma {:induction false} BatchInAll(batches: seq<seq<Delivery>>, n: nat, k: nat, d: Delivery)
    requires k < n <= |batches| && d in batches[k]
    ensures d in All(batches, n)
  {
    if k < n - 1 { BatchInAll(batches, n - 1, k, d); }
  }

  lemma {:induction false} AllGrows(batches: seq<seq<Delivery>>, k: nat, n: nat, d: Delivery)
    requires k <= n <= |batches| && d in All(batches, k)
    ensures d in All(batches, n)
    decreases n
  {
    if k < n { AllGrows(batches, k, n - 1, d); }
  }

  /** A flag set is never wrong: what a scoring sees is in the archive. */
  lemma {:induction false} SeenIsRedelivery(batches: seq<seq<Delivery>>, n: nat, k: nat, d: Delivery)
    requires k < n <= |batches| && SeesEarlier(batches, k, d)
    ensures Redelivers(batches, n, d)
  {
    var e :| Visible(batches, k, e) && SameTrade(e, d) && Earlier(e, d);
    if e in batches[k] { BatchInAll(batches, n, k, e); } else { AllGrows(batches, k, n, e); }
  }

  /** No delivery is archived twice. */
  ghost predicate OnceArchived(batches: seq<seq<Delivery>>, n: nat)
    requires n <= |batches|
  {
    forall i, j :: 0 <= i < j < |All(batches, n)| ==> All(batches, n)[i] != All(batches, n)[j]
  }

  lemma {:induction false} BatchRow(batches: seq<seq<Delivery>>, n: nat, k: nat, d: Delivery) returns (i: nat)
    requires k < n <= |batches| && d in batches[k]
    ensures i < |RowsAfter(batches, n)| && RowsAfter(batches, n)[i].d == d
    ensures RowsAfter(batches, n)[i].replay <==> SeesEarlier(batches, k, d)
  {
    if k < n - 1 {
      i := BatchRow(batches, n - 1, k, d);
    } else {
      var j :| 0 <= j < |batches[k]| && batches[k][j] == d;
      i := |RowsAfter(batches, k)| + j;
      ReplayMeans(batches, k, d);
    }
  }

  /**
   The incremental flags equal the whole-archive flags exactly when every re-delivery is scored where an earlier one
   is in its own batch or within the lookback.
   */
  lemma {:induction false} FlagsRightIff(batches: seq<seq<Delivery>>, n: nat)
    requires n <= |batches|
    ensures FlagsRight(batches, n) <==> EarlierSeen(batches, n)
  {
    var rows := RowsAfter(batches, n);
    if EarlierSeen(batches, n) {
      forall i | 0 <= i < |rows| ensures rows[i].replay <==> Redelivers(batches, n, rows[i].d) {
        var k := RowOrigin(batches, n, i);
        if rows[i].replay { SeenIsRedelivery(batches, n, k, rows[i].d); }
      }
    }
    if FlagsRight(batches, n) {
      forall k: nat, d | k < n && d in batches[k] && Redelivers(batches, n, d) ensures SeesEarlier(batches, k, d) {
        var i := BatchRow(batches, n, k, d);
        assert rows[i].replay <==> Redelivers(batches, n, rows[i].d);
      }
    }
  }

  /** Among finitely many deliveries of a trade one has none earlier. */
  lemma {:induction false} FirstDelivery(ds: seq<Delivery>, d: Delivery) returns (f: Delivery)
    requires d in ds
    ensures f in ds && SameTrade(f, d)
    ensures forall e :: e in ds && SameTrade(e, d) ==> !Earlier(e, f)
  {
    f := d;
    for i := 0 to |ds|
      invariant f in ds && SameTrade(f, d)
      invariant forall j :: 0 <= j < i && SameTrade(ds[j], d) ==> !Earlier(ds[j], f)
    {
      if SameTrade(ds[i], d) && Earlier(ds[i], f) { f := ds[i]; }
    }
  }

  /** Deliveries are told apart by where they lie in the log. */
  ghost predicate DistinctPositions(ds: seq<Delivery>) {
    forall a, b ::
      a in ds && b in ds && a.partition == b.partition && a.offset == b.offset && a.index == b.index ==> a == b
  }

  /** With right flags each trade has exactly one original row, and it is the trade's first delivery. */
  lemma {:induction false} OneOriginal(batches: seq<seq<Delivery>>, n: nat, d: Delivery)
    requires n <= |batches| && d in All(batches, n)
    requires EarlierSeen(batches, n) && OnceArchived(batches, n) && DistinctPositions(All(batches, n))
    ensures exists i: nat ::
              IsOriginalRow(batches, n, d, i) && forall j: nat :: IsOriginalRow(batches, n, d, j) ==> j == i
    ensures forall i: nat, e :: IsOriginalRow(batches, n, d, i) && IsOther(batches, n, d, i, e) ==>
              Earlier(RowsAfter(batches, n)[i].d, e)
  {
    FlagsRightIff(batches, n);
    RowsAreDeliveries(batches, n);
    var rows, all := RowsAfter(batches, n), All(batches, n);
    var f := FirstDelivery(all, d);
    var i: nat :| i < |all| && all[i] == f;
    forall e | e in all && SameTrade(e, f) ensures !Earlier(e, f) {
      assert SameTrade(e, d);
    }
    assert rows[i].d == f && IsOriginalRow(batches, n, d, i);
    forall j: nat | IsOriginalRow(batches, n, d, j) ensures j == i {
      assert rows[j].d == all[j] && rows[j].d in all;
      assert SameTrade(f, rows[j].d);
      assert !Earlier(f, rows[j].d);
      assert rows[j].d == f;
    }
  }

  ghost predicate IsOriginalRow(batches: seq<seq<Delivery>>, n: nat, d: Delivery, i: nat)
    requires n <= |batches|
  {
    i < |RowsAfter(batches, n)| && SameTrade(RowsAfter(batches, n)[i].d, d) && !RowsAfter(batches, n)[i].replay
  }

  /** Another delivery of the trade row `i` holds. */
  ghost predicate IsOther(batches: seq<seq<Delivery>>, n: nat, d: Delivery, i: nat, e: Delivery)
    requires n <= |batches|
  {
    i < |RowsAfter(batches, n)| && e in All(batches, n) && SameTrade(e, d) && e != RowsAfter(batches, n)[i].d
  }

  // ---- when re-deliveries are seen ----

  /** A trade's deliveries arrive in receive order across batches. */
  ghost predicate ReceiveOrdered(batches: seq<seq<Delivery>>, n: nat)
    requires n <= |batches|
  {
    forall j: nat, k: nat, e, d :: j < k < n && e in batches[j] && d in batches[k] && SameTrade(e, d) ==> !Earlier(d, e)
  }

  /** Each re-delivery follows an earlier one by no more than the lookback. */
  ghost predicate PromptRedelivery(batches: seq<seq<Delivery>>, n: nat)
    requires n <= |batches|
  {
    forall d :: d in All(batches, n) && Redelivers(batches, n, d) ==>
      exists e :: e in All(batches, n) && SameTrade(e, d) && Earlier(e, d) && d.RecvTs() - e.RecvTs() <= LOOKBACK
  }

  lemma {:induction false} WhichBatch(batches: seq<seq<Delivery>>, n: nat, e: Delivery) returns (k: nat)
    requires n <= |batches| && e in All(batches, n)
    ensures k < n && e in batches[k]
  {
    if e in batches[n - 1] { k := n - 1; } else { k := WhichBatch(batches, n - 1, e); }
  }

  /** An earlier delivery within the lookback of one in batch `k`, not from a later batch, is visible there. */
  lemma {:induction false} PromptIsVisible(batches: seq<seq<Delivery>>, k: nat, j: nat, d: Delivery, e: Delivery)
    requires j <= k < |batches| && d in batches[k] && e in batches[j] && d.RecvTs() - e.RecvTs() <= LOOKBACK
    ensures Visible(batches, k, e)
  {
    if j < k { BatchInAll(batches, k, j, e); }
  }

  /** In receive order an earlier delivery is not in a later batch. */
  lemma {:induction false} NotLater(batches: seq<seq<Delivery>>, n: nat, k: nat, j: nat, d: Delivery, e: Delivery)
    requires n <= |batches| && ReceiveOrdered(batches, n) && k < n && j < n && d in batches[k] && e in batches[j]
    requires SameTrade(e, d) && Earlier(e, d)
    ensures j <= k
  {
    assert SameTrade(d, e);
    assert k < j ==> !Earlier(e, d);
  }

  /** Receive-ordered batches whose re-deliveries come within a day are flagged as the whole archive would be. */
  lemma {:induction false} PromptIsSeen(batches: seq<seq<Delivery>>, n: nat)
    requires n <= |batches| && ReceiveOrdered(batches, n) && PromptRedelivery(batches, n)
    ensures EarlierSeen(batches, n)
  {
    forall k: nat, d | k < n && d in batches[k] && Redelivers(batches, n, d) ensures SeesEarlier(batches, k, d) {
      BatchInAll(batches, n, k, d);
      var e :| e in All(batches, n) && SameTrade(e, d) && Earlier(e, d) && d.RecvTs() - e.RecvTs() <= LOOKBACK;
      var j := WhichBatch(batches, n, e);
      NotLater(batches, n, k, j, d, e);
      PromptIsVisible(batches, k, j, d, e);
    }
  }

  /** Two deliveries of a trade, the earlier one written later: both rows are originals. */
  lemma {:induction false} OutOfOrderTwoOriginals(late: Delivery, early: Delivery)
    requires SameTrade(early, late) && Earlier(early, late)
    ensures var rows := RowsAfter([[late], [early]], 2);
            |rows| == 2 && rows[0].d == late && rows[1].d == early && !rows[0].replay && !rows[1].replay
    ensures !ReceiveOrdered([[late], [early]], 2)
  {
    var batches := [[late], [early]];
    TwoDelivered(batches, late, early);
    NoReplays(batches, late, early);
    assert late in batches[0] && early in batches[1] && SameTrade(late, early);
  }

  lemma {:induction false} NoReplays(batches: seq<seq<Delivery>>, late: Delivery, early: Delivery)
    requires |batches| == 2 && late != early
    requires forall k: nat, d :: k < 2 && d in batches[k] ==> !SeesEarlier(batches, k, d)
    requires All(batches, 2) == [late, early]
    ensures var rows := RowsAfter(batches, 2);
            |rows| == 2 && rows[0].d == late && rows[1].d == early && !rows[0].replay && !rows[1].replay
  {
    RowsAreDeliveries(batches, 2);
    var i := RowOrigin(batches, 2, 0);
    var j := RowOrigin(batches, 2, 1);
  }

  lemma {:induction false} TwoDelivered(batches: seq<seq<Delivery>>, late: Delivery, early: Delivery)
    requires batches == [[late], [early]] && Earlier(early, late)
    ensures All(batches, 2) == [late, early]
    ensures forall k: nat, d :: k < 2 && d in batches[k] ==> !SeesEarlier(batches, k, d)
  {
    assert All(batches, 0) == [] && All(batches, 1) == [] + [late] == [late];
    forall e | Visible(batches, 1, e) ensures e == late || e == early {}
    forall e | Visible(batches, 0, e) ensures e == late {}
  }
}
