/** The replay sampler's grid (services/capture-rust/src/replay.rs:114-138). */
module SampleGrid {
  import opened Prelude

  /** The latest receive time among the first `n` frames. */
  function Latest(recv: seq<int>, n: nat): int
    requires 0 < n <= |recv|
  {
    if n == 1 then recv[0] else Max(Latest(recv, n - 1), recv[n - 1])
  }

  /** The grid cell a time falls in, cells counted from the first frame. */
  function Cell(recv: seq<int>, interval: int, t: int): int
    requires recv != [] && interval > 0
  {
    (t - recv[0]) / interval
  }

  /** The start of cell `k`. */
  function GridLine(recv: seq<int>, interval: int, k: int): int
    requires recv != []
  {
    recv[0] + k * interval
  }

  /** Frame `i` is the first to enter a cell beyond every earlier frame's. */
  predicate EntersCell(recv: seq<int>, interval: int, i: nat)
    requires 0 < i < |recv| && interval > 0
  {
    Cell(recv, interval, recv[i]) > Cell(recv, interval, Latest(recv, i))
  }

  function Fired(recv: seq<int>, interval: int, n: nat): seq<nat>
    requires n <= |recv| && interval > 0
  {
    if n <= 1 then [] else
      Fired(recv, interval, n - 1) + (if EntersCell(recv, interval, n - 1) then [n - 1] else [])
  }

  /** The next sample is due at the first grid line after every frame seen. */
  ghost predicate DueRight(recv: seq<int>, interval: int, n: nat, due: int)
    requires 0 < n <= |recv| && interval > 0
  {
    due == GridLine(recv, interval, Cell(recv, interval, Latest(recv, n)) + 1)
  }

  lemma {:induction false} LatestIsLatest(recv: seq<int>, n: nat)
    requires 0 < n <= |recv|
    ensures forall i :: 0 <= i < n ==> recv[i] <= Latest(recv, n)
    ensures exists i :: 0 <= i < n && recv[i] == Latest(recv, n)
  {
    if n == 1 {
      assert recv[0] == Latest(recv, 1);
    } else {
      LatestIsLatest(recv, n - 1);
      var i :| 0 <= i < n - 1 && recv[i] == Latest(recv, n - 1);
      assert recv[if recv[n - 1] > recv[i] then n - 1 else i] == Latest(recv, n);
    }
  }

  lemma {:induction false} CellBounds(recv: seq<int>, interval: int, t: int)
    requires recv != [] && interval > 0
    ensures var k := Cell(recv, interval, t);
            GridLine(recv, interval, k) <= t < GridLine(recv, interval, k + 1)
  {
    var k, r := (t - recv[0]) / interval, (t - recv[0]) % interval;
    assert t - recv[0] == k * interval + r;
    assert (k + 1) * interval == k * interval + interval;
  }

  lemma {:induction false} CellOrder(recv: seq<int>, interval: int, t: int, k: int)
    requires recv != [] && interval > 0
    ensures t >= GridLine(recv, interval, k) <==> Cell(recv, interval, t) >= k
  {
    CellBounds(recv, interval, t);
    var c := Cell(recv, interval, t);
    if c >= k { Scale(k, c, interval); } else { Scale(c + 1, k, interval); }
  }

  lemma {:induction false} CellMonotone(recv: seq<int>, interval: int, s: int, t: int)
    requires recv != [] && interval > 0 && s <= t
    ensures Cell(recv, interval, s) <= Cell(recv, interval, t)
  {
    CellBounds(recv, interval, s);
    CellOrder(recv, interval, t, Cell(recv, interval, s));
  }

  /** Skipping the missed lines lands on the one after the frame's own cell. */
  lemma {:induction false} SkipLands(recv: seq<int>, interval: int, k: int, t: int)
    requires recv != [] && interval > 0 && t >= GridLine(recv, interval, k)
    ensures GridLine(recv, interval, k) + ((t - GridLine(recv, interval, k)) / interval + 1) * interval ==
            GridLine(recv, interval, Cell(recv, interval, t) + 1)
  {
    var due, c := GridLine(recv, interval, k), Cell(recv, interval, t);
    CellBounds(recv, interval, t);
    var m := c - k;
    assert c * interval == k * interval + m * interval;
    assert m * interval <= t - due < m * interval + interval by {
      assert (c + 1) * interval == c * interval + interval;
    }
    QuotientIs(t - due, interval, m);
    assert (c + 1) * interval == k * interval + (m + 1) * interval;
  }

  lemma {:induction false} GridStep(recv: seq<int>, interval: int, n: nat, due: int)
    requires 0 < n < |recv| && interval > 0 && DueRight(recv, interval, n, due)
    ensures recv[n] >= due <==> EntersCell(recv, interval, n)
    ensures var moved := due + ((recv[n] - due) / interval + 1) * interval;
            DueRight(recv, interval, n + 1, if recv[n] >= due then moved else due)
  {
    var k := Cell(recv, interval, Latest(recv, n)) + 1;
    CellOrder(recv, interval, recv[n], k);
    if recv[n] >= due {
      SkipLands(recv, interval, k, recv[n]);
      if recv[n] <= Latest(recv, n) { CellMonotone(recv, interval, recv[n], Latest(recv, n)); }
    } else {
      if recv[n] > Latest(recv, n) { CellMonotone(recv, interval, Latest(recv, n), recv[n]); }
    }
  }

  lemma {:induction false} FirstDue(recv: seq<int>, interval: int)
    requires recv != [] && interval > 0
    ensures DueRight(recv, interval, 1, recv[0] + interval)
  {
    assert Cell(recv, interval, recv[0]) == 0;
  }

  /** The sampler inside `run`: which frames trigger a sample, and when the next is due. */
  method Sample(recv: seq<int>, interval: int) returns (samples: seq<nat>, next: Option<int>)
    requires interval > 0
    ensures samples == Fired(recv, interval, |recv|)
    ensures next.Some? <==> recv != []
    ensures next.Some? ==> DueRight(recv, interval, |recv|, next.value)
  {
    samples, next := [], None;
    for i := 0 to |recv|
      invariant samples == Fired(recv, interval, i)
      invariant next.Some? <==> i > 0
      invariant next.Some? ==> DueRight(recv, interval, i, next.value)
    {
      if i == 0 { FirstDue(recv, interval); } else { GridStep(recv, interval, i, next.value); }
      var due := if next.Some? then next.value else recv[i] + interval;
      next := Some(due);
      if recv[i] >= due {
        samples := samples + [i];
        var missed := (recv[i] - due) / interval;
        next := Some(due + (missed + 1) * interval);
      }
    }
  }

  /** Due times stay on the grid and strictly ahead of every frame seen, by no more than one interval. */
  lemma {:induction false} DueIsAhead(recv: seq<int>, interval: int, n: nat, due: int)
    requires 0 < n <= |recv| && interval > 0 && DueRight(recv, interval, n, due)
    ensures (due - recv[0]) % interval == 0
    ensures forall i :: 0 <= i < n ==> recv[i] < due
    ensures exists i :: 0 <= i < n && due <= recv[i] + interval
  {
    LatestIsLatest(recv, n);
    CellBounds(recv, interval, Latest(recv, n));
    var k := Cell(recv, interval, Latest(recv, n)) + 1;
    assert due - recv[0] == k * interval;
    MultipleOf(k, interval);
    assert k * interval == (k - 1) * interval + interval;
    var i :| 0 <= i < n && recv[i] == Latest(recv, n);
    assert due <= recv[i] + interval;
  }

  lemma {:induction false} MultipleOf(k: int, a: int)
    requires a > 0
    ensures (k * a) % a == 0
  {
    QuotientIs(k * a, a, k);
    assert k * a == ((k * a) / a) * a + (k * a) % a;
  }

  /** Samples follow one another into strictly later cells: at most one a frame, at most one a cell. */
  lemma {:induction false} OneSamplePerCell(recv: seq<int>, interval: int, n: nat)
    requires n <= |recv| && interval > 0
    ensures var f := Fired(recv, interval, n);
            && (forall a :: 0 <= a < |f| ==>
                  0 < f[a] < n && Cell(recv, interval, recv[f[a]]) <= Cell(recv, interval, Latest(recv, n)))
            && (forall a, b :: 0 <= a < b < |f| ==>
                  f[a] < f[b] && Cell(recv, interval, recv[f[a]]) < Cell(recv, interval, recv[f[b]]))
            && (n > 0 ==> |f| <= Cell(recv, interval, Latest(recv, n)))
  {
    if n == 1 {
      assert Cell(recv, interval, recv[0]) == 0;
    }
    if n > 1 {
      OneSamplePerCell(recv, interval, n - 1);
      CellMonotone(recv, interval, Latest(recv, n - 1), Latest(recv, n));
      CellMonotone(recv, interval, recv[n - 1], Latest(recv, n));
    }
  }

  /** A frame triggers a sample exactly when it is in a later cell than every frame before it. */
  lemma {:induction false} SampledIff(recv: seq<int>, interval: int, n: nat, i: nat)
    requires n <= |recv| && interval > 0
    ensures i in Fired(recv, interval, n) <==>
              0 < i < n && forall j :: 0 <= j < i ==> (recv[j] - recv[0]) / interval < (recv[i] - recv[0]) / interval
  {
    if n > 1 {
      SampledIff(recv, interval, n - 1, i);
      if i == n - 1 { EntersIff(recv, interval, i); }
    }
  }

  lemma {:induction false} EntersIff(recv: seq<int>, interval: int, i: nat)
    requires 0 < i < |recv| && interval > 0
    ensures EntersCell(recv, interval, i) <==>
              forall j :: 0 <= j < i ==> (recv[j] - recv[0]) / interval < (recv[i] - recv[0]) / interval
  {
    LatestIsLatest(recv, i);
    forall j | 0 <= j < i ensures (recv[j] - recv[0]) / interval <= Cell(recv, interval, Latest(recv, i)) {
      CellMonotone(recv, interval, recv[j], Latest(recv, i));
    }
    var k :| 0 <= k < i && recv[k] == Latest(recv, i);
    assert (recv[k] - recv[0]) / interval == Cell(recv, interval, Latest(recv, i));
  }
}
