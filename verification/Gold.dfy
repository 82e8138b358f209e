/** Candles and bars kept in step with `gold.trades` by recomputing what a batch touches (docker/lake/gold.py). */
module Gold {
  import opened Prelude
  import opened Sorting
  import opened Trades
  import opened Bars

  const TIMEFRAMES: seq<int> := [60, 300, 3600, 86400]

  /** All that is used of a timeframe: its windows are runs of minutes. */
  predicate WholeMinutes(s: int) { s > 0 && s % 60 == 0 }
  const MICROS := 1_000_000

  /** `(exchange, canonical_symbol, window_start)`, times in seconds. */
  type Window = (string, string, int)
  type BarId = (Kind, BarKey)
  /** `(canonical_symbol, bar_kind)` to a positive threshold in the kind's units. */
  type Thresholds = m: map<(string, Kind), int> | forall k :: k in m ==> m[k] > 0 witness map[]

  // ---- which rows a trade belongs to ----

  function FloorTo(x: int, s: int): int
    requires s > 0
  {
    x / s * s
  }

  function WindowOf(x: Trade, s: int): Window
    requires s > 0
  {
    (x.exchange, x.symbol, FloorTo(x.ts / MICROS, s))
  }

  /** The distinct minutes a batch touches. */
  function MinutesOf(batch: seq<Trade>): set<Window> {
    set i | 0 <= i < |batch| :: WindowOf(batch[i], 60)
  }

  function Coarser(minute: Window, s: int): Window
    requires s > 0
  {
    (minute.0, minute.1, FloorTo(minute.2, s))
  }

  function WindowsOf(minutes: set<Window>, s: int): set<Window>
    requires s > 0
  {
    set m | m in minutes :: Coarser(m, s)
  }

  function DayOf(minute: Window): Group {
    (minute.0, minute.1, minute.2 / 86400)
  }

  function DaysOf(minutes: set<Window>): set<Group> {
    set m | m in minutes :: DayOf(m)
  }

  lemma {:induction false} Regroup(q: int, r: int, a: int, k: int)
    ensures (q * k + r) * a == q * (a * k) + r * a
  {
    assert (q * k) * a == q * (a * k);
  }

  lemma {:induction false} Nested(q: int, r: int, e: int, a: int, k: int)
    requires a > 0 && k > 0 && 0 <= r < k && 0 <= e < a
    ensures a * k > 0 && q * (a * k) <= (q * k + r) * a + e < q * (a * k) + a * k
  {
    Regroup(q, r, a, k);
    var u, low := q * (a * k), r * a;
    Scale(0, r, a);
    Scale(r, k - 1, a);
    Scale(1, k, a);
    LastMultiple(a, k);
    assert 0 <= low <= a * k - a;
    assert (q * k + r) * a == u + low;
  }

  lemma {:induction false} LastMultiple(a: int, k: int)
    ensures (k - 1) * a == a * k - a
  {}

  /** Dividing in two steps is dividing once. */
  lemma {:induction false} DivDiv(x: int, a: int, k: int)
    requires a > 0 && k > 0
    ensures a * k > 0 && (x / a) / k == x / (a * k)
  {
    var d := x / a;
    var q := d / k;
    Nested(q, d % k, x % a, a, k);
    QuotientIs(x, a * k, q);
  }

  /** A coarser window can be had from the minute when the minute divides it. */
  lemma {:induction false} FloorsNest(x: int, a: int, k: int)
    requires a > 0 && k > 0
    ensures a * k > 0 && FloorTo(FloorTo(x, a), a * k) == FloorTo(x, a * k)
  {
    var q := x / a;
    assert (q * a) / a == q by { QuotientIs(q * a, a, q); }
    DivDiv(q * a, a, k);
    DivDiv(x, a, k);
  }

  /** Every timeframe's window, and the day, of a trade are those of its minute. */
  lemma {:induction false} MinuteDecides(x: Trade, s: int)
    requires WholeMinutes(s)
    ensures Coarser(WindowOf(x, 60), s) == WindowOf(x, s)
    ensures DayOf(WindowOf(x, 60)) == GroupOf(x)
  {
    var sec := x.ts / MICROS;
    FloorsNest(sec, 60, s / 60);
    assert 60 * (s / 60) == s;
    FloorsNest(sec, 60, 1440);
    assert FloorTo(sec, 60) / 86400 == sec / 86400 by {
      var m := FloorTo(sec, 60);
      assert m / 86400 * 86400 == sec / 86400 * 86400;
    }
    DivDiv(x.ts, MICROS, 86400);
  }

  // ---- the rows as they should be ----

  function InWindow(s: int, k: Window): Trade -> bool
    requires s > 0
  {
    x => WindowOf(x, s) == k
  }

  /** The candle recomputed over all of `trades`. */
  function CandleOf(trades: seq<Trade>, s: int, k: Window): Option<Bar>
    requires s > 0
  {
    Fold(Where(InWindow(s, k), Sort(TradeLe, trades)))
  }

  /** The bar recomputed over all of `trades`; a symbol without a threshold has none. */
  function WantedBar(trades: seq<Trade>, th: Thresholds, id: BarId): Option<Bar> {
    var k := (id.1.0.1, id.0);
    if k in th then BarOf(id.0, th[k], Day(trades, id.1.0), id.1.1) else None
  }

  /** Stored candles are right for every window outside `stale`. */
  ghost predicate FreshCandles(table: map<Window, Bar>, trades: seq<Trade>, s: int, stale: set<Window>)
    requires s > 0
  {
    forall k: Window :: k !in stale ==> Stored(table, k) == CandleOf(trades, s, k)
  }

  ghost predicate FreshBars(table: map<BarId, Bar>, trades: seq<Trade>, th: Thresholds, stale: set<Group>) {
    forall id: BarId :: id.1.0 !in stale ==> Stored(table, id) == WantedBar(trades, th, id)
  }

  // ---- the recomputation ----

  /** `candles`: one row per touched window that holds a trade. */
  function Recomputed(trades: seq<Trade>, s: int, keys: set<Window>): map<Window, Bar>
    requires s > 0
  {
    map k | k in keys && CandleOf(trades, s, k).Some? :: CandleOf(trades, s, k).value
  }

  function Starts(kind: Kind, t: int, ys: seq<Trade>): set<int>
    requires t > 0
  {
    set i | 0 <= i < |ys| :: BucketAt(kind, t, ys, i)
  }

  function BucketAt(kind: Kind, t: int, ys: seq<Trade>, i: nat): int
    requires t > 0 && i < |ys|
  {
    PrefixTotal(kind, ys, i) / t
  }

  function KINDS(): set<Kind> {
    {Tick, Volume, Dollar}
  }

  /** The bar rows of the days in `days`. */
  function BarIds(trades: seq<Trade>, th: Thresholds, days: set<Group>): set<BarId> {
    set g, kind, s |
      g in days && kind in KINDS() && (g.1, kind) in th && s in Starts(kind, th[(g.1, kind)], Day(trades, g)) ::
      (kind, (g, s))
  }

  /** `_bars`: every bar of the touched days. */
  function RecomputedBars(trades: seq<Trade>, th: Thresholds, days: set<Group>): map<BarId, Bar> {
    map id | id in BarIds(trades, th, days) && WantedBar(trades, th, id).Some? :: WantedBar(trades, th, id).value
  }

  function WithoutDays(table: map<BarId, Bar>, days: set<Group>): map<BarId, Bar> {
    map id | id in table && id.1.0 !in days :: table[id]
  }

  lemma {:induction false} SomeMember(kind: Kind, t: int, ys: seq<Trade>, n: nat, s: int)
    requires t > 0 && n <= |ys|
    ensures Members(kind, t, ys, n, s) != [] <==> exists i: nat :: i < n && BucketAt(kind, t, ys, i) == s
  {
    if n > 0 {
      SomeMember(kind, t, ys, n - 1, s);
      if BucketAt(kind, t, ys, n - 1) != s && Members(kind, t, ys, n, s) != [] {
        var i: nat :| i < n - 1 && BucketAt(kind, t, ys, i) == s;
        assert i < n;
      }
    }
  }

  /** The listed rows miss none: a touched day's bars are all recomputed. */
  lemma {:induction false} RecomputedIsWanted(trades: seq<Trade>, th: Thresholds, days: set<Group>, id: BarId)
    requires id.1.0 in days
    ensures Stored(RecomputedBars(trades, th, days), id) == WantedBar(trades, th, id)
  {
    if WantedBar(trades, th, id).Some? {
      var kind, g, s := id.0, id.1.0, id.1.1;
      var t, ys := th[(g.1, kind)], Day(trades, g);
      FoldSummarises(Bucket(kind, t, ys, s));
      SomeMember(kind, t, ys, |ys|, s);
      var i: nat :| i < |ys| && BucketAt(kind, t, ys, i) == s;
      assert s in Starts(kind, t, ys);
      assert kind in KINDS();
      assert id == (kind, (g, s)) && id in BarIds(trades, th, days);
    }
  }

  // ---- what a batch leaves alone ----

  lemma {:induction false} SelectionUntouched(p: Trade -> bool, trades: seq<Trade>, batch: seq<Trade>)
    requires forall x :: x in batch ==> !p(x)
    ensures Where(p, Sort(TradeLe, trades + batch)) == Where(p, Sort(TradeLe, trades))
  {
    WhereSort(p, trades + batch);
    WhereSort(p, trades);
    WhereConcat(p, trades, batch);
    WhereNone(p, batch);
    assert Where(p, trades) + [] == Where(p, trades);
  }

  lemma {:induction false} UntouchedCandle(trades: seq<Trade>, batch: seq<Trade>, s: int, k: Window)
    requires WholeMinutes(s) && k !in WindowsOf(MinutesOf(batch), s)
    ensures CandleOf(trades + batch, s, k) == CandleOf(trades, s, k)
  {
    forall x | x in batch ensures WindowOf(x, s) != k {
      var i :| 0 <= i < |batch| && batch[i] == x;
      MinuteDecides(x, s);
      assert WindowOf(batch[i], 60) in MinutesOf(batch);
      assert Coarser(WindowOf(x, 60), s) in WindowsOf(MinutesOf(batch), s);
    }
    SelectionUntouched(InWindow(s, k), trades, batch);
  }

  lemma {:induction false} UntouchedDay(trades: seq<Trade>, batch: seq<Trade>, g: Group)
    requires g !in DaysOf(MinutesOf(batch))
    ensures Day(trades + batch, g) == Day(trades, g)
  {
    forall x | x in batch ensures GroupOf(x) != g {
      var i :| 0 <= i < |batch| && batch[i] == x;
      MinuteDecides(x, 60);
      assert WindowOf(batch[i], 60) in MinutesOf(batch);
      assert DayOf(WindowOf(x, 60)) in DaysOf(MinutesOf(batch));
    }
    SelectionUntouched(InGroup(g), trades, batch);
  }

  // ---- a run ----

  /** Merging the touched windows heals them and keeps the rest. */
  lemma {:induction false} MergeKeepsCandles(table: map<Window, Bar>, trades: seq<Trade>, batch: seq<Trade>, s: int,
                                             stale: set<Window>)
    requires WholeMinutes(s) && FreshCandles(table, trades, s, stale)
    ensures var keys := WindowsOf(MinutesOf(batch), s);
            FreshCandles(table + Recomputed(trades + batch, s, keys), trades + batch, s, stale - keys)
  {
    var keys, all := WindowsOf(MinutesOf(batch), s), trades + batch;
    var recomputed := Recomputed(all, s, keys);
    forall k: Window | k !in stale - keys ensures Stored(table + recomputed, k) == CandleOf(all, s, k) {
      if k in keys {
        TouchedCandle(trades, batch, s, k);
      } else {
        UntouchedCandle(trades, batch, s, k);
        assert Stored(table, k) == CandleOf(trades, s, k);
      }
    }
  }

  /** A window a batch touches holds a trade, so the merge always has a row for it. */
  lemma {:induction false} TouchedCandle(trades: seq<Trade>, batch: seq<Trade>, s: int, k: Window)
    requires WholeMinutes(s) && k in WindowsOf(MinutesOf(batch), s)
    ensures CandleOf(trades + batch, s, k).Some?
  {
    var m :| m in MinutesOf(batch) && Coarser(m, s) == k;
    var i :| 0 <= i < |batch| && WindowOf(batch[i], 60) == m;
    var x, all := batch[i], trades + batch;
    MinuteDecides(x, s);
    assert all[|trades| + i] == x;
    assert x in multiset(Sort(TradeLe, all)) by { assert x in multiset(all); }
    var chosen := Where(InWindow(s, k), Sort(TradeLe, all));
    WhereMeans(InWindow(s, k), Sort(TradeLe, all), x);
    assert x in chosen;
    FoldSummarises(chosen);
  }

  /** Right after the trades landed and before anything is recomputed, only what the batch touches is behind. */
  lemma {:induction false} AppendAgesCandles(table: map<Window, Bar>, trades: seq<Trade>, batch: seq<Trade>, s: int,
                                             stale: set<Window>)
    requires WholeMinutes(s) && FreshCandles(table, trades, s, stale)
    ensures FreshCandles(table, trades + batch, s, stale + WindowsOf(MinutesOf(batch), s))
  {
    forall k: Window | k !in stale + WindowsOf(MinutesOf(batch), s)
      ensures Stored(table, k) == CandleOf(trades + batch, s, k)
    {
      UntouchedCandle(trades, batch, s, k);
      assert Stored(table, k) == CandleOf(trades, s, k);
    }
  }

  /** Deleting the touched days and appending them anew heals them and keeps the rest. */
  lemma {:induction false} ReplaceKeepsBars(table: map<BarId, Bar>, trades: seq<Trade>, batch: seq<Trade>,
                                            th: Thresholds, stale: set<Group>)
    requires FreshBars(table, trades, th, stale)
    ensures var days := DaysOf(MinutesOf(batch));
            var all := trades + batch;
            FreshBars(WithoutDays(table, days) + RecomputedBars(all, th, days), all, th, stale - days)
  {
    var days, all := DaysOf(MinutesOf(batch)), trades + batch;
    var kept, recomputed := WithoutDays(table, days), RecomputedBars(all, th, days);
    forall id: BarId | id.1.0 !in stale - days ensures Stored(kept + recomputed, id) == WantedBar(all, th, id) {
      if id.1.0 in days {
        RecomputedIsWanted(all, th, days, id);
      } else {
        UntouchedDay(trades, batch, id.1.0);
        assert Stored(table, id) == WantedBar(trades, th, id);
      }
    }
  }

  /** At every crash point between the trades' commit and the bars' last, only the touched days are behind. */
  lemma {:induction false} CrashAgesBars(table: map<BarId, Bar>, trades: seq<Trade>, batch: seq<Trade>, th: Thresholds,
                                         stale: set<Group>)
    requires FreshBars(table, trades, th, stale)
    ensures var days := DaysOf(MinutesOf(batch));
            && FreshBars(table, trades + batch, th, stale + days)
            && FreshBars(WithoutDays(table, days), trades + batch, th, stale + days)
  {
    var days := DaysOf(MinutesOf(batch));
    forall id: BarId | id.1.0 !in stale + days
      ensures Stored(table, id) == WantedBar(trades + batch, th, id) == Stored(WithoutDays(table, days), id)
    {
      UntouchedDay(trades, batch, id.1.0);
      assert Stored(table, id) == WantedBar(trades, th, id);
    }
  }

  // ---- the tables as the program keeps them ----

  /** The first `n` of the timeframes hold their rebuilt candles, the others nothing. */
  ghost predicate RebuiltTo(tables: map<int, map<Window, Bar>>, trades: seq<Trade>, frames: seq<int>, n: nat) {
    && (forall i, j :: 0 <= i < j < |frames| ==> frames[i] != frames[j])
    && forall j :: 0 <= j < |frames| ==>
         && frames[j] > 0 && frames[j] in tables
         && tables[frames[j]] == if j < n then RebuiltCandles(trades, frames[j]) else map[]
  }

  lemma {:induction false} RebuiltStep(tables: map<int, map<Window, Bar>>, trades: seq<Trade>, frames: seq<int>, n: nat)
    requires n < |frames| && RebuiltTo(tables, trades, frames, n)
    ensures RebuiltTo(tables[frames[n] := RebuiltCandles(trades, frames[n])], trades, frames, n + 1)
  {}

  class Tables {
    var trades: seq<Trade>
    var candles: map<int, map<Window, Bar>>
    var bars: map<BarId, Bar>

    /** Each timeframe is right outside its own stale windows, the bars outside the stale days. */
    ghost predicate Fresh(th: Thresholds, staleWindows: map<int, set<Window>>, staleDays: set<Group>)
      reads this
    {
      && (forall s :: s in TIMEFRAMES ==>
            s > 0 && s in candles && s in staleWindows && FreshCandles(candles[s], trades, s, staleWindows[s]))
      && FreshBars(bars, trades, th, staleDays)
    }

    constructor (ghost th: Thresholds)
      ensures Fresh(th, NothingStale(), {})
    {
      trades, bars := [], map[];
      candles := map s | s in TIMEFRAMES :: map[];
      new;
      forall id: BarId ensures WantedBar([], th, id) == None {
        EmptyArchive(id.1.0);
      }
      forall s, k: Window | s in TIMEFRAMES && s > 0 ensures CandleOf([], s, k) == None {
        assert Where(InWindow(s, k), Sort(TradeLe, [])) == [];
      }
    }

    /** `stage_trades`: a batch of new trades lands. */
    method Append(batch: seq<Trade>)
      modifies this`trades
      ensures trades == old(trades) + batch
    {
      trades := trades + batch;
    }

    /** One timeframe: every touched window, recomputed and merged. */
    method MergeTimeframe(minutes: set<Window>, s: int)
      requires s > 0 && s in candles
      modifies this`candles
      ensures candles == old(candles)[s := old(candles)[s] + Recomputed(trades, s, WindowsOf(minutes, s))]
    {
      var keys := WindowsOf(minutes, s);
      candles := candles[s := candles[s] + Recomputed(trades, s, keys)];
    }

    /** `stage_ohlcv`: each timeframe in turn; `stop` of them is where a crash may leave it. */
    method StageOhlcv(minutes: set<Window>, stop: nat)
      requires stop <= |TIMEFRAMES| && forall s :: s in TIMEFRAMES ==> s in candles
      modifies this`candles
      ensures candles.Keys == old(candles).Keys
      ensures forall j :: 0 <= j < stop ==> Merged(old(candles), candles, minutes, TIMEFRAMES[j])
      ensures forall j :: stop <= j < |TIMEFRAMES| ==> candles[TIMEFRAMES[j]] == old(candles)[TIMEFRAMES[j]]
    {
      ghost var before := candles;
      for i := 0 to stop
        invariant candles.Keys == before.Keys
        invariant forall j :: 0 <= j < i ==> Merged(before, candles, minutes, TIMEFRAMES[j])
        invariant forall j :: i <= j < |TIMEFRAMES| ==>
                    TIMEFRAMES[j] in candles && candles[TIMEFRAMES[j]] == before[TIMEFRAMES[j]]
      {
        MergeTimeframe(minutes, TIMEFRAMES[i]);
      }
    }

    ghost predicate Merged(before: map<int, map<Window, Bar>>, after: map<int, map<Window, Bar>>, minutes: set<Window>,
                           s: int)
      reads this`trades
    {
      s > 0 && s in before && s in after && after[s] == before[s] + Recomputed(trades, s, WindowsOf(minutes, s))
    }

    /** The first of `stage_bars`' two commits. */
    method DeleteDays(days: set<Group>)
      modifies this`bars
      ensures bars == WithoutDays(old(bars), days)
    {
      bars := WithoutDays(bars, days);
    }

    /** `stage_bars`: delete the touched days, append them fresh. */
    method StageBars(minutes: set<Window>, th: Thresholds)
      modifies this`bars
      ensures bars == WithoutDays(old(bars), DaysOf(minutes)) + RecomputedBars(trades, th, DaysOf(minutes))
    {
      var days := DaysOf(minutes);
      if days == {} {
        assert WithoutDays(bars, {}) == bars && RecomputedBars(trades, th, {}) == map[];
        return;
      }
      var recomputed := RecomputedBars(trades, th, days);
      DeleteDays(days);
      bars := bars + recomputed;
    }

    /**
     `stage`, stopped after any of its commits: 0 is the trades', 1 to 4 that many timeframes, 5 the bars' delete and 6
     the end. Timeframes it reached are healed where the batch touched them; those it did not, and the bars until the
     append, are behind there and only there.
     */
    method StageTo(steps: nat, batch: seq<Trade>, th: Thresholds, ghost staleWindows: map<int, set<Window>>,
                   ghost staleDays: set<Group>)
      requires steps <= STEPS && Fresh(th, staleWindows, staleDays)
      modifies this
      ensures trades == old(trades) + batch
      ensures var minutes := MinutesOf(batch);
              Fresh(th, WindowsAfter(staleWindows, minutes, steps), DaysAfter(staleDays, minutes, steps))
    {
      ghost var before, table, stored := trades, candles, bars;
      var minutes := MinutesOf(batch);
      var merges := Min(steps, |TIMEFRAMES|);
      Append(batch);
      StageOhlcv(minutes, merges);
      if steps == STEPS {
        StageBars(minutes, th);
      } else if steps > |TIMEFRAMES| {
        DeleteDays(DaysOf(minutes));
      }
      forall s | s in TIMEFRAMES
        ensures s > 0 && FreshCandles(candles[s], trades, s, WindowsAfter(staleWindows, minutes, steps)[s])
      {
        var j :| 0 <= j < |TIMEFRAMES| && TIMEFRAMES[j] == s;
        ReachedIff(j, steps);
        if j < merges {
          assert Merged(table, candles, minutes, TIMEFRAMES[j]);
          MergeKeepsCandles(table[s], before, batch, s, staleWindows[s]);
        } else {
          AppendAgesCandles(table[s], before, batch, s, staleWindows[s]);
        }
      }
      ReplaceKeepsBars(stored, before, batch, th, staleDays);
      CrashAgesBars(stored, before, batch, th, staleDays);
    }

    /**
     `stage`, uninterrupted: every stored candle and bar outside what was already stale is the one recomputed over all
     trades, and what the batch touched is stale no more.
     */
    method Stage(batch: seq<Trade>, th: Thresholds, ghost staleWindows: map<int, set<Window>>,
                 ghost staleDays: set<Group>)
      requires Fresh(th, staleWindows, staleDays)
      modifies this
      ensures trades == old(trades) + batch
      ensures Fresh(th, Healed(staleWindows, MinutesOf(batch)), staleDays - DaysOf(MinutesOf(batch)))
    {
      StageTo(STEPS, batch, th, staleWindows, staleDays);
      forall s | s in TIMEFRAMES
        ensures s > 0 && FreshCandles(candles[s], trades, s, Healed(staleWindows, MinutesOf(batch))[s])
      {
        var j :| 0 <= j < |TIMEFRAMES| && TIMEFRAMES[j] == s;
        ReachedIff(j, STEPS);
      }
    }

    /** With nothing stale, as uninterrupted runs leave them, the tables are what `Rebuild` makes of the trades. */
    lemma {:induction false} NothingStaleIsRebuilt(others: seq<Trade>, th: Thresholds)
      requires Fresh(th, NothingStale(), {})
      requires multiset(trades) == multiset(others) && Distinct(TradeLe, trades)
      ensures forall j :: 0 <= j < |TIMEFRAMES| ==> candles[TIMEFRAMES[j]] == RebuiltCandles(others, TIMEFRAMES[j])
      ensures bars == RebuiltBars(others, th)
    {
      forall s | s in TIMEFRAMES ensures s > 0 && candles[s] == RebuiltCandles(others, s) {
        assert FreshCandles(candles[s], trades, s, NothingStale()[s]);
        FreshIsRebuilt(candles[s], bars, trades, others, s, th);
      }
      assert 60 in TIMEFRAMES by { assert TIMEFRAMES[0] == 60; }
      FreshIsRebuilt(candles[60], bars, trades, others, 60, th);
    }

    /** One timeframe of a rebuild, appended to the table the caller recreated. */
    method RebuildTimeframe(s: int)
      requires s > 0 && s in candles && candles[s] == map[]
      modifies this`candles
      ensures candles == old(candles)[s := RebuiltCandles(trades, s)]
    {
      candles := candles[s := candles[s] + Recomputed(trades, s, AllWindows(trades, s))];
      assert map[] + RebuiltCandles(trades, s) == RebuiltCandles(trades, s);
    }

    /** The loop of a rebuild over the timeframes. */
    method RebuildOhlcv(frames: seq<int>)
      requires RebuiltTo(candles, trades, frames, 0)
      modifies this`candles
      ensures candles.Keys == old(candles).Keys && RebuiltTo(candles, trades, frames, |frames|)
    {
      for i := 0 to |frames|
        invariant candles.Keys == old(candles).Keys && RebuiltTo(candles, trades, frames, i)
      {
        RebuiltStep(candles, trades, frames, i);
        RebuildTimeframe(frames[i]);
      }
    }

    /** `rebuild`: the caller has recreated the tables; every window and every day the trades fall in, from nothing. */
    method Rebuild(batch: seq<Trade>, th: Thresholds)
      requires trades == [] && bars == map[]
      requires forall j :: 0 <= j < |TIMEFRAMES| ==> TIMEFRAMES[j] in candles && candles[TIMEFRAMES[j]] == map[]
      modifies this
      ensures trades == batch && bars == RebuiltBars(batch, th)
      ensures candles.Keys == old(candles).Keys
      ensures forall j :: 0 <= j < |TIMEFRAMES| ==> candles[TIMEFRAMES[j]] == RebuiltCandles(batch, TIMEFRAMES[j])
    {
      trades := batch;
      RebuildOhlcv(TIMEFRAMES);
      bars := RecomputedBars(trades, th, AllDays(trades));
    }
  }

  /** The commits of one run after the trades': four merges, a delete, an append. */
  const STEPS := 6

  /** A run of `steps` commits has merged timeframe `s`. */
  ghost predicate Reached(s: int, steps: nat) {
    exists j :: 0 <= j < |TIMEFRAMES| && j < steps && TIMEFRAMES[j] == s
  }

  lemma {:induction false} ReachedIff(j: nat, steps: nat)
    requires j < |TIMEFRAMES|
    ensures Reached(TIMEFRAMES[j], steps) <==> j < steps
  {
    forall i | 0 <= i < |TIMEFRAMES| && TIMEFRAMES[i] == TIMEFRAMES[j] ensures i == j {}
  }

  ghost function WindowsAfter(stale: map<int, set<Window>>, minutes: set<Window>, steps: nat): map<int, set<Window>> {
    map s | s in stale && s > 0 ::
      if Reached(s, steps) then stale[s] - WindowsOf(minutes, s) else stale[s] + WindowsOf(minutes, s)
  }

  ghost function DaysAfter(stale: set<Group>, minutes: set<Window>, steps: nat): set<Group> {
    if steps == STEPS then stale - DaysOf(minutes) else stale + DaysOf(minutes)
  }

  /** No window of any timeframe is behind. */
  ghost function NothingStale(): map<int, set<Window>> {
    map s | s in TIMEFRAMES :: {}
  }

  /** The four timeframes: a minute, five, an hour and a day. */
  lemma {:induction false} FourTimeframes(s: int)
    ensures s in NothingStale() <==> s == 60 || s == 300 || s == 3600 || s == 86400
  {
    assert TIMEFRAMES[0] == 60 && TIMEFRAMES[1] == 300 && TIMEFRAMES[2] == 3600 && TIMEFRAMES[3] == 86400;
  }

  /** An uninterrupted run over tables with nothing stale leaves nothing stale. */
  lemma {:induction false} NothingStaysStale(minutes: set<Window>)
    ensures Healed(NothingStale(), minutes) == NothingStale()
  {
    var healed := Healed(NothingStale(), minutes);
    forall s ensures s in healed <==> s in NothingStale() {}
    forall s | s in healed ensures healed[s] == {} {}
  }

  ghost function Healed(stale: map<int, set<Window>>, minutes: set<Window>): map<int, set<Window>> {
    map s | s in stale && s > 0 :: stale[s] - WindowsOf(minutes, s)
  }

  lemma {:induction false} EmptyArchive(g: Group)
    ensures Day([], g) == []
  {}

  // ---- rebuilding ----

  /** Every window the trades fall in. */
  function AllWindows(trades: seq<Trade>, s: int): set<Window>
    requires s > 0
  {
    set i | 0 <= i < |trades| :: WindowOf(trades[i], s)
  }

  function AllDays(trades: seq<Trade>): set<Group> {
    set i | 0 <= i < |trades| :: GroupOf(trades[i])
  }

  function RebuiltCandles(trades: seq<Trade>, s: int): map<Window, Bar>
    requires s > 0
  {
    Recomputed(trades, s, AllWindows(trades, s))
  }

  /** `rebuild_bars`: every bar over all of `gold.trades`. */
  function RebuiltBars(trades: seq<Trade>, th: Thresholds): map<BarId, Bar> {
    RecomputedBars(trades, th, AllDays(trades))
  }

  lemma {:induction false} NoneSelected(p: Trade -> bool, trades: seq<Trade>)
    requires forall x :: x in trades ==> !p(x)
    ensures Where(p, Sort(TradeLe, trades)) == []
  {
    forall x | x in Sort(TradeLe, trades) ensures !p(x) {
      assert x in multiset(Sort(TradeLe, trades));
      assert x in multiset(trades);
    }
    WhereNone(p, Sort(TradeLe, trades));
  }

  /** What a rebuild lists is all there is. */
  lemma {:induction false} RebuiltIsFresh(trades: seq<Trade>, s: int, th: Thresholds)
    requires s > 0
    ensures FreshCandles(RebuiltCandles(trades, s), trades, s, {})
    ensures FreshBars(RebuiltBars(trades, th), trades, th, {})
  {
    forall k: Window ensures Stored(RebuiltCandles(trades, s), k) == CandleOf(trades, s, k) {
      if k !in AllWindows(trades, s) {
        forall x | x in trades ensures WindowOf(x, s) != k {
          var i :| 0 <= i < |trades| && trades[i] == x;
          assert WindowOf(trades[i], s) in AllWindows(trades, s);
        }
        NoneSelected(InWindow(s, k), trades);
      }
    }
    forall id: BarId ensures Stored(RebuiltBars(trades, th), id) == WantedBar(trades, th, id) {
      if id.1.0 in AllDays(trades) {
        RecomputedIsWanted(trades, th, AllDays(trades), id);
      } else {
        forall x | x in trades ensures GroupOf(x) != id.1.0 {
          var i :| 0 <= i < |trades| && trades[i] == x;
          assert GroupOf(trades[i]) in AllDays(trades);
        }
        NoneSelected(InGroup(id.1.0), trades);
      }
    }
  }

  lemma {:induction false} SameEntries<K(!new), V>(a: map<K, V>, b: map<K, V>)
    requires forall k :: Stored(a, k) == Stored(b, k)
    ensures a == b
  {
    forall k ensures k in a <==> k in b { assert Stored(a, k) == Stored(b, k); }
    forall k | k in a ensures a[k] == b[k] { assert Stored(a, k) == Stored(b, k); }
  }

  /** With nothing stale, a table is the rebuilt one, whatever order the rebuild met the trades in. */
  lemma {:induction false} FreshIsRebuilt(candles: map<Window, Bar>, bars: map<BarId, Bar>, trades: seq<Trade>,
                                          others: seq<Trade>, s: int, th: Thresholds)
    requires s > 0 && multiset(trades) == multiset(others) && Distinct(TradeLe, trades)
    requires FreshCandles(candles, trades, s, {}) && FreshBars(bars, trades, th, {})
    ensures candles == RebuiltCandles(others, s) && bars == RebuiltBars(others, th)
  {
    RebuiltIsFresh(others, s, th);
    assert Sort(TradeLe, trades) == Sort(TradeLe, others) by {
      TradeOrder();
      SortPermutation(TradeLe, trades, others);
    }
    forall k: Window ensures Stored(candles, k) == Stored(RebuiltCandles(others, s), k) {
      assert Stored(candles, k) == CandleOf(trades, s, k);
    }
    forall id: BarId ensures Stored(bars, id) == Stored(RebuiltBars(others, th), id) {
      assert Stored(bars, id) == WantedBar(trades, th, id);
    }
    SameEntries(candles, RebuiltCandles(others, s));
    SameEntries(bars, RebuiltBars(others, th));
  }

  /** What one uninterrupted run makes of a table of candles. */
  function CandlesNext(table: map<Window, Bar>, trades: seq<Trade>, batch: seq<Trade>, s: int): map<Window, Bar>
    requires s > 0
  {
    table + Recomputed(trades + batch, s, WindowsOf(MinutesOf(batch), s))
  }

  /** What one uninterrupted run makes of a table of bars. */
  function BarsNext(table: map<BarId, Bar>, trades: seq<Trade>, batch: seq<Trade>, th: Thresholds): map<BarId, Bar> {
    var days := DaysOf(MinutesOf(batch));
    WithoutDays(table, days) + RecomputedBars(trades + batch, th, days)
  }

  /** The candles after `n` uninterrupted runs over empty tables. */
  function CandlesAfter(batches: seq<seq<Trade>>, n: nat, s: int): map<Window, Bar>
    requires n <= |batches| && s > 0
  {
    if n == 0 then map[]
    else CandlesNext(CandlesAfter(batches, n - 1, s), Flatten(batches, n - 1), batches[n - 1], s)
  }

  /** The bars after `n` uninterrupted runs. */
  function BarsAfter(batches: seq<seq<Trade>>, n: nat, th: Thresholds): map<BarId, Bar>
    requires n <= |batches|
  {
    if n == 0 then map[]
    else BarsNext(BarsAfter(batches, n - 1, th), Flatten(batches, n - 1), batches[n - 1], th)
  }

  lemma {:induction false} NoCandles(table: map<Window, Bar>, trades: seq<Trade>, s: int)
    requires s > 0 && table == map[] && trades == []
    ensures FreshCandles(table, trades, s, {})
  {
    forall k: Window ensures CandleOf([], s, k) == None { NoneSelected(InWindow(s, k), []); }
  }

  lemma {:induction false} NoBars(table: map<BarId, Bar>, trades: seq<Trade>, th: Thresholds)
    requires table == map[] && trades == []
    ensures FreshBars(table, trades, th, {})
  {
    forall id: BarId ensures WantedBar([], th, id) == None { EmptyArchive(id.1.0); }
  }

  lemma {:induction false} CandlesStayFresh(table: map<Window, Bar>, trades: seq<Trade>, batch: seq<Trade>, s: int)
    requires WholeMinutes(s) && FreshCandles(table, trades, s, {})
    ensures FreshCandles(CandlesNext(table, trades, batch, s), trades + batch, s, {})
  {
    MergeKeepsCandles(table, trades, batch, s, {});
    assert {} - WindowsOf(MinutesOf(batch), s) == {};
  }

  lemma {:induction false} BarsStayFresh(table: map<BarId, Bar>, trades: seq<Trade>, batch: seq<Trade>, th: Thresholds)
    requires FreshBars(table, trades, th, {})
    ensures FreshBars(BarsNext(table, trades, batch, th), trades + batch, th, {})
  {
    ReplaceKeepsBars(table, trades, batch, th, {});
    assert {} - DaysOf(MinutesOf(batch)) == {};
  }

  lemma {:induction false} CandleRunsAreFresh(batches: seq<seq<Trade>>, n: nat, s: int)
    requires n <= |batches| && WholeMinutes(s)
    ensures FreshCandles(CandlesAfter(batches, n, s), Flatten(batches, n), s, {})
  {
    if n == 0 {
      NoCandles(CandlesAfter(batches, n, s), Flatten(batches, n), s);
    } else {
      CandleRunsAreFresh(batches, n - 1, s);
      CandlesStayFresh(CandlesAfter(batches, n - 1, s), Flatten(batches, n - 1), batches[n - 1], s);
    }
  }

  lemma {:induction false} BarRunsAreFresh(batches: seq<seq<Trade>>, n: nat, th: Thresholds)
    requires n <= |batches|
    ensures FreshBars(BarsAfter(batches, n, th), Flatten(batches, n), th, {})
  {
    if n == 0 {
      NoBars(BarsAfter(batches, n, th), Flatten(batches, n), th);
    } else {
      BarRunsAreFresh(batches, n - 1, th);
      BarsStayFresh(BarsAfter(batches, n - 1, th), Flatten(batches, n - 1), batches[n - 1], th);
    }
  }

  /**
   However the trades came in, batch by batch or all at once in any order, incremental runs and a rebuild leave the same
   candles and the same bars.
   */
  lemma {:induction false} IncrementalIsRebuild(batches: seq<seq<Trade>>, n: nat, others: seq<Trade>, s: int,
                                                th: Thresholds)
    requires n <= |batches| && WholeMinutes(s)
    requires multiset(Flatten(batches, n)) == multiset(others) && Distinct(TradeLe, Flatten(batches, n))
    ensures CandlesAfter(batches, n, s) == RebuiltCandles(others, s) &&
            BarsAfter(batches, n, th) == RebuiltBars(others, th)
  {
    CandleRunsAreFresh(batches, n, s);
    BarRunsAreFresh(batches, n, th);
    FreshIsRebuilt(CandlesAfter(batches, n, s), BarsAfter(batches, n, th), Flatten(batches, n), others, s, th);
  }

  /** A candle does not depend on the order its trades arrived in. */
  lemma {:induction false} CandlePermutation(trades: seq<Trade>, others: seq<Trade>, s: int, k: Window)
    requires s > 0 && multiset(trades) == multiset(others) && Distinct(TradeLe, trades)
    ensures CandleOf(trades, s, k) == CandleOf(others, s, k)
  {
    TradeOrder();
    SortPermutation(TradeLe, trades, others);
  }
}
