/** The nightly comparison of stored bars with recomputed ones (docker/lake/bars.py:148-169). */
module BarsParity {
  import opened Trades
  import opened Bars
  import opened Gold

  /** The columns compared, at tolerance zero; times follow from `bar_seq`. */
  predicate SameColumns(a: Bar, b: Bar) {
    && a.opens == b.opens && a.high == b.high && a.low == b.low && a.close == b.close
    && a.volume == b.volume && a.quote8 == b.quote8 && a.count == b.count
  }

  /** The keys on one side only, and those whose columns differ. */
  function Mismatches(anew: map<BarId, Bar>, stored: map<BarId, Bar>): set<BarId> {
    set id | id in anew.Keys + stored.Keys && (id !in anew || id !in stored || !SameColumns(anew[id], stored[id]))
  }

  /** The stored rows of some days. */
  function OfDays(table: map<BarId, Bar>, days: set<Group>): map<BarId, Bar> {
    map id | id in table && id.1.0 in days :: table[id]
  }

  ghost predicate DayRight(table: map<BarId, Bar>, trades: seq<Trade>, th: Thresholds, id: BarId) {
    var wanted := WantedBar(trades, th, id);
    if id in table then wanted.Some? && SameColumns(wanted.value, table[id]) else wanted.None?
  }

  /** The audit finds nothing exactly when every bar of the days is there, right in every column, and no other is. */
  lemma {:induction false} ParityIff(table: map<BarId, Bar>, trades: seq<Trade>, th: Thresholds, days: set<Group>)
    ensures Mismatches(RecomputedBars(trades, th, days), OfDays(table, days)) == {} <==>
            forall id: BarId :: id.1.0 in days ==> DayRight(table, trades, th, id)
  {
    var anew, stored := RecomputedBars(trades, th, days), OfDays(table, days);
    forall id: BarId | id.1.0 in days ensures id !in Mismatches(anew, stored) <==> DayRight(table, trades, th, id) {
      RecomputedIsWanted(trades, th, days, id);
    }
    forall id | id in Mismatches(anew, stored) ensures id.1.0 in days {}
  }

  /** Finding nothing on a day means each bar stored for it is wanted, every wanted one is stored, all columns equal. */
  lemma {:induction false} NothingFoundIsEqual(table: map<BarId, Bar>, trades: seq<Trade>, th: Thresholds,
                                               days: set<Group>, id: BarId)
    requires Mismatches(RecomputedBars(trades, th, days), OfDays(table, days)) == {} && id.1.0 in days
    ensures id in table <==> WantedBar(trades, th, id).Some?
    ensures id in table ==>
              var stored, wanted := table[id], WantedBar(trades, th, id).value;
              && stored.opens == wanted.opens && stored.high == wanted.high && stored.low == wanted.low
              && stored.close == wanted.close && stored.volume == wanted.volume && stored.quote8 == wanted.quote8
              && stored.count == wanted.count
  {
    ParityIff(table, trades, th, days);
    assert DayRight(table, trades, th, id);
  }

  /** And a difference in any one of them, or a bar on one side only, is found. */
  lemma {:induction false} DifferenceIsFound(table: map<BarId, Bar>, trades: seq<Trade>, th: Thresholds,
                                             days: set<Group>, id: BarId)
    requires id.1.0 in days && id in table && WantedBar(trades, th, id).Some?
    requires var stored, wanted := table[id], WantedBar(trades, th, id).value;
             || stored.opens != wanted.opens || stored.high != wanted.high || stored.low != wanted.low
             || stored.close != wanted.close || stored.volume != wanted.volume || stored.quote8 != wanted.quote8
             || stored.count != wanted.count
    ensures id in Mismatches(RecomputedBars(trades, th, days), OfDays(table, days))
  {
    RecomputedIsWanted(trades, th, days, id);
  }

  /** A crash between the delete and the append is found, every missing bar by name. */
  lemma {:induction false} HalfAppliedIsFound(table: map<BarId, Bar>, trades: seq<Trade>, th: Thresholds,
                                              days: set<Group>)
    ensures Mismatches(RecomputedBars(trades, th, days), OfDays(WithoutDays(table, days), days)) ==
            RecomputedBars(trades, th, days).Keys
  {
    assert OfDays(WithoutDays(table, days), days) == map[];
  }

  /** Days that are not stale pass. */
  lemma {:induction false} FreshPasses(table: map<BarId, Bar>, trades: seq<Trade>, th: Thresholds, stale: set<Group>,
                                       days: set<Group>)
    requires FreshBars(table, trades, th, stale) && days !! stale
    ensures Mismatches(RecomputedBars(trades, th, days), OfDays(table, days)) == {}
  {
    forall id: BarId | id.1.0 in days ensures DayRight(table, trades, th, id) {
      assert Stored(table, id) == WantedBar(trades, th, id);
    }
    ParityIff(table, trades, th, days);
  }
}
