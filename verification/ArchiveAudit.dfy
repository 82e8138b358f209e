/** The archive meets its own audit: what every run of the ledger leaves behind, the nightly check accepts. */
module ArchiveAudit {
  import opened Gaps
  import opened Audit
  import opened Ledger

  /** `g` is what `GROUP BY` and `ORDER BY offset` return for its partition of the table. */
  ghost predicate Selects(rows: multiset<Record>, g: Group) {
    ValidGroup(g) && forall o :: multiset(g.offsets)[o] == rows[Record(g.topic, g.partition, o)]
  }

  lemma {:induction false} RepeatCounts(os: seq<int>, i: nat, j: nat)
    requires i < j < |os| && os[i] == os[j]
    ensures multiset(os)[os[i]] >= 2
  {
    assert os == os[..i] + [os[i]] + os[i + 1..j] + [os[j]] + os[j + 1..];
  }

  lemma {:induction false} OnceIsStrict(os: seq<int>)
    requires Ascending(os) && forall o :: multiset(os)[o] <= 1
    ensures Strict(os)
  {
    forall i: nat, j: nat | i < j < |os| ensures os[i] < os[j] {
      if os[i] == os[j] { RepeatCounts(os, i, j); }
    }
  }

  lemma {:induction false} PromisedIsIntact(br: Broker, v: View, g: Group)
    requires Selects(v.rows, g) && RowsOk(v, g.topic, g.partition)
    ensures Intact(g, v.gaps)
  {
    var os := g.offsets;
    OnceIsStrict(os);
    forall o | os[0] <= o <= os[|os| - 1] && o !in os ensures Acknowledged(v.gaps, g.topic, g.partition, o) {
      assert os[0] in multiset(os) && os[|os| - 1] in multiset(os);
      assert v.rows[Record(g.topic, g.partition, os[0])] > 0;
      assert v.rows[Record(g.topic, g.partition, os[|os| - 1])] > 0;
      assert multiset(os)[o] == 0;
      assert v.rows[Record(g.topic, g.partition, o)] == 0;
      assert Promised(v, g.topic, g.partition, os[0]) && Promised(v, g.topic, g.partition, os[|os| - 1]);
      assert !Promised(v, g.topic, g.partition, o);
    }
  }

  lemma {:induction false} IntactPasses(g: Group, gaps: seq<Gap>)
    requires ValidGroup(g) && Intact(g, gaps)
    ensures PartitionPasses(g, gaps)
  {
    var n := |g.offsets|;
    assert g.offsets[..n] == g.offsets;
    HolesAccount(g, n);
    NoRepeatsIffStrict(g.offsets, n);
    HolesAreNotEmpty(g, n);
  }

  /** In every state the ledger can reach, every partition of the table passes the audit, and is in fact intact. */
  lemma {:induction false} LedgerPassesAudit(s: State, run: seq<Action>, g: Group)
    requires Initial(s) && Legal(s, run) && Selects(After(s, run).archive.rows, g)
    ensures var checks := After(s, run).archive.checks;
            Intact(g, RecordedUpTo(checks, |checks|)) && PartitionPasses(g, RecordedUpTo(checks, |checks|))
  {
    InitialInv(s);
    RunKeepsInv(s, run);
    var s' := After(s, run);
    var v := ViewOf(s'.archive);
    assert PositionOk(s'.broker, v, g.topic, g.partition) && RowsOk(v, g.topic, g.partition);
    PromisedIsIntact(s'.broker, v, g);
    IntactPasses(g, v.gaps);
  }
}
