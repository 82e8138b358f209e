/** Python's `sorted`: a stable insertion sort under a caller's order, and why its result is unique. */
module Sorting {
  import opened Prelude

  ghost predicate TotalPreorder<T(!new)>(le: (T, T) -> bool) {
    && (forall x, y :: le(x, y) || le(y, x))
    && (forall x, y, z :: le(x, y) && le(y, z) ==> le(x, z))
  }

  ghost predicate SortedBy<T>(le: (T, T) -> bool, s: seq<T>) {
    forall i, j :: 0 <= i < j < |s| ==> le(s[i], s[j])
  }

  /** No two positions of `s` are tied under `le`. */
  ghost predicate Distinct<T>(le: (T, T) -> bool, s: seq<T>) {
    forall i, j :: 0 <= i < |s| && 0 <= j < |s| && i != j ==> !(le(s[i], s[j]) && le(s[j], s[i]))
  }

  /** Place `x` after everything it does not precede. */
  function Insert<T>(le: (T, T) -> bool, s: seq<T>, x: T): (r: seq<T>)
    ensures multiset(r) == multiset(s) + multiset{x}
  {
    if s == [] then [x]
    else if le(s[|s| - 1], x) then s + [x]
    else
      assert s == s[..|s| - 1] + [s[|s| - 1]];
      Insert(le, s[..|s| - 1], x) + [s[|s| - 1]]
  }

  function Sort<T>(le: (T, T) -> bool, s: seq<T>): (r: seq<T>)
    ensures multiset(r) == multiset(s)
    ensures |r| == |s|
  {
    if s == [] then [] else
      assert s == s[..|s| - 1] + [s[|s| - 1]];
      var r := Insert(le, Sort(le, s[..|s| - 1]), s[|s| - 1]);
      assert |multiset(r)| == |multiset(s)|;
      r
  }

  lemma {:induction false} InsertSorted<T(!new)>(le: (T, T) -> bool, s: seq<T>, x: T)
    requires TotalPreorder(le) && SortedBy(le, s)
    ensures SortedBy(le, Insert(le, s, x))
  {
    if s != [] && !le(s[|s| - 1], x) {
      var init, last := s[..|s| - 1], s[|s| - 1];
      InsertSorted(le, init, x);
      var r := Insert(le, init, x);
      forall i | 0 <= i < |r| ensures le(r[i], last) {
        assert r[i] in multiset(r);
        assert r[i] in multiset(init) || r[i] == x;
      }
    }
  }

  lemma {:induction false} SortSorted<T(!new)>(le: (T, T) -> bool, s: seq<T>)
    requires TotalPreorder(le)
    ensures SortedBy(le, Sort(le, s))
  {
    if s != [] {
      SortSorted(le, s[..|s| - 1]);
      InsertSorted(le, Sort(le, s[..|s| - 1]), s[|s| - 1]);
    }
  }

  /** Distinctness depends only on which elements occur, and how often. */
  lemma {:induction false} DistinctPermutation<T(!new)>(le: (T, T) -> bool, s: seq<T>, t: seq<T>)
    requires TotalPreorder(le) && multiset(s) == multiset(t) && Distinct(le, s)
    ensures Distinct(le, t)
  {
    forall i, j | 0 <= i < |t| && 0 <= j < |t| && i != j
      ensures !(le(t[i], t[j]) && le(t[j], t[i]))
    {
      if t[i] == t[j] {
        var k, l := if i < j then i else j, if i < j then j else i;
        assert t == t[..k] + [t[k]] + t[k + 1..l] + [t[l]] + t[l + 1..];
        assert multiset(t)[t[k]] >= 2;
        OccursTwice(s, t[k]);
      } else {
        assert t[i] in multiset(t) && t[j] in multiset(t);
        assert t[i] in s && t[j] in s;
      }
    }
  }

  lemma {:induction false} OccursTwice<T>(s: seq<T>, x: T)
    requires multiset(s)[x] >= 2
    ensures exists i, j :: 0 <= i < j < |s| && s[i] == x && s[j] == x
  {
    var init, last := s[..|s| - 1], s[|s| - 1];
    assert s == init + [last];
    if last == x {
      assert x in multiset(init);
      var i :| 0 <= i < |init| && init[i] == x;
      assert s[i] == x && s[|s| - 1] == x;
    } else {
      OccursTwice(init, x);
      var i, j :| 0 <= i < j < |init| && init[i] == x && init[j] == x;
      assert s[i] == x && s[j] == x;
    }
  }

  /** The last element of a sorted sequence is an upper bound of its elements. */
  lemma {:induction false} LastIsUpper<T(!new)>(le: (T, T) -> bool, s: seq<T>, x: T)
    requires TotalPreorder(le) && SortedBy(le, s) && x in s
    ensures le(x, s[|s| - 1])
  {
    var i :| 0 <= i < |s| && s[i] == x;
    assert le(x, x);
  }

  /** Elements tied under `le` in a tie-free sequence are one element. */
  lemma {:induction false} TieIsEqual<T(!new)>(le: (T, T) -> bool, s: seq<T>, x: T, y: T)
    requires Distinct(le, s) && x in s && y in s && le(x, y) && le(y, x)
    ensures x == y
  {
    var i :| 0 <= i < |s| && s[i] == x;
    var j :| 0 <= j < |s| && s[j] == y;
  }

  lemma {:induction false} SameLast<T(!new)>(le: (T, T) -> bool, s: seq<T>, t: seq<T>)
    requires TotalPreorder(le) && SortedBy(le, s) && SortedBy(le, t)
    requires multiset(s) == multiset(t) && Distinct(le, s) && s != [] && t != []
    ensures s[|s| - 1] == t[|t| - 1]
  {
    var a, b := s[|s| - 1], t[|t| - 1];
    assert b in multiset(t) && a in multiset(s);
    LastIsUpper(le, s, b);
    LastIsUpper(le, t, a);
    TieIsEqual(le, s, a, b);
  }

  lemma {:induction false} PrefixKeeps<T>(le: (T, T) -> bool, s: seq<T>, n: nat)
    requires n <= |s|
    ensures SortedBy(le, s) ==> SortedBy(le, s[..n])
    ensures Distinct(le, s) ==> Distinct(le, s[..n])
  {}

  lemma {:induction false} InitMultiset<T>(s: seq<T>)
    requires s != []
    ensures multiset(s[..|s| - 1]) == multiset(s) - multiset{s[|s| - 1]}
  {
    assert s == s[..|s| - 1] + [s[|s| - 1]];
  }

  /** Two sorted arrangements of the same tie-free elements are the same sequence. */
  lemma {:induction false} SortedUnique<T(!new)>(le: (T, T) -> bool, s: seq<T>, t: seq<T>)
    requires TotalPreorder(le)
    requires SortedBy(le, s) && SortedBy(le, t)
    requires multiset(s) == multiset(t) && Distinct(le, s)
    ensures s == t
  {
    SameLength(s, t);
    if s != [] {
      var s', t' := s[..|s| - 1], t[..|t| - 1];
      SameLast(le, s, t);
      SameInit(le, s, t);
      SortedUnique(le, s', t');
      InitLast(s);
      InitLast(t);
    }
  }

  lemma {:induction false} SameLength<T>(s: seq<T>, t: seq<T>)
    requires multiset(s) == multiset(t)
    ensures |s| == |t|
  {
    assert |s| == |multiset(s)| == |multiset(t)| == |t|;
  }

  lemma {:induction false} SameInit<T(!new)>(le: (T, T) -> bool, s: seq<T>, t: seq<T>)
    requires s != [] && t != [] && s[|s| - 1] == t[|t| - 1]
    requires SortedBy(le, s) && SortedBy(le, t) && multiset(s) == multiset(t) && Distinct(le, s)
    ensures var s', t' := s[..|s| - 1], t[..|t| - 1];
            SortedBy(le, s') && SortedBy(le, t') && multiset(s') == multiset(t') && Distinct(le, s')
  {
    InitMultiset(s);
    InitMultiset(t);
    PrefixKeeps(le, s, |s| - 1);
    PrefixKeeps(le, t, |t| - 1);
  }

  /** Sorting does not see the order its input arrived in. */
  lemma {:induction false} SortPermutation<T(!new)>(le: (T, T) -> bool, s: seq<T>, t: seq<T>)
    requires TotalPreorder(le)
    requires multiset(s) == multiset(t) && Distinct(le, s)
    ensures Sort(le, s) == Sort(le, t)
  {
    SortSorted(le, s);
    SortSorted(le, t);
    DistinctPermutation(le, s, Sort(le, s));
    SortedUnique(le, Sort(le, s), Sort(le, t));
  }
}
