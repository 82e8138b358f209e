/** Shared vocabulary: optional values, integer extrema, decimal digits. */
module Prelude {

  datatype Option<+T> = None | Some(value: T)

  function Min(a: int, b: int): int {
    if a <= b then a else b
  }

  function Max(a: int, b: int): int {
    if a >= b then a else b
  }

  lemma {:induction false} Scale(a: int, b: int, t: int)
    requires a <= b && t > 0
    ensures a * t <= b * t
  {}

  lemma {:induction false} QuotientIs(x: int, a: int, q: int)
    requires a > 0 && q * a <= x < q * a + a
    ensures x / a == q
  {
    var d := x / a;
    assert x == d * a + x % a;
    assert (d + 1) * a == d * a + a && (q + 1) * a == q * a + a;
    if d < q { Scale(d + 1, q, a); }
    if d > q { Scale(q + 1, d, a); }
  }

  lemma {:induction false} InitLast<A>(xs: seq<A>)
    requires xs != []
    ensures xs == xs[..|xs| - 1] + [xs[|xs| - 1]]
  {}

  lemma {:induction false} SomeElement(s: set<int>)
    ensures s != {} ==> exists x: int :: x in s
  {
    if forall x: int :: x !in s { assert s == {}; }
  }

  /** What `f` makes of the first `n` elements, leaving out those it makes nothing of. */
  function Collect<A, B>(f: A -> Option<B>, xs: seq<A>, n: nat): seq<B>
    requires n <= |xs|
  {
    if n == 0 then [] else
      Collect(f, xs, n - 1) + (match f(xs[n - 1]) case None => [] case Some(b) => [b])
  }

  lemma {:induction false} CollectPrefix<A, B>(f: A -> Option<B>, xs: seq<A>, ys: seq<A>, n: nat)
    requires n <= |xs| && n <= |ys| && forall i :: 0 <= i < n ==> xs[i] == ys[i]
    ensures Collect(f, xs, n) == Collect(f, ys, n)
  {
    if n > 0 { CollectPrefix(f, xs, ys, n - 1); }
  }

  lemma {:induction false} CollectAppend<A, B>(f: A -> Option<B>, xs: seq<A>, ys: seq<A>, bs: seq<B>, n: nat)
    requires n <= |ys| == |bs| && forall i :: 0 <= i < |ys| ==> f(ys[i]) == Some(bs[i])
    ensures Collect(f, xs + ys, |xs| + n) == Collect(f, xs, |xs|) + bs[..n]
  {
    if n == 0 {
      CollectPrefix(f, xs + ys, xs, |xs|);
    } else {
      CollectAppend(f, xs, ys, bs, n - 1);
      assert (xs + ys)[|xs| + n - 1] == ys[n - 1];
      assert bs[..n] == bs[..n - 1] + [bs[n - 1]];
    }
  }

  lemma {:induction false} CollectConcat<A, B>(f: A -> Option<B>, xs: seq<A>, ys: seq<A>, n: nat)
    requires n <= |ys|
    ensures Collect(f, xs + ys, |xs| + n) == Collect(f, xs, |xs|) + Collect(f, ys, n)
  {
    if n == 0 {
      CollectPrefix(f, xs + ys, xs, |xs|);
    } else {
      CollectConcat(f, xs, ys, n - 1);
      assert (xs + ys)[|xs| + n - 1] == ys[n - 1];
    }
  }

  /** The concatenation of the first `n` pieces. */
  function Flatten<A>(pieces: seq<seq<A>>, n: nat): seq<A>
    requires n <= |pieces|
  {
    if n == 0 then [] else Flatten(pieces, n - 1) + pieces[n - 1]
  }

  lemma {:induction false} FlattenPrefix<A>(a: seq<seq<A>>, b: seq<seq<A>>, n: nat)
    requires n <= |a| && n <= |b| && forall i :: 0 <= i < n ==> a[i] == b[i]
    ensures Flatten(a, n) == Flatten(b, n)
  {
    if n > 0 { FlattenPrefix(a, b, n - 1); }
  }

  /** The state after the first `n` elements. */
  ghost function FoldTo<S, A>(step: (S, A) -> S, s: S, xs: seq<A>, n: nat): S
    requires n <= |xs|
  {
    if n == 0 then s else step(FoldTo(step, s, xs, n - 1), xs[n - 1])
  }

  /** What the steps over the first `n` elements put out. */
  ghost function FoldOut<S, A, O>(step: (S, A) -> S, out: (S, A) -> seq<O>, s: S, xs: seq<A>, n: nat): seq<O>
    requires n <= |xs|
  {
    if n == 0 then [] else FoldOut(step, out, s, xs, n - 1) + out(FoldTo(step, s, xs, n - 1), xs[n - 1])
  }

  lemma {:induction false} FoldToPrefix<S, A>(step: (S, A) -> S, s: S, xs: seq<A>, ys: seq<A>, n: nat)
    requires n <= |xs| && n <= |ys| && forall i :: 0 <= i < n ==> xs[i] == ys[i]
    ensures FoldTo(step, s, xs, n) == FoldTo(step, s, ys, n)
  {
    if n > 0 { FoldToPrefix(step, s, xs, ys, n - 1); }
  }

  lemma {:induction false} FoldOutPrefix<S, A, O>(step: (S, A) -> S, out: (S, A) -> seq<O>, s: S, xs: seq<A>,
                                                  ys: seq<A>, n: nat)
    requires n <= |xs| && n <= |ys| && forall i :: 0 <= i < n ==> xs[i] == ys[i]
    ensures FoldOut(step, out, s, xs, n) == FoldOut(step, out, s, ys, n)
  {
    if n > 0 {
      FoldOutPrefix(step, out, s, xs, ys, n - 1);
      FoldToPrefix(step, s, xs, ys, n - 1);
    }
  }

  /** Two stretches one after the other are one stretch. */
  lemma {:induction false} FoldToAppend<S, A>(step: (S, A) -> S, s: S, xs: seq<A>, ys: seq<A>, n: nat)
    requires n <= |ys|
    ensures FoldTo(step, s, xs + ys, |xs| + n) == FoldTo(step, FoldTo(step, s, xs, |xs|), ys, n)
  {
    if n > 0 {
      FoldToAppend(step, s, xs, ys, n - 1);
      assert (xs + ys)[|xs| + n - 1] == ys[n - 1];
    } else {
      FoldToPrefix(step, s, xs, xs + ys, |xs|);
    }
  }

  lemma {:induction false} FoldToSplit<S, A>(step: (S, A) -> S, s: S, xs: seq<A>, ys: seq<A>, whole: S, parts: S)
    requires whole == FoldTo(step, s, xs + ys, |xs| + |ys|)
    requires parts == FoldTo(step, FoldTo(step, s, xs, |xs|), ys, |ys|)
    ensures whole == parts
  {
    FoldToAppend(step, s, xs, ys, |ys|);
  }

  lemma {:induction false} FoldOutAppend<S, A, O>(step: (S, A) -> S, out: (S, A) -> seq<O>, s: S, xs: seq<A>,
                                                  ys: seq<A>, n: nat, mid: S)
    requires n <= |ys| && mid == FoldTo(step, s, xs, |xs|)
    ensures FoldOut(step, out, s, xs + ys, |xs| + n) == FoldOut(step, out, s, xs, |xs|) + FoldOut(step, out, mid, ys, n)
  {
    if n > 0 {
      FoldOutAppend(step, out, s, xs, ys, n - 1, mid);
      FoldToAppend(step, s, xs, ys, n - 1);
      assert (xs + ys)[|xs| + n - 1] == ys[n - 1];
    } else {
      FoldOutPrefix(step, out, s, xs, xs + ys, |xs|);
    }
  }
}
