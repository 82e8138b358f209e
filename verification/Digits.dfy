/** Decimal digit strings and the numbers they denote. */
module Digits {
  predicate IsDigit(c: char) {
    '0' <= c <= '9'
  }

  predicate AllDigits(s: string) {
    forall i :: 0 <= i < |s| ==> IsDigit(s[i])
  }

  function DigitOf(c: char): (d: nat)
    requires IsDigit(c)
    ensures d < 10
  {
    (c as int - '0' as int) as nat
  }

  function CharOf(d: nat): (c: char)
    requires d < 10
    ensures IsDigit(c) && DigitOf(c) == d
  {
    (d + '0' as int) as char
  }

  function Pow10(n: nat): (r: nat)
    ensures r >= 1
  {
    if n == 0 then 1 else 10 * Pow10(n - 1)
  }

  lemma {:induction false} Pow10Add(a: nat, b: nat)
    ensures Pow10(a + b) == Pow10(a) * Pow10(b)
  {
    if a > 0 {
      Pow10Add(a - 1, b);
      assert Pow10(a + b) == 10 * Pow10(a - 1 + b);
    }
  }

  /** The number a digit string denotes, most significant digit first. */
  function ValueOf(s: string): nat
    requires AllDigits(s)
  {
    if s == [] then 0 else ValueOf(s[..|s| - 1]) * 10 + DigitOf(s[|s| - 1])
  }

  lemma {:induction false} TenTimes(v: nat, p: nat, w: nat)
    ensures (v * p + w) * 10 == v * (p * 10) + w * 10
  {}

  lemma {:induction false} ValueOfConcat(a: string, b: string)
    requires AllDigits(a) && AllDigits(b)
    ensures AllDigits(a + b)
    ensures ValueOf(a + b) == ValueOf(a) * Pow10(|b|) + ValueOf(b)
  {
    if b == [] {
      assert a + b == a;
    } else {
      var b' := b[..|b| - 1];
      ValueOfConcat(a, b');
      assert (a + b)[..|a + b| - 1] == a + b';
      TenTimes(ValueOf(a), Pow10(|b'|), ValueOf(b'));
    }
  }

  /** `k` zeros. */
  function Zeros(k: nat): (s: string)
    ensures |s| == k && AllDigits(s)
  {
    if k == 0 then [] else ['0'] + Zeros(k - 1)
  }

  lemma {:induction false} ValueOfZeros(k: nat)
    ensures ValueOf(Zeros(k)) == 0
  {
    if k > 0 {
      ValueOfZeros(k - 1);
      ValueOfConcat(['0'], Zeros(k - 1));
      assert ValueOf(['0']) == 0;
    }
  }

  /** Appending zeros multiplies by the power of ten. */
  lemma {:induction false} ValueOfPadded(s: string, k: nat)
    requires AllDigits(s)
    ensures AllDigits(s + Zeros(k)) && ValueOf(s + Zeros(k)) == ValueOf(s) * Pow10(k)
  {
    ValueOfConcat(s, Zeros(k));
    ValueOfZeros(k);
  }

  /** `str(n)`: the digits of `n`, no leading zero unless `n` is zero. */
  function ToString(n: nat): (s: string)
    ensures s != [] && AllDigits(s)
    ensures n > 0 ==> s[0] != '0'
    ensures ValueOf(s) == n
  {
    if n < 10 then [CharOf(n)] else
      var head := ToString(n / 10);
      var s := head + [CharOf(n % 10)];
      assert s[..|s| - 1] == head;
      s
  }

  /** `n` right-aligned in `k` digits: `{:0k}`. */
  function Pad(n: nat, k: nat): (s: string)
    requires n < Pow10(k)
    ensures |s| == k && AllDigits(s) && ValueOf(s) == n
  {
    if k == 0 then [] else
      var head := Pad(n / 10, k - 1);
      var s := head + [CharOf(n % 10)];
      assert s[..|s| - 1] == head;
      s
  }

  /** A digit string without a leading zero is the canonical print of its value. */
  lemma {:induction false} ToStringOfValue(s: string)
    requires s != [] && AllDigits(s)
    requires s[0] != '0'
    ensures ToString(ValueOf(s)) == s && ValueOf(s) > 0
  {
    var head, last := s[..|s| - 1], s[|s| - 1];
    assert s == head + [last];
    if head == [] {
      assert ValueOf(s) == DigitOf(last);
      assert CharOf(DigitOf(last)) == last;
    } else {
      ToStringOfValue(head);
      assert ValueOf(s) / 10 == ValueOf(head);
      assert ValueOf(s) % 10 == DigitOf(last);
    }
  }

  /** The longest run of digits starting at `i`. */
  function RunEnd(s: string, i: nat): (j: nat)
    requires i <= |s|
    ensures i <= j <= |s|
    ensures forall k :: i <= k < j ==> IsDigit(s[k])
    ensures j < |s| ==> !IsDigit(s[j])
    decreases |s| - i
  {
    if i < |s| && IsDigit(s[i]) then RunEnd(s, i + 1) else i
  }
}
