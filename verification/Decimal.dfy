/** Decimal text to 1e-8 fixed point, exactly or not at all, and the digits a book checksum is computed over. */
module Decimal {
  import opened Prelude
  import opened Digits

  const SCALE_DP: nat := 8
  const SCALE := 100_000_000
  const I64_MAX := 0x7FFF_FFFF_FFFF_FFFF

  datatype DecimalError = TooManyDecimals | Scientific | Malformed | Overflow | Negative

  datatype Parsed = Ok(units: int) | Err(error: DecimalError)

  // ---- what a decimal text denotes ----

  /** Where the first point is, or the length. */
  function PointAt(s: string): (k: nat)
    ensures k <= |s|
    ensures forall i :: 0 <= i < k ==> s[i] != '.'
    ensures k < |s| ==> s[k] == '.'
  {
    if s == [] then 0
    else
      var k := PointAt(s[..|s| - 1]);
      if k < |s| - 1 then k else if s[|s| - 1] == '.' then |s| - 1 else |s|
  }

  function Whole(s: string): string {
    s[..PointAt(s)]
  }

  function Frac(s: string): string {
    if PointAt(s) < |s| then s[PointAt(s) + 1..] else []
  }

  /** The number grammar of section 6 of RFC 8259 without sign or exponent, at most eight decimals, zeros may lead. */
  predicate WellFormed(s: string) {
    && Whole(s) != [] && AllDigits(Whole(s))
    && (PointAt(s) < |s| ==> Frac(s) != [] && AllDigits(Frac(s)))
    && |Frac(s)| <= SCALE_DP
  }

  /** The digits with the point taken out. */
  function RemovePoint(s: string): string {
    Whole(s) + Frac(s)
  }

  lemma {:induction false} WellFormedDigits(s: string)
    requires WellFormed(s)
    ensures AllDigits(RemovePoint(s)) && RemovePoint(s) != []
  {}

  /** `round(decimal * 1e8)`, where no rounding is needed. */
  function Units(s: string): nat
    requires WellFormed(s)
  {
    WellFormedDigits(s);
    ValueOf(RemovePoint(s)) * Pow10(SCALE_DP - |Frac(s)|)
  }

  /** Exact: units over 1e8 and the digits over their power of ten are the same fraction. */
  lemma {:induction false} UnitsExact(s: string)
    requires WellFormed(s)
    ensures AllDigits(RemovePoint(s)) && Units(s) * Pow10(|Frac(s)|) == ValueOf(RemovePoint(s)) * SCALE
  {
    WellFormedDigits(s);
    var f := |Frac(s)|;
    Pow10Add(SCALE_DP - f, f);
    Pow10Is(8);
    var v, a, b := ValueOf(RemovePoint(s)), Pow10(SCALE_DP - f), Pow10(f);
    assert v * a * b == v * (a * b);
  }

  lemma {:induction false} Pow10Is(n: nat)
    requires n == 8
    ensures Pow10(n) == SCALE
  {
    assert Pow10(4) == 10_000;
    Pow10Add(4, 4);
  }

  // ---- parse_fixed ----

  /** A longer digit string denotes no smaller a number. */
  lemma {:induction false} LongerIsLarger(a: string, b: string)
    requires AllDigits(a) && AllDigits(b)
    ensures AllDigits(a + b) && ValueOf(a + b) >= ValueOf(a)
  {
    ValueOfConcat(a, b);
    TimesAtLeast(ValueOf(a), Pow10(|b|));
  }

  lemma {:induction false} TimesAtLeast(v: nat, p: nat)
    requires p >= 1
    ensures v * p >= v
  {}

  /** The part of `s` before `i`, as the byte loop sees it: digits, perhaps a point, perhaps more digits. */
  ghost predicate Scanned(s: string, i: nat, point: Option<nat>) {
    && i <= |s|
    && (point.None? ==> AllDigits(s[..i]))
    && (point.Some? ==>
          && 0 < point.value < i && s[point.value] == '.'
          && AllDigits(s[..point.value]) && AllDigits(s[point.value + 1..i]))
  }

  ghost function DigitsSoFar(s: string, i: nat, point: Option<nat>): string
    requires Scanned(s, i, point)
  {
    if point.None? then s[..i] else s[..point.value] + s[point.value + 1..i]
  }

  lemma {:induction false} PointWhere(s: string, i: nat, point: Option<nat>)
    requires Scanned(s, i, point)
    ensures if point.Some? then PointAt(s) == point.value else PointAt(s) >= i
  {
    var upTo := if point.Some? then point.value else i;
    forall j | 0 <= j < upTo ensures s[j] != '.' { assert IsDigit(s[..upTo][j]); }
  }

  lemma {:induction false} ScannedIsPrefix(s: string, i: nat, point: Option<nat>)
    requires Scanned(s, i, point)
    ensures DigitsSoFar(s, i, point) <= RemovePoint(s)
  {
    PointWhere(s, i, point);
    var k := PointAt(s);
    if point.Some? {
      assert s[k + 1..i] <= s[k + 1..];
    } else {
      assert s[..i] <= s[..k];
    }
  }

  /** What the digits read so far already rule out. */
  lemma {:induction false} EarlyOverflow(s: string, i: nat, point: Option<nat>)
    requires Scanned(s, i, point) && WellFormed(s)
    ensures AllDigits(DigitsSoFar(s, i, point)) && ValueOf(DigitsSoFar(s, i, point)) <= Units(s)
  {
    ScannedIsPrefix(s, i, point);
    WellFormedDigits(s);
    var d, all := DigitsSoFar(s, i, point), RemovePoint(s);
    assert all == d + all[|d|..];
    LongerIsLarger(d, all[|d|..]);
    TimesAtLeast(ValueOf(all), Pow10(SCALE_DP - |Frac(s)|));
  }

  lemma {:induction false} OneMoreDigit(s: string, i: nat, point: Option<nat>)
    requires Scanned(s, i, point) && i < |s| && IsDigit(s[i])
    ensures Scanned(s, i + 1, point)
    ensures DigitsSoFar(s, i + 1, point) == DigitsSoFar(s, i, point) + [s[i]]
    ensures AllDigits(DigitsSoFar(s, i, point)) && AllDigits(DigitsSoFar(s, i + 1, point))
    ensures ValueOf(DigitsSoFar(s, i + 1, point)) == ValueOf(DigitsSoFar(s, i, point)) * 10 + DigitOf(s[i])
  {
    var d := DigitsSoFar(s, i, point);
    if point.None? {
      assert s[..i + 1] == s[..i] + [s[i]];
    } else {
      assert s[point.value + 1..i + 1] == s[point.value + 1..i] + [s[i]];
    }
    assert (d + [s[i]])[..|d|] == d;
  }

  /** A character that is neither a digit nor the first point leaves the grammar for good. */
  lemma {:induction false} BadCharacter(s: string, i: nat, point: Option<nat>)
    requires Scanned(s, i, point) && i < |s| && !IsDigit(s[i]) && (s[i] == '.' ==> point.Some? || i == 0)
    ensures !WellFormed(s)
  {
    PointWhere(s, i, point);
    var k := PointAt(s);
    if point.Some? {
      assert Frac(s)[i - k - 1] == s[i];
    } else if i < k {
      assert Whole(s)[i] == s[i];
    }
  }

  lemma {:induction false} TooLong(s: string, i: nat, point: Option<nat>)
    requires Scanned(s, i, point) && point.Some? && i - point.value - 1 > SCALE_DP
    ensures !WellFormed(s)
  {
    PointWhere(s, i, point);
  }

  /** Why a scan may stop: the text is outside the grammar, or its digits so far no longer fit. */
  ghost predicate Rejects(s: string, e: DecimalError) {
    e != Negative && (WellFormed(s) ==> e == Overflow && Units(s) > I64_MAX)
  }

  lemma {:induction false} RejectLong(s: string, i: nat, point: Option<nat>)
    requires Scanned(s, i, point) && point.Some? && i - point.value - 1 > SCALE_DP
    ensures Rejects(s, TooManyDecimals)
  {
    TooLong(s, i, point);
  }

  lemma {:induction false} RejectLarge(s: string, i: nat, point: Option<nat>)
    requires Scanned(s, i, point) && AllDigits(DigitsSoFar(s, i, point)) && ValueOf(DigitsSoFar(s, i, point)) > I64_MAX
    ensures Rejects(s, Overflow)
  {
    if WellFormed(s) { EarlyOverflow(s, i, point); }
  }

  lemma {:induction false} RejectCharacter(s: string, i: nat, point: Option<nat>, e: DecimalError)
    requires Scanned(s, i, point) && i < |s| && !IsDigit(s[i]) && (s[i] == '.' ==> point.Some? || i == 0)
    requires e != Negative
    ensures Rejects(s, e)
  {
    BadCharacter(s, i, point);
  }

  /**
   The text is in order up to `i` and its digits fit, and character `i` is the first that will not do: an exponent, a
   ninth decimal, a digit too many for the range, or something else.
   */
  ghost predicate StopsAt(s: string, i: nat, point: Option<nat>, e: DecimalError) {
    && i < |s| && Scanned(s, i, point) && AllDigits(DigitsSoFar(s, i, point))
    && ValueOf(DigitsSoFar(s, i, point)) <= 0x7FFF_FFFF_FFFF_FFFF && (point.Some? ==> i <= point.value + 9)
    && match e
       case Scientific => s[i] == 'e' || s[i] == 'E'
       case TooManyDecimals => IsDigit(s[i]) && point.Some? && i == point.value + 9
       case Overflow =>
         && IsDigit(s[i]) && (point.Some? ==> i < point.value + 9)
         && ValueOf(DigitsSoFar(s, i, point)) * 10 + DigitOf(s[i]) > 0x7FFF_FFFF_FFFF_FFFF
       case Malformed => !IsDigit(s[i]) && s[i] != 'e' && s[i] != 'E' && (s[i] == '.' ==> point.Some? || i == 0)
       case Negative => false
  }

  /** So each text has one reason, at one place. */
  lemma {:induction false} StopsOnce(s: string, i: nat, p: Option<nat>, e: DecimalError, j: nat, q: Option<nat>,
                                     f: DecimalError)
    requires StopsAt(s, i, p, e) && StopsAt(s, j, q, f)
    ensures i == j && e == f
  {
    PointWhere(s, i, p);
    PointWhere(s, j, q);
    if i < j { NotPast(s, i, p, e, j, q); }
    if j < i { NotPast(s, j, q, f, i, p); }
  }

  lemma {:induction false} WithinScanned(s: string, i: nat, p: Option<nat>, j: nat, q: Option<nat>)
    requires Scanned(s, i, p) && Scanned(s, j, q) && i < j
    ensures IsDigit(s[i]) || (p.None? && i > 0 && s[i] == '.')
    ensures p.Some? ==> q == p
  {
    PointWhere(s, i, p);
    PointWhere(s, j, q);
    if q.Some? {
      if i < q.value { assert IsDigit(s[..q.value][i]); }
      if i > q.value { assert IsDigit(s[q.value + 1..j][i - q.value - 1]); }
    } else {
      assert IsDigit(s[..j][i]);
    }
  }

  lemma {:induction false} NotPast(s: string, i: nat, p: Option<nat>, e: DecimalError, j: nat, q: Option<nat>)
    requires StopsAt(s, i, p, e) && i < j && Scanned(s, j, q) && AllDigits(DigitsSoFar(s, j, q))
    ensures ValueOf(DigitsSoFar(s, j, q)) > 0x7FFF_FFFF_FFFF_FFFF || (q.Some? && j > q.value + 9)
  {
    WithinScanned(s, i, p, j, q);
    if e == Overflow { StaysLarge(s, i, p, j, q); }
  }

  lemma {:induction false} StaysLarge(s: string, i: nat, p: Option<nat>, j: nat, q: Option<nat>)
    requires Scanned(s, i, p) && Scanned(s, j, q) && i < j && IsDigit(s[i])
    requires AllDigits(DigitsSoFar(s, i, p)) && AllDigits(DigitsSoFar(s, j, q))
    ensures ValueOf(DigitsSoFar(s, j, q)) >= ValueOf(DigitsSoFar(s, i, p)) * 10 + DigitOf(s[i])
  {
    OneMoreDigit(s, i, p);
    DigitsExtend(s, i + 1, p, j, q);
    LongerIsLarger(DigitsSoFar(s, i + 1, p), DigitsSoFar(s, j, q)[|DigitsSoFar(s, i + 1, p)|..]);
  }

  lemma {:induction false} DigitsExtend(s: string, i: nat, p: Option<nat>, j: nat, q: Option<nat>)
    requires Scanned(s, i, p) && Scanned(s, j, q) && i <= j
    ensures var d, all := DigitsSoFar(s, i, p), DigitsSoFar(s, j, q); |d| <= |all| && all == d + all[|d|..]
  {
    PointWhere(s, i, p);
    PointWhere(s, j, q);
    if p.Some? {
      assert s[p.value + 1..j] == s[p.value + 1..i] + s[i..j];
    } else if q.Some? {
      assert s[..q.value] == s[..i] + s[i..q.value];
    } else {
      assert s[..j] == s[..i] + s[i..j];
    }
  }

  ghost predicate Progress(s: string, i: nat, point: Option<nat>, units: nat, fracDigits: nat) {
    && Scanned(s, i, point)
    && AllDigits(DigitsSoFar(s, i, point)) && units == ValueOf(DigitsSoFar(s, i, point))
    && fracDigits == (if point.Some? then i - point.value - 1 else 0)
  }

  lemma {:induction false} ProgressDigit(s: string, i: nat, point: Option<nat>, units: nat, fracDigits: nat)
    requires Progress(s, i, point, units, fracDigits) && i < |s| && IsDigit(s[i])
    ensures Progress(s, i + 1, point, units * 10 + DigitOf(s[i]), if point.Some? then fracDigits + 1 else fracDigits)
  {
    OneMoreDigit(s, i, point);
  }

  lemma {:induction false} ProgressPoint(s: string, i: nat, units: nat)
    requires Progress(s, i, None, units, 0) && 0 < i < |s| && s[i] == '.'
    ensures Progress(s, i + 1, Some(i), units, 0)
  {
    assert s[..i] + s[i + 1..i + 1] == s[..i];
  }

  lemma {:induction false} StopLong(s: string, i: nat, point: Option<nat>, units: nat)
    requires Progress(s, i, point, units, SCALE_DP) && units <= I64_MAX && i < |s| && IsDigit(s[i])
    ensures Rejects(s, TooManyDecimals) && StopsAt(s, i, point, TooManyDecimals)
  {
    OneMoreDigit(s, i, point);
    RejectLong(s, i + 1, point);
  }

  lemma {:induction false} StopLarge(s: string, i: nat, point: Option<nat>, units: nat, fracDigits: nat)
    requires i < |s| && IsDigit(s[i]) && units <= I64_MAX && units * 10 + DigitOf(s[i]) > I64_MAX
    requires Progress(s, i, point, units, fracDigits) && if point.Some? then fracDigits < SCALE_DP else fracDigits == 0
    ensures Rejects(s, Overflow) && StopsAt(s, i, point, Overflow)
  {
    OneMoreDigit(s, i, point);
    RejectLarge(s, i + 1, point);
  }

  lemma {:induction false} StopCharacter(s: string, i: nat, point: Option<nat>, units: nat, fracDigits: nat,
                                         e: DecimalError)
    requires i < |s| && !IsDigit(s[i]) && (s[i] == '.' ==> point.Some? || i == 0) && units <= I64_MAX
    requires Progress(s, i, point, units, fracDigits) && fracDigits <= SCALE_DP
    requires e == if s[i] == 'e' || s[i] == 'E' then Scientific else Malformed
    ensures Rejects(s, e) && StopsAt(s, i, point, e)
  {
    RejectCharacter(s, i, point, e);
  }

  /** The byte loop. */
  method Scan(s: string) returns (error: Option<DecimalError>, units: nat, fracDigits: nat, seenPoint: bool,
                                  ghost point: Option<nat>, ghost at: nat)
    requires s != [] && s[0] != '-'
    ensures error.Some? ==> Rejects(s, error.value) && StopsAt(s, at, point, error.value)
    ensures error.None? ==>
              Progress(s, |s|, point, units, fracDigits) && seenPoint == point.Some? && fracDigits <= SCALE_DP
  {
    error, units, fracDigits, seenPoint, point, at := None, 0, 0, false, None, 0;
    for i := 0 to |s|
      invariant error.None? && seenPoint == point.Some? && fracDigits <= SCALE_DP && units <= I64_MAX
      invariant Progress(s, i, point, units, fracDigits)
    {
      var c := s[i];
      ghost var before := fracDigits;
      at := i;
      if IsDigit(c) {
        ProgressDigit(s, i, point, units, fracDigits);
        if seenPoint {
          fracDigits := fracDigits + 1;
          if fracDigits > SCALE_DP {
            StopLong(s, i, point, units);
            error := Some(TooManyDecimals);
            return;
          }
        }
        if units * 10 + DigitOf(c) > I64_MAX {
          StopLarge(s, i, point, units, before);
          error := Some(Overflow);
          return;
        }
        units := units * 10 + DigitOf(c);
      } else if c == '.' && !seenPoint && i > 0 {
        ProgressPoint(s, i, units);
        seenPoint, point := true, Some(i);
      } else {
        error := Some(if c == 'e' || c == 'E' then Scientific else Malformed);
        StopCharacter(s, i, point, units, fracDigits, error.value);
        return;
      }
    }
  }

  /**
   Succeeds exactly on the grammar with a value that fits, and then exactly: an intermediate overflow is never a
   false alarm. A well-formed text that does not fit is reported as overflow and nothing else.
   */
  method ParseFixed(s: string) returns (r: Parsed)
    ensures r.Ok? <==> WellFormed(s) && Units(s) <= I64_MAX
    ensures r.Ok? ==> r.units == Units(s)
    ensures WellFormed(s) && Units(s) > I64_MAX ==> r == Err(Overflow)
    ensures r == Err(Negative) <==> s != [] && s[0] == '-'
    ensures r.Err? && s != [] && s[0] != '-' && !WellFormed(s) ==>
              (r.error == Malformed && s[|s| - 1] == '.') || exists i, point :: StopsAt(s, i, point, r.error)
    ensures s == [] ==> r == Err(Malformed)
  {
    if s == [] {
      return Err(Malformed);
    }
    if s[0] == '-' {
      BadCharacter(s, 0, None);
      return Err(Negative);
    }
    var error, units, fracDigits, seenPoint;
    ghost var point;
    ghost var at;
    error, units, fracDigits, seenPoint, point, at := Scan(s);
    if error.Some? {
      return Err(error.value);
    }
    PointWhere(s, |s|, point);
    if seenPoint && fracDigits == 0 {
      return Err(Malformed);
    }
    Finished(s, point);
    var scaled := units * Pow10(SCALE_DP - fracDigits);
    if scaled > I64_MAX {
      return Err(Overflow);
    }
    r := Ok(scaled);
  }

  lemma {:induction false} Finished(s: string, point: Option<nat>)
    requires s != [] && Scanned(s, |s|, point)
    requires point.Some? ==> 0 < |s| - point.value - 1 <= SCALE_DP
    ensures WellFormed(s) && RemovePoint(s) == DigitsSoFar(s, |s|, point)
    ensures |Frac(s)| == if point.Some? then |s| - point.value - 1 else 0
  {
    PointWhere(s, |s|, point);
    assert s[..|s|] == s;
    if point.Some? {
      assert s[point.value + 1..|s|] == s[point.value + 1..];
    }
  }

  // ---- the other directions ----

  /** `format!("{}.{:08}", units / SCALE, units % SCALE)`. */
  function Print(units: nat): string {
    Pow10Is(8);
    ToString(units / SCALE) + "." + Pad(units % SCALE, 8)
  }

  lemma {:induction false} SplitAtPoint(whole: string, frac: string)
    requires AllDigits(whole)
    ensures Whole(whole + "." + frac) == whole && Frac(whole + "." + frac) == frac
  {
    var s := whole + "." + frac;
    assert forall i :: 0 <= i < |whole| ==> s[i] == whole[i];
    assert s[|whole|] == '.';
    assert PointAt(s) == |whole|;
    assert s[..|whole|] == whole && s[|whole| + 1..] == frac;
  }

  /** Printing then parsing is the identity. */
  lemma {:induction false} PrintParses(units: nat)
    ensures WellFormed(Print(units)) && Units(Print(units)) == units
  {
    Pow10Is(8);
    var w, f := ToString(units / SCALE), Pad(units % SCALE, 8);
    SplitAtPoint(w, f);
    ValueOfConcat(w, f);
    assert Pow10(0) == 1;
  }

  /** `int(whole or "0") * SCALE + int((frac + "0" * 8)[:8])`. */
  function FixedUnits(s: string): nat
    requires WellFormed(s)
  {
    var padded := Frac(s) + Zeros(SCALE_DP);
    assert padded[..SCALE_DP] == Frac(s) + Zeros(SCALE_DP)[..SCALE_DP - |Frac(s)|];
    ValueOf(Whole(s)) * SCALE + ValueOf(padded[..SCALE_DP])
  }

  lemma {:induction false} ZerosPrefix(n: nat, k: nat)
    requires k <= n
    ensures Zeros(n)[..k] == Zeros(k)
  {
    if k > 0 { ZerosPrefix(n - 1, k - 1); }
  }

  /** The lake's parser and the capture's agree on every text the capture accepts. */
  lemma {:induction false} FixedAgrees(s: string)
    requires WellFormed(s)
    ensures FixedUnits(s) == Units(s)
  {
    var w, f := Whole(s), Frac(s);
    var k := SCALE_DP - |f|;
    ZerosPrefix(SCALE_DP, k);
    assert (f + Zeros(SCALE_DP))[..SCALE_DP] == f + Zeros(k);
    ValueOfPadded(f, k);
    ValueOfConcat(w, f);
    Pow10Add(|f|, k);
    Pow10Is(8);
    Shifted(ValueOf(w), ValueOf(f), Pow10(|f|), Pow10(k));
  }

  lemma {:induction false} Shifted(w: nat, f: nat, a: nat, b: nat)
    ensures (w * a + f) * b == w * (a * b) + f * b
  {}

  // ---- checksum_digits ----

  function Quotient(n: nat, d: nat): (q: nat)
    requires d > 0
    ensures q * d <= n < q * d + d
  {
    n / d
  }

  function ChecksumDigits(units: nat, precision: nat): string
    requires precision <= SCALE_DP
  {
    ToString(Quotient(units, Pow10(SCALE_DP - precision)))
  }

  function StripZeros(s: string): string {
    if s != [] && s[0] == '0' then StripZeros(s[1..]) else s
  }

  lemma {:induction false} StripKeepsValue(s: string)
    requires AllDigits(s)
    ensures AllDigits(StripZeros(s)) && ValueOf(StripZeros(s)) == ValueOf(s)
    ensures StripZeros(s) != [] ==> StripZeros(s)[0] != '0'
  {
    if s != [] && s[0] == '0' {
      StripKeepsValue(s[1..]);
      assert s == ['0'] + s[1..];
      ValueOfConcat(['0'], s[1..]);
      assert ValueOf(['0']) == 0;
    }
  }

  /**
   Kraken's rule, "print at the pair's precision, drop the point, strip leading zeros", against one integer
   division: for any text of the value, the two give the same digits exactly when the value is not zero.
   */
  lemma {:induction false} DigitsAreThePrint(s: string)
    requires WellFormed(s)
    ensures StripZeros(RemovePoint(s)) == ChecksumDigits(Units(s), |Frac(s)|) <==> Units(s) > 0
  {
    WellFormedDigits(s);
    var d, f := RemovePoint(s), |Frac(s)|;
    var v, p := ValueOf(d), Pow10(SCALE_DP - f);
    StripKeepsValue(d);
    ChecksumOf(v, f, p);
    PrintsAsStripped(StripZeros(d), v);
  }

  /** Scaling a number up and dividing by the scale again prints the number. */
  lemma {:induction false} ChecksumOf(v: nat, precision: nat, p: nat)
    requires precision <= SCALE_DP && p == Pow10(SCALE_DP - precision)
    ensures ChecksumDigits(v * p, precision) == ToString(v) && (v * p > 0 <==> v > 0)
  {
    DivideBack(v, p, Quotient(v * p, p));
  }

  /** A number prints as its digits without leading zeros exactly when it is not zero. */
  lemma {:induction false} PrintsAsStripped(stripped: string, v: nat)
    requires AllDigits(stripped) && ValueOf(stripped) == v && (stripped != [] ==> stripped[0] != '0')
    ensures stripped == ToString(v) <==> v > 0
  {
    if stripped != [] { ToStringOfValue(stripped); }
  }

  lemma {:induction false} DivideBack(v: nat, p: nat, q: nat)
    requires p > 0 && q * p <= v * p < q * p + p
    ensures q == v && (v * p > 0 <==> v > 0)
  {
    if q < v {
      Distribute(q, v - q, p);
      TimesAtLeast(p, v - q);
    } else if v < q {
      Distribute(v, q - v, p);
      TimesAtLeast(p, q - v);
    }
  }

  lemma {:induction false} Distribute(a: nat, b: nat, p: nat)
    ensures (a + b) * p == a * p + b * p
    ensures b * p == p * b
  {}
}
