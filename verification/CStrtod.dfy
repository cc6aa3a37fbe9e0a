/**
 `c_strtod_prefix` as the loops riperf3 runs, against the tree the grammar assigns to the longest
 number prefix: same end index, same exact value.
*/
module CStrtod {
  import opened CNumberGrammar
  import opened CNumberMunch
  import opened CNumberScanner
  import opened Decimal
  import opened FloatParser
  import opened Wrappers

  /** What the scanner returns: the value of the longest number prefix and the index just past it. */
  function Strtod(s: string): (r: Option<(Double, nat)>)
    ensures r.Some? ==> r.value.1 <= |s|
  {
    if Scan(s).None? then None
    else
      ScanSound(s);
      Some((Meaning(Scan(s).value), |Text(Scan(s).value)|))
  }

  /** Strtod is the longest prefix of the grammar and that prefix's one value; None when there is none. */
  lemma StrtodIsLongestNumber(s: string, n: Number)
    requires NumberOk(n) && Text(n) <= s
    ensures Strtod(s).Some? && |Text(n)| <= Strtod(s).value.1
    ensures |Text(n)| == Strtod(s).value.1 ==> Strtod(s).value.0 == Meaning(n)
  {
    Munch(s, n);
  }

  /** A complete number is read whole, with its own value. */
  lemma StrtodOfNumber(n: Number)
    requires NumberOk(n)
    ensures Strtod(Text(n)) == Some((Meaning(n), |Text(n)|))
  {
    Munch(Text(n), n);
    ScanSound(Text(n));
  }

  // ---- The library calls the scanner makes ----

  /** `f64::powi`. */
  function Powi(base: real, e: int): real
    requires base > 0.0
  {
    if e < 0 then 1.0 / Pow(base, -e) else Pow(base, e)
  }

  /** `i32::saturating_mul(10).saturating_add(d)` on a non-negative accumulator. */
  function SaturatingStep(e: nat, d: nat): nat
    requires e <= I32_MAX && d < 10
  {
    var tens := if 10 * e > I32_MAX then I32_MAX else 10 * e;
    if tens + d > I32_MAX then I32_MAX else tens + d
  }

  /** Saturating at every step is saturating once at the end. */
  lemma SaturatingStepIsSaturated(n: nat, d: nat)
    requires d < 10
    ensures SaturatingStep(Saturated(n), d) == Saturated(10 * n + d)
  {
  }

  // ---- Values by position ----

  function DigitAt(c: char): (d: nat)
    ensures d < 16 && (IsDigit(c) ==> d < 10)
  {
    if In(c, HexDigit) then HexDigitValue(c) else 0
  }

  /** The value of the digits between two positions. */
  function Value(r: string, i: nat, j: nat, base: nat): nat
    requires i <= j <= |r|
  {
    if i == j then 0 else base * Value(r, i, j - 1, base) + DigitAt(r[j - 1])
  }

  lemma {:induction false} ValueIsNat(r: string, i: nat, j: nat)
    requires i <= j <= |r| && AllDigits(r[i..j])
    ensures Value(r, i, j, 10) == NatValue(r[i..j])
    decreases j
  {
    if i < j {
      var t := r[i..j];
      assert t[..j - 1 - i] == r[i..j - 1];
      assert IsDigit(t[j - 1 - i]) && t[j - 1 - i] == r[j - 1];
      ValueIsNat(r, i, j - 1);
    }
  }

  lemma {:induction false} ValueIsHex(r: string, i: nat, j: nat)
    requires i <= j <= |r| && AllIn(r[i..j], HexDigit)
    ensures Value(r, i, j, 16) == HexValue(r[i..j])
    decreases j
  {
    if i < j {
      var t := r[i..j];
      assert t[..j - 1 - i] == r[i..j - 1];
      assert In(t[j - 1 - i], HexDigit) && t[j - 1 - i] == r[j - 1];
      ValueIsHex(r, i, j - 1);
    }
  }

  /** The value of the hex fraction digits between two positions. */
  function FracValue(r: string, i: nat, j: nat): real
    requires i <= j <= |r|
  {
    Value(r, i, j, 16) as real / Pow(16.0, j - i)
  }

  /** The weight of the n-th hex fraction digit. */
  function Weight(n: nat): real {
    1.0 / Pow(16.0, n)
  }

  lemma WeightStep(n: nat)
    ensures Weight(n + 1) == Weight(n) / 16.0
    ensures Weight(1) == 1.0 / 16.0
  {
    assert Pow(16.0, 1) == 16.0 * Pow(16.0, 0);
  }

  /** Adding the next fraction digit at its weight. */
  lemma FracStep(r: string, i: nat, j: nat)
    requires i <= j < |r|
    ensures FracValue(r, i, j + 1) == FracValue(r, i, j) + DigitAt(r[j]) as real * Weight(j - i + 1)
  {
    hide DigitAt;
    ShiftFraction(Value(r, i, j, 16) as real, DigitAt(r[j]) as real, Pow(16.0, j - i));
    assert Value(r, i, j + 1, 16) == 16 * Value(r, i, j, 16) + DigitAt(r[j]);
    assert Pow(16.0, j - i + 1) == 16.0 * Pow(16.0, j - i);
  }

  lemma ShiftFraction(v: real, d: real, p: real)
    requires p > 0.0
    ensures (16.0 * v + d) / (16.0 * p) == v / p + d * (1.0 / (16.0 * p))
  {
    assert (16.0 * v) / (16.0 * p) == v / p;
  }

  /** The magnitude of a hex number in terms of where its parts end. */
  function HexMagnitude(r: string): real
    requires |r| >= 2
  {
    var w, m := RunEnd(r, 2, HexDigit), HexMantissaEnd(r);
    var end := ExponentEnd(r, m, 'p');
    var mant := if m > w then Value(r, 2, w, 16) as real + FracValue(r, w + 1, m) else Value(r, 2, w, 16) as real;
    if end == m then mant
    else Scaled(mant, 2.0, SignAt(r, m + 1), Saturated(Value(r, DigitsStart(r, m), end, 10)))
  }

  lemma HexMantissaMeaning(r: string)
    requires StartsHex(r) && HexMantissaEnd(r) > 2
    ensures BodyOk(ScanHex(r))
    ensures var w, m := RunEnd(r, 2, HexDigit), HexMantissaEnd(r);
            HexValue(ScanHex(r).whole) as real + HexFrac(ScanHex(r).frac)
            == if m > w then Value(r, 2, w, 16) as real + FracValue(r, w + 1, m) else Value(r, 2, w, 16) as real
  {
    hide BodyText, ScanExponent, ExponentOk, In;
    ScanHexSound(r);
    var w, m := RunEnd(r, 2, HexDigit), HexMantissaEnd(r);
    ValueIsHex(r, 2, w);
    if m > w {
      ValueIsHex(r, w + 1, m);
    }
  }

  lemma HexExponentMeaning(r: string)
    requires StartsHex(r) && HexMantissaEnd(r) > 2
    ensures BodyOk(ScanHex(r))
    ensures var e, m := ScanHex(r).exp, HexMantissaEnd(r);
            && (e.NoExponent? <==> ExponentEnd(r, m, 'p') == m)
            && (e.Exponent? ==>
                  && e.sign == SignAt(r, m + 1)
                  && NatValue(e.digits) == Value(r, DigitsStart(r, m), ExponentEnd(r, m, 'p'), 10))
  {
    ScanHexSound(r);
    if ScanHex(r).exp.Exponent? {
      ValueIsNat(r, DigitsStart(r, HexMantissaEnd(r)), ExponentEnd(r, HexMantissaEnd(r), 'p'));
    }
  }

  lemma HexMeaning(r: string)
    requires StartsHex(r)
    ensures BodyOk(ScanHex(r)) && !ScanHex(r).Word?
    ensures Magnitude(ScanHex(r)) == if HexMantissaEnd(r) == 2 then 0.0 else HexMagnitude(r)
  {
    if HexMantissaEnd(r) == 2 {
      NatTextRoundTrip(0);
    } else {
      HexMantissaMeaning(r);
      HexExponentMeaning(r);
    }
  }

  // ---- The loops ----

  /** The white-space and digit loops: `i` moves past the run. */
  method SkipRun(s: string, start: nat, k: Class) returns (i: nat)
    requires start <= |s|
    ensures i == RunEnd(s, start, k)
  {
    i := start;
    while i < |s| && In(s[i], k)
      invariant start <= i <= |s| && RunEnd(s, i, k) == RunEnd(s, start, k)
    {
      i := i + 1;
    }
  }

  method HexWhole(r: string) returns (mant: real, j: nat)
    requires |r| >= 2
    ensures j == RunEnd(r, 2, HexDigit) && mant == Value(r, 2, j, 16) as real
  {
    j, mant := 2, 0.0;
    while j < |r| && In(r[j], HexDigit)
      invariant 2 <= j <= |r| && RunEnd(r, j, HexDigit) == RunEnd(r, 2, HexDigit)
      invariant mant == Value(r, 2, j, 16) as real
    {
      mant := mant * 16.0 + DigitAt(r[j]) as real;
      j := j + 1;
    }
  }

  method HexFraction(r: string, start: nat, whole: real) returns (mant: real, k: nat)
    requires start <= |r|
    ensures k == RunEnd(r, start, HexDigit) && mant == whole + FracValue(r, start, k)
  {
    mant, k := whole, start;
    var scale := 1.0 / 16.0;
    WeightStep(0);
    while k < |r| && In(r[k], HexDigit)
      invariant start <= k <= |r| && RunEnd(r, k, HexDigit) == RunEnd(r, start, HexDigit)
      invariant scale == Weight(k - start + 1) && mant == whole + FracValue(r, start, k)
    {
      FracStep(r, start, k);
      WeightStep(k - start + 1);
      mant := mant + DigitAt(r[k]) as real * scale;
      scale := scale / 16.0;
      k := k + 1;
    }
  }

  method SaturatingDigits(r: string, start: nat) returns (e: nat, k: nat)
    requires start <= |r|
    ensures k == RunEnd(r, start, Digit) && e == Saturated(Value(r, start, k, 10))
  {
    e, k := 0, start;
    while k < |r| && In(r[k], Digit)
      invariant start <= k <= |r| && RunEnd(r, k, Digit) == RunEnd(r, start, Digit)
      invariant e == Saturated(Value(r, start, k, 10))
    {
      SaturatingStepIsSaturated(Value(r, start, k, 10), DigitAt(r[k]));
      e := SaturatingStep(e, DigitAt(r[k]));
      k := k + 1;
    }
  }

  /** A binary exponent counts in full up to 2147483647 and stops there. */
  lemma HexExponentSaturates(x: char, whole: string, frac: Option<string>, exp: Exponent)
    requires BodyOk(Hex(x, whole, frac, exp)) && exp.Exponent?
    ensures AllDigits(exp.digits) && BodyOk(Hex(x, whole, frac, NoExponent))
    ensures var n := NatValue(exp.digits);
            var power := Pow(2.0, if n <= 2_147_483_647 then n else 2_147_483_647);
            var plain := Magnitude(Hex(x, whole, frac, NoExponent));
            Magnitude(Hex(x, whole, frac, exp)) == if exp.sign == Minus then plain / power else plain * power
  {
    hide NatValue, Pow, HexValue, HexFrac;
  }

  /** Multiplying by 2^-e is dividing by 2^e. */
  lemma PowiIsScaled(v: real, sign: Sign, e: int)
    requires e >= 0
    ensures v * Powi(2.0, if sign == Minus then -e else e) == Scaled(v, 2.0, sign, e)
  {
  }

  /** The p exponent at `m`: nothing without a digit, else a power of two to multiply by. */
  method HexExponent(r: string, m: nat, mant: real) returns (v: real, j: nat)
    requires m <= |r|
    ensures j == ExponentEnd(r, m, 'p')
    ensures v == if j == m then mant
                 else Scaled(mant, 2.0, SignAt(r, m + 1), Saturated(Value(r, DigitsStart(r, m), j, 10)))
  {
    hide Scaled, Value, Saturated, Powi, Lower, RunEnd;
    v, j := mant, m;
    if j < |r| && Lower(r[j]) == 'p' {
      var eneg := At(r, j + 1, '-');
      var estart := if eneg || At(r, j + 1, '+') then j + 2 else j + 1;
      var e, k := SaturatingDigits(r, estart);
      if k > estart {
        var power: int := e;
        PowiIsScaled(mant, SignAt(r, m + 1), power);
        v := mant * Powi(2.0, if eneg then -power else power);
        j := k;
      }
    }
  }

  /** The hex branch: a fraction or an exponent counts only if it has a digit. */
  method HexNumber(r: string, neg: bool) returns (v: real, j: nat)
    requires StartsHex(r)
    ensures j == if HexMantissaEnd(r) == 2 then 1 else ExponentEnd(r, HexMantissaEnd(r), 'p')
    ensures v == Signed(neg, if HexMantissaEnd(r) == 2 then 0.0 else HexMagnitude(r))
  {
    var mant;
    mant, j := HexWhole(r);
    if j < |r| && r[j] == '.' {
      var m, k := HexFraction(r, j + 1, mant);
      if k > j + 1 {
        mant, j := m, k;
      }
    }
    if j == 2 {
      return 0.0, 1;
    }
    v, j := HexExponent(r, j, mant);
    v := if neg then -v else v;
  }

  lemma ScanDecSome(r: string)
    ensures ScanDec(r).Some? <==> RunEnd(r, 0, Digit) > 0 || DecMantissaEnd(r) > 1
  {
  }

  /** The decimal branch finds the end of the text; its exponent too is kept only if it has a digit. */
  method DecimalEnd(r: string) returns (j: nat, any: bool)
    ensures any <==> ScanDec(r).Some?
    ensures any ==> j == ExponentEnd(r, DecMantissaEnd(r), 'e')
  {
    ScanDecSome(r);
    hide ScanDec, In, Lower, RunEnd;
    j := SkipRun(r, 0, Digit);
    any := j > 0;
    if j < |r| && r[j] == '.' {
      var w := j;
      j := SkipRun(r, w + 1, Digit);
      any := any || j > w + 1;
    }
    if !any {
      return;
    }
    var mantEnd := j;
    if j < |r| && Lower(r[j]) == 'e' {
      var estart := if At(r, j + 1, '+') || At(r, j + 1, '-') then j + 2 else j + 1;
      var k := SkipRun(r, estart, Digit);
      j := if k > estart then k else mantEnd;
    }
  }

  // ---- Strtod, case by case ----

  lemma ScanParts(s: string)
    requires ScanBody(s[BodyStart(s)..]).Some?
    ensures var b := ScanBody(s[BodyStart(s)..]).value;
            && BodyOk(b)
            && Scan(s) == Some(Number(s[..SignStart(s)], SignAt(s, SignStart(s)), b))
            && Strtod(s).Some?
            && Strtod(s).value.1 == BodyStart(s) + |BodyText(b)|
            && Strtod(s).value.0 == Meaning(Number([], SignAt(s, SignStart(s)), b))
  {
    ScanSound(s);
  }

  lemma NoneCase(s: string)
    requires ScanBody(s[BodyStart(s)..]).None?
    ensures Strtod(s).None?
  {
  }

  lemma WordIsNotNan(t: string)
    requires SameWord(t, "inf") || SameWord(t, "infinity")
    ensures !SameWord(t, "nan")
  {
    assert Lower(t[0]) == 'i';
  }

  lemma InfinityCase(s: string)
    requires StartsWithWord(s[BodyStart(s)..], "infinity")
    ensures Strtod(s) == Some((Infinite(At(s, SignStart(s), '-')), BodyStart(s) + 8))
  {
    ScanParts(s);
    WordIsNotNan(s[BodyStart(s)..][..8]);
  }

  lemma InfCase(s: string)
    requires !StartsWithWord(s[BodyStart(s)..], "infinity") && StartsWithWord(s[BodyStart(s)..], "inf")
    ensures Strtod(s) == Some((Infinite(At(s, SignStart(s), '-')), BodyStart(s) + 3))
  {
    ScanParts(s);
    WordIsNotNan(s[BodyStart(s)..][..3]);
  }

  lemma NanCase(s: string)
    requires !StartsWithWord(s[BodyStart(s)..], "infinity") && !StartsWithWord(s[BodyStart(s)..], "inf")
    requires StartsWithWord(s[BodyStart(s)..], "nan")
    ensures Strtod(s) == Some((NaN, BodyStart(s) + 3))
  {
    ScanParts(s);
  }

  /** A scanned body that is a number gives its signed magnitude and ends where its text does. */
  lemma NumberCase(s: string, r: string, b: Body, v: real, len: nat)
    requires r == s[BodyStart(s)..] && ScanBody(r) == Some(b)
    requires BodyOk(b) && !b.Word? && Magnitude(b) == v && |BodyText(b)| == len
    ensures Strtod(s) == Some((Finite(Signed(At(s, SignStart(s), '-'), v)), BodyStart(s) + len))
  {
    hide Scan, ScanBody, BodyText, BodyStart, Magnitude, BodyOk, SignAt, Strtod;
    ScanParts(s);
    SignAtMinus(s, SignStart(s));
  }

  lemma SignAtMinus(s: string, i: nat)
    ensures SignAt(s, i) == Minus <==> At(s, i, '-')
  {
  }

  lemma HexCase(r: string)
    requires StartsHex(r)
    ensures var m := HexMantissaEnd(r);
            && BodyOk(ScanHex(r)) && !ScanHex(r).Word?
            && Magnitude(ScanHex(r)) == (if m == 2 then 0.0 else HexMagnitude(r))
            && |BodyText(ScanHex(r))| == if m == 2 then 1 else ExponentEnd(r, m, 'p')
  {
    HexMeaning(r);
    ScanHexSound(r);
  }

  lemma ScanText(s: string)
    requires Scan(s).Some?
    ensures var n := Scan(s).value;
            var end := BodyStart(s) + |BodyText(n.body)|;
            SignStart(s) <= end <= |s| && s[SignStart(s)..end] == Text(n.(space := []))
  {
    ScanSound(s);
    var n := Scan(s).value;
    var end := |Text(n)|;
    assert Text(n)[SignStart(s)..] == SignText(n.sign) + BodyText(n.body);
    assert s[..end][SignStart(s)..] == s[SignStart(s)..end];
  }

  ghost predicate Parses(s: string, i: nat, end: nat, v: Double) {
    i <= end <= |s| && ParseF64(s[i..end]) == Some(v)
  }

  /** The text handed to Rust's float parser is always one it accepts, and means the scanned number. */
  lemma DecCase(s: string, r: string, b: Body, len: nat) returns (v: Double)
    requires r == s[BodyStart(s)..] && ScanBody(r) == Some(b)
    requires BodyOk(b) && b.Dec? && |BodyText(b)| == len
    ensures Parses(s, SignStart(s), BodyStart(s) + len, v)
    ensures Strtod(s) == Some((v, BodyStart(s) + len))
  {
    hide ScanBody, BodyOk, BodyText, Meaning, Strtod, Scan, BodyStart, SignStart, Text, ParseF64;
    ScanParts(s);
    ScanText(s);
    var bare := Number([], SignAt(s, SignStart(s)), b);
    assert Scan(s).value.(space := []) == bare;
    BareOk(bare);
    ParseF64OfNumber(bare);
    v := Meaning(bare);
  }

  lemma BareOk(n: Number)
    requires n.space == [] && BodyOk(n.body)
    ensures NumberOk(n)
  {
  }

  lemma DecLength(r: string)
    requires ScanDec(r).Some?
    ensures BodyOk(ScanDec(r).value) && ScanDec(r).value.Dec?
    ensures |BodyText(ScanDec(r).value)| == ExponentEnd(r, DecMantissaEnd(r), 'e')
  {
    ScanDecSound(r);
  }

  /** The scanner: the loops end at the longest number prefix and compute its value. */
  method CStrtodPrefix(s: string) returns (r: Option<(Double, nat)>)
    ensures r == Strtod(s)
  {
    var i := SkipRun(s, 0, Space);
    var signStart := i;
    var neg := false;
    if i < |s| && s[i] == '-' {
      i, neg := i + 1, true;
    } else if i < |s| && s[i] == '+' {
      i := i + 1;
    }
    assert i == BodyStart(s) && neg == At(s, SignStart(s), '-');
    r := BodyPrefix(s, signStart, i, neg);
  }

  /** The branches after the sign. */
  method BodyPrefix(s: string, signStart: nat, i: nat, neg: bool) returns (r: Option<(Double, nat)>)
    requires signStart == SignStart(s) && i == BodyStart(s) && neg == At(s, SignStart(s), '-')
    ensures r == Strtod(s)
  {
    var rest := s[i..];
    if StartsWithWord(rest, "infinity") {
      InfinityCase(s);
      return Some((Infinite(neg), i + 8));
    }
    if StartsWithWord(rest, "inf") {
      InfCase(s);
      return Some((Infinite(neg), i + 3));
    }
    if StartsWithWord(rest, "nan") {
      NanCase(s);
      return Some((NaN, i + 3));
    }
    r := NumberPrefix(s, rest, signStart, i, neg);
  }

  method NumberPrefix(s: string, rest: string, signStart: nat, i: nat, neg: bool) returns (r: Option<(Double, nat)>)
    requires signStart == SignStart(s) && i == BodyStart(s) && neg == At(s, SignStart(s), '-') && rest == s[i..]
    requires ScanBody(rest) == if StartsHex(rest) then Some(ScanHex(rest)) else ScanDec(rest)
    ensures r == Strtod(s)
  {
    hide Strtod, ScanHex, ScanDec, HexMagnitude, Magnitude, BodyText, BodyOk, ParseF64;
    hide ExponentEnd, HexMantissaEnd, DecMantissaEnd;
    if StartsHex(rest) {
      var v, j := HexNumber(rest, neg);
      HexCase(rest);
      NumberCase(s, rest, ScanHex(rest), Magnitude(ScanHex(rest)), j);
      return Some((Finite(v), i + j));
    }
    var j, any := DecimalEnd(rest);
    if !any {
      NoneCase(s);
      return None;
    }
    DecLength(rest);
    ghost var value := DecCase(s, rest, ScanDec(rest).value, j);
    var parsed := ParseF64(s[signStart..i + j]);
    r := Some((parsed.value, i + j));
  }
}
