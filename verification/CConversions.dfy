/**
 The C integer conversions riperf3 reproduces: `atoi` with its saturate-then-truncate overflow, and
 the double -> uint64 -> int chain behind the unit options.
*/
module CConversions {
  import opened CNumberGrammar
  import opened CNumberScanner
  import opened CStrtod
  import opened CUnitSuffix
  import opened Decimal
  import opened Wrappers

  const TWO31: int := 0x8000_0000
  const TWO32: int := 0x1_0000_0000
  const TWO63: int := 0x8000_0000_0000_0000
  const TWO64: int := 0x1_0000_0000_0000_0000

  /** The low 32 bits read as a signed integer. */
  function Wrap32(n: int): int {
    if n % TWO32 >= TWO31 then n % TWO32 - TWO32 else n % TWO32
  }

  /** Wrap32 is the one 32-bit integer congruent to its argument. */
  lemma Wrap32IsCongruent(n: int, m: int)
    ensures -2_147_483_648 <= m <= 2_147_483_647 && (n - m) % 4_294_967_296 == 0 <==> m == Wrap32(n)
  {
  }

  // ---- atoi ----

  function Clamp64(n: int): int {
    if n < I64_MIN then I64_MIN else if n > I64_MAX then I64_MAX else n
  }

  /** The end of the digit run after the sign. */
  function AtoiDigits(s: string): (digits: string)
    ensures AllDigits(digits)
  {
    RunIsMaximal(s, BodyStart(s), Digit);
    s[BodyStart(s)..RunEnd(s, BodyStart(s), Digit)]
  }

  /** White space, one sign, digits; the signed value clamped to a long and truncated to an int. */
  function Atoi(s: string): int {
    var v: int := NatValue(AtoiDigits(s));
    Wrap32(Clamp64(if At(s, SignStart(s), '-') then -v else v))
  }

  /** Parsing with a saturating fallback is clamping, in the direction of the sign. */
  lemma ParseClamps(digits: string)
    requires AllDigits(digits) && digits != []
    ensures var v: int := NatValue(digits);
            && Clamp64(v) == (if ParseI64(digits).Some? then ParseI64(digits).value else I64_MAX)
            && Clamp64(-v) == (if ParseI64("-" + digits).Some? then ParseI64("-" + digits).value else I64_MIN)
  {
    assert IsDigit(digits[0]);
    assert ("-" + digits)[1..] == digits;
  }

  /** `take_while` over the digits. */
  method LeadingDigits(rest: string) returns (end: nat)
    ensures end == RunEnd(rest, 0, Digit)
  {
    end := 0;
    while end < |rest| && IsDigit(rest[end])
      invariant end <= |rest| && RunEnd(rest, end, Digit) == RunEnd(rest, 0, Digit)
    {
      end := end + 1;
    }
  }

  /** Dropping the first characters shifts where a run ends. */
  lemma {:induction false} RunEndShift(s: string, b: nat, i: nat, k: Class)
    requires b + i <= |s|
    ensures RunEnd(s[b..], i, k) == RunEnd(s, b + i, k) - b
    decreases |s| - i
  {
    if b + i < |s| && In(s[b + i], k) {
      RunEndShift(s, b, i + 1, k);
    }
  }

  /** The loop that re-slices its input past the white space. */
  method DropSpace(s: string) returns (t: string)
    ensures t == s[SignStart(s)..]
  {
    t := s;
    while t != [] && In(t[0], Space)
      invariant |t| <= |s| && t == s[|s| - |t|..]
      invariant RunEnd(s, |s| - |t|, Space) == RunEnd(s, 0, Space)
      decreases |t|
    {
      t := t[1..];
    }
  }

  lemma AtoiOfNothing(s: string)
    requires AtoiDigits(s) == ""
    ensures Atoi(s) == 0
  {
  }

  lemma DigitsAfterSign(s: string, rest: string)
    requires rest == s[BodyStart(s)..]
    ensures rest[..RunEnd(rest, 0, Digit)] == AtoiDigits(s)
  {
    RunEndShift(s, BodyStart(s), 0, Digit);
    SuffixSlice(s, BodyStart(s), RunEnd(rest, 0, Digit));
  }

  method AtoiLikeBytes(s: string) returns (r: int)
    ensures r == Atoi(s)
  {
    hide Clamp64, ParseI64, Wrap32, AtoiDigits, RunEnd, In, AllDigits;
    var t := DropSpace(s);
    var neg := t != [] && t[0] == '-';
    var rest := if neg || (t != [] && t[0] == '+') then t[1..] else t;
    assert neg == At(s, SignStart(s), '-') && rest == s[BodyStart(s)..];
    var end := LeadingDigits(rest);
    var digits := rest[..end];
    DigitsAfterSign(s, rest);
    if digits == [] {
      AtoiOfNothing(s);
      return 0;
    }
    ParseClamps(digits);
    var long;
    if neg {
      var p := ParseI64("-" + digits);
      long := if p.Some? then p.value else I64_MIN;
    } else {
      var p := ParseI64(digits);
      long := if p.Some? then p.value else I64_MAX;
    }
    r := Wrap32(long);
  }

  lemma {:induction false} RunEndOf(s: string, i: nat, j: nat, k: Class)
    requires i <= j <= |s| && AllIn(s[i..j], k) && (j < |s| ==> !In(s[j], k))
    ensures RunEnd(s, i, k) == j
    decreases j - i
  {
    if i < j {
      assert s[i..j][0] == s[i] && s[i..j][1..] == s[i + 1..j];
      RunEndOf(s, i + 1, j, k);
    }
  }

  /** Where the parts of a spaced, signed digit string followed by a non-digit end. */
  lemma AtoiParts(space: string, sign: string, digits: string, junk: string)
    requires AllIn(space, Space) && (sign == "" || sign == "-" || sign == "+") && digits != [] && AllDigits(digits)
    requires junk != [] ==> !IsDigit(junk[0])
    ensures var s := space + (sign + (digits + junk));
            AtoiDigits(s) == digits && (At(s, SignStart(s), '-') <==> sign == "-")
  {
    hide NatValue;
    var rest := digits + junk;
    var s := space + (sign + rest);
    var i := |space|;
    assert (sign + rest)[0] == if sign == "" then digits[0] else sign[0];
    SpaceThenRest(space, sign + rest);
    assert s[i] == (sign + rest)[0];
    assert s[i..] == sign + rest;
    assert s[BodyStart(s)..] == rest;
    DigitsThenJunk(digits, junk);
    DigitsAfterSign(s, rest);
    assert rest[..|digits|] == digits;
  }

  lemma SpaceThenRest(space: string, rest: string)
    requires AllIn(space, Space) && rest != [] && !In(rest[0], Space)
    ensures SignStart(space + rest) == |space|
  {
    var s := space + rest;
    assert s[0..|space|] == space;
    assert s[|space|] == rest[0];
    RunEndOf(s, 0, |space|, Space);
  }

  lemma DigitsThenJunk(digits: string, junk: string)
    requires AllDigits(digits) && (junk != [] ==> !IsDigit(junk[0]))
    ensures RunEnd(digits + junk, 0, Digit) == |digits|
  {
    var s := digits + junk;
    assert s[0..|digits|] == digits;
    assert |digits| < |s| ==> s[|digits|] == junk[0];
    RunEndOf(s, 0, |digits|, Digit);
  }

  lemma IntTextParts(n: int, junk: string)
    ensures var m := if n < 0 then -n else n;
            IntText(n) + junk == (if n < 0 then "-" else "") + (NatText(m) + junk)
  {
    hide NatText;
  }

  /** Any spaces before a 64-bit integer's text and any non-digit junk after it leave its value. */
  lemma AtoiOfText(space: string, n: int, junk: string)
    requires AllIn(space, Space) && IsI64(n) && (junk != [] ==> !IsDigit(junk[0]))
    ensures Atoi(space + (IntText(n) + junk)) == Wrap32(n)
  {
    hide AtoiDigits, RunEnd, At, SignStart, Wrap32, In, IntText, NatText, NatValue, AllDigits, AllIn, IsDigit;
    var m := if n < 0 then -n else n;
    NatTextRoundTrip(m);
    IntTextParts(n, junk);
    AtoiParts(space, if n < 0 then "-" else "", NatText(m), junk);
  }

  /**
   Any digit run, with either sign or none: its value truncated to an int, except that a long saturates
   first, so that every run above its range gives -1 and every one below it 0.
  */
  lemma AtoiOfDigits(space: string, sign: string, digits: string, junk: string)
    requires AllIn(space, Space) && (sign == "" || sign == "+" || sign == "-") && digits != [] && AllDigits(digits)
    requires junk != [] ==> !IsDigit(junk[0])
    ensures var v: int := NatValue(digits);
            var r := Atoi(space + (sign + (digits + junk)));
            && (sign == "-" ==> r == if v > 9_223_372_036_854_775_808 then 0 else Wrap32(-v))
            && (sign != "-" ==> r == if v > 9_223_372_036_854_775_807 then -1 else Wrap32(v))
  {
    hide AtoiDigits, RunEnd, At, SignStart, In, NatValue, AllDigits, AllIn, IsDigit;
    AtoiParts(space, sign, digits, junk);
  }

  /** Without a digit after the spaces and the sign there is only 0. */
  lemma AtoiWithoutDigits(space: string, sign: string, junk: string)
    requires AllIn(space, Space) && (sign == "" || sign == "+" || sign == "-")
    requires junk != [] ==> !IsDigit(junk[0])
    requires sign == "" ==> junk != [] && !In(junk[0], Space) && junk[0] != '-' && junk[0] != '+'
    ensures Atoi(space + (sign + junk)) == 0
  {
    var s := space + (sign + junk);
    assert (sign + junk)[0] == if sign == "" then junk[0] else sign[0];
    SpaceThenRest(space, sign + junk);
    assert s[|space|] == (sign + junk)[0];
    assert s[BodyStart(s)..] == junk;
    RunEndOf(junk, 0, 0, Digit);
    DigitsAfterSign(s, junk);
    assert AtoiDigits(s) == "";
  }

  // ---- double -> uint64 -> int ----

  /** Truncation toward zero. */
  function Trunc(v: real): int {
    if v >= 0.0 then v.Floor else -((-v).Floor)
  }

  /** Rust's saturating `f64 as i64`, defined on everything below 2^63. */
  function AsI64(v: real): int {
    Clamp64(Trunc(v))
  }

  /** `i64 as u64`. */
  function AsU64(i: int): int {
    if i < 0 then i + TWO64 else i
  }

  /** `^ (1 << 63)`: the top bit is inverted, the other 63 stay. */
  function FlipTopBit(u: int): int {
    (1 - u / TWO63) * TWO63 + u % TWO63
  }

  lemma XorTopBit(b: bv64)
    ensures (b ^ 0x8000_0000_0000_0000) as int
         == if b >= 0x8000_0000_0000_0000 then b as int - TWO63 else b as int + TWO63
    ensures b >= 0x8000_0000_0000_0000 <==> b as int >= TWO63
    ensures 0 <= b as int < TWO64
  {
  }

  lemma FlipTopBitSplits(u: int)
    requires 0 <= u < TWO64
    ensures FlipTopBit(u) == if u >= TWO63 then u - TWO63 else u + TWO63
    ensures FlipTopBit(u) == (u + TWO63) % TWO64
  {
  }

  /** For every 64-bit word the flip is the xor, and it acts as adding 2^63. */
  lemma FlipTopBitIsXor(b: bv64)
    ensures FlipTopBit(b as int) == (b ^ 0x8000_0000_0000_0000) as int
    ensures FlipTopBit(b as int) == (b as int + 0x8000_0000_0000_0000) % 0x1_0000_0000_0000_0000
  {
    hide FlipTopBit;
    XorTopBit(b);
    FlipTopBitSplits(b as int);
  }

  function CDoubleToU64(n: Double): int {
    match n
    case NaN => TWO63
    case Infinite(negative) =>
      // -inf is below 2^63; +inf minus 2^63 is not, so the unrepresentable marker is folded instead.
      if negative then AsU64(I64_MIN) else FlipTopBit(AsU64(I64_MIN))
    case Finite(v) =>
      if v < TWO63 as real then AsU64(AsI64(v))
      else
        var d := v - TWO63 as real;
        FlipTopBit(AsU64(if d < TWO63 as real then AsI64(d) else I64_MIN))
  }

  function CU64ToInt(u: int): int {
    Wrap32(u)
  }

  lemma TruncBounds(v: real)
    ensures v >= 0.0 ==> 0.0 <= v - Trunc(v) as real < 1.0
    ensures v < 0.0 ==> 0.0 <= Trunc(v) as real - v < 1.0
  {
  }

  /** The whole range of the conversion: exact modulo 2^64 inside, one fixed value on each side. */
  lemma DoubleToU64Congruence(v: real)
    ensures -9_223_372_036_854_775_808.0 <= v < 18_446_744_073_709_551_616.0 ==>
              CDoubleToU64(Finite(v)) == Trunc(v) % 18_446_744_073_709_551_616
    ensures v >= 18_446_744_073_709_551_616.0 ==> CDoubleToU64(Finite(v)) == 0
    ensures v < -9_223_372_036_854_775_808.0 ==> CDoubleToU64(Finite(v)) == 9_223_372_036_854_775_808
    ensures 0 <= CDoubleToU64(Finite(v)) < 18_446_744_073_709_551_616
  {
    TruncBounds(v);
    if v >= TWO63 as real {
      TruncBounds(v - TWO63 as real);
      TruncShift(v);
      FlipTopBitSplits(AsU64(if v - TWO63 as real < TWO63 as real then AsI64(v - TWO63 as real) else I64_MIN));
    }
  }

  lemma TruncShift(v: real)
    requires v >= TWO63 as real
    ensures Trunc(v - TWO63 as real) == Trunc(v) - TWO63
  {
  }

  /** Below 2^64 the two conversions together keep the low 32 bits of the truncated value. */
  lemma DoubleToIntWraps(v: real)
    requires -9_223_372_036_854_775_808.0 <= v < 18_446_744_073_709_551_616.0
    ensures CU64ToInt(CDoubleToU64(Finite(v))) == Wrap32(Trunc(v))
  {
    DoubleToU64Congruence(v);
    assert (Trunc(v) % TWO64) % TWO32 == Trunc(v) % TWO32;
  }

  /** Where the words of the number grammar land. */
  lemma WordsToU64()
    ensures CDoubleToU64(NaN) == 9_223_372_036_854_775_808 && CU64ToInt(CDoubleToU64(NaN)) == 0
    ensures CDoubleToU64(Infinite(true)) == 9_223_372_036_854_775_808 && CDoubleToU64(Infinite(false)) == 0
  {
  }

  /** What a 1024-based unit letter multiplies by. */
  function UnitFactor1024(unit: char): real {
    match unit
    case 't' => 1_099_511_627_776.0
    case 'T' => 1_099_511_627_776.0
    case 'g' => 1_073_741_824.0
    case 'G' => 1_073_741_824.0
    case 'm' => 1_048_576.0
    case 'M' => 1_048_576.0
    case _ => 1024.0
  }

  lemma UnitInBytes(n: Number, unit: char, junk: string)
    requires NumberOk(n) && unit in "tTgGmMkK"
    ensures UnitSuffixScaled(Text(n) + ([unit] + junk), 1024.0) == Ok(ScaledBy(Meaning(n), UnitFactor1024(unit)))
  {
    hide NumberOk, Meaning, Text, UnitSuffixScaled, ScaledBy;
    UnitsByLetter(n, unit, junk, 1024.0);
    assert 1024.0 * 1024.0 == 1_048_576.0 && 1_048_576.0 * 1024.0 == 1_073_741_824.0;
    assert 1_073_741_824.0 * 1024.0 == 1_099_511_627_776.0;
  }

  /** An int option such as -l: any number, one unit, any junk; the low 32 bits of the scaled value. */
  lemma UnitOptionToInt(n: Number, unit: char, junk: string)
    requires NumberOk(n) && unit in "tTgGmMkK" && Meaning(n).Finite?
    requires -9_223_372_036_854_775_808.0 <= Meaning(n).v * UnitFactor1024(unit) < 18_446_744_073_709_551_616.0
    ensures var r := UnitSuffixScaled(Text(n) + ([unit] + junk), 1024.0);
            && r.Ok?
            && CU64ToInt(CDoubleToU64(r.value)) == Wrap32(Trunc(Meaning(n).v * UnitFactor1024(unit)))
  {
    hide NumberOk, Meaning, Text, UnitSuffixScaled, CDoubleToU64, CU64ToInt, Wrap32, Trunc, UnitFactor1024;
    UnitInBytes(n, unit, junk);
    DoubleToIntWraps(Meaning(n).v * UnitFactor1024(unit));
  }
}
