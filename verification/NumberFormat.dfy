/**
 The JSON number printer: C's `%.*g` rebuilt from two decimal formatters, and cJSON's choice between
 an integer token, 15 or 17 significant digits, and `null`.
*/
module NumberFormat {
  import opened CNumberGrammar
  import opened CStrtod
  import opened Decimal
  import opened DecimalRounding
  import opened FloatParser
  import opened Wrappers

  // ---- The two formatters of the Rust library ----

  /** The last `w` digits of `n`. */
  function PadDigits(n: nat, w: nat): (s: string)
    ensures |s| == w && AllDigits(s)
  {
    if w == 0 then "" else PadDigits(n / 10, w - 1) + [DigitChar(n % 10)]
  }

  function Quotient(n: nat, t: nat): nat
    requires t >= 1
  {
    n / t
  }

  /** What stands before the last k digits of n. */
  function Whole(n: nat, k: nat): nat {
    Quotient(n, TenTo(k))
  }

  /** The last k digits of n. */
  function Rest(n: nat, k: nat): (r: nat)
    ensures r < TenTo(k)
  {
    n % TenTo(k)
  }

  /** n * 10^-k with k fraction digits. */
  function FixedText(n: nat, k: nat): string {
    NatText(Whole(n, k)) + if k > 0 then "." + PadDigits(Rest(n, k), k) else ""
  }

  function Abs(d: real): (m: real)
    ensures m >= 0.0
  {
    if d < 0.0 then -d else d
  }

  function SignPrefix(d: real): string {
    if d < 0.0 then "-" else ""
  }

  /** The digits `{:.*}` prints. */
  function FixedDigits(m: real, frac: nat): nat
    requires m >= 0.0
  {
    ShiftSign(m, frac);
    RoundEven(Shift(m, frac))
  }

  lemma ShiftSign(m: real, k: int)
    requires m >= 0.0
    ensures Shift(m, k) >= 0.0
  {
    ShiftOrder(m, 0.0, k);
    ShiftMinus(0.0, 0.0, k);
  }

  /** `{:.*}`: exact half-even rounding at the given fraction digit. */
  function RustFixed(d: real, frac: nat): string {
    SignPrefix(d) + FixedText(FixedDigits(Abs(d), frac), frac)
  }

  /** `{:.*e}`: exact half-even rounding at the given digit after the first. */
  function RustSci(d: real, frac: nat): string
    requires d != 0.0
  {
    SciDigitsRange(Abs(d), frac + 1);
    var s := SciDigits(Abs(d), frac + 1);
    SignPrefix(d) + FixedText(s.digits, frac) + ("e" + IntText(s.exp))
  }

  /** `str::split_once`. */
  function SplitOnce(s: string, c: char): Option<(string, string)> {
    if s == [] then None
    else if s[0] == c then Some(([], s[1..]))
    else
      match SplitOnce(s[1..], c)
      case None => None
      case Some((a, b)) => Some(([s[0]] + a, b))
  }

  /** `str::trim_end_matches`. */
  function TrimEnd(s: string, c: char): string {
    if s != [] && s[|s| - 1] == c then TrimEnd(s[..|s| - 1], c) else s
  }

  // ---- trim_trailing_zeros, format_g, cjson_number ----

  function TrimTrailingZeros(s: string): string {
    if '.' in s then TrimEnd(TrimEnd(s, '0'), '.') else s
  }

  /** `{:02}`. */
  function AtLeastTwo(n: nat): (s: string)
    ensures AllDigits(s) && s != []
  {
    if n < 10 then "0" + NatText(n) else NatText(n)
  }

  function Places(precision: nat): (p: nat)
    ensures p >= 1
  {
    if precision < 1 then 1 else precision
  }

  function FormatG(d: real, precision: nat): string {
    var p := Places(precision);
    if d == 0.0 then "0"
    else
      SciTextSplits(d, p);
      var (mantissa, expText) := SplitOnce(RustSci(d, p - 1), 'e').value;
      var exp := ParseInt(expText).value;
      if exp < -4 || exp >= p then
        TrimTrailingZeros(mantissa) + ("e" + ((if exp < 0 then "-" else "+") + AtLeastTwo(if exp < 0 then -exp else exp)))
      else
        TrimTrailingZeros(RustFixed(d, if p - 1 - exp > 0 then p - 1 - exp else 0))
  }

  /** The double nearest to the 9_223_372_036_854_775_000.0 written in the source. */
  const INTEGRAL_LIMIT: real := 9_223_372_036_854_774_784.0

  /** `roundTrips` is the outcome of reading the 15-digit text back in floating point. */
  function CjsonNumber(d: Double, roundTrips: bool): string {
    match d
    case Finite(v) =>
      if Abs(v) < INTEGRAL_LIMIT && v == v.Floor as real then IntText(v.Floor)
      else if roundTrips then FormatG(v, 15)
      else FormatG(v, 17)
    case _ => "null"
  }

  // ---- The split finds what the formatter joined ----

  lemma {:induction false} SplitOnceAt(a: string, c: char, b: string)
    requires c !in a
    ensures SplitOnce(a + ([c] + b), c) == Some((a, b))
  {
    var s := a + ([c] + b);
    if a == [] {
      assert s[1..] == b;
    } else {
      assert s[1..] == a[1..] + ([c] + b);
      SplitOnceAt(a[1..], c, b);
      assert [a[0]] + a[1..] == a;
    }
  }

  lemma FixedTextHasNo(n: nat, k: nat, c: char)
    requires !IsDigit(c) && (c == '.' ==> k == 0)
    ensures c !in FixedText(n, k)
  {
  }

  lemma SciTextSplits(d: real, p: nat)
    requires d != 0.0 && p >= 1
    ensures SciDigits(Abs(d), p).digits >= 1
    ensures var s := SciDigits(Abs(d), p);
            SplitOnce(RustSci(d, p - 1), 'e') == Some((SignPrefix(d) + FixedText(s.digits, p - 1), IntText(s.exp)))
            && ParseInt(IntText(s.exp)) == Some(s.exp)
  {
    hide SciDigits, FixedText, IntText, ParseInt;
    SciDigitsRange(Abs(d), p);
    var s := SciDigits(Abs(d), p);
    FixedTextHasNo(s.digits, p - 1, 'e');
    SplitOnceAt(SignPrefix(d) + FixedText(s.digits, p - 1), 'e', IntText(s.exp));
    ParseIntOfIntText(s.exp);
  }

  // ---- Trimming, on text and on digits ----

  /** A fraction without its trailing zeros; nothing at all when it was zero. */
  function TidyFraction(digits: string): Option<string> {
    if TrimEnd(digits, '0') == [] then None else Some(TrimEnd(digits, '0'))
  }

  lemma {:induction false} TrimEndAppend(a: string, b: string, c: char)
    ensures TrimEnd(a + b, c) == if TrimEnd(b, c) == [] then TrimEnd(a, c) else a + TrimEnd(b, c)
  {
    if b == [] {
      assert a + b == a;
    } else if b[|b| - 1] == c {
      TrimEndAppend(a, b[..|b| - 1], c);
      assert (a + b)[..|a + b| - 1] == a + b[..|b| - 1];
    }
  }

  lemma {:induction false} TrimEndDigits(s: string, c: char)
    requires AllDigits(s)
    ensures AllDigits(TrimEnd(s, c)) && (TrimEnd(s, c) != [] ==> TrimEnd(s, c)[|TrimEnd(s, c)| - 1] != c)
    ensures !IsDigit(c) ==> TrimEnd(s, c) == s
  {
    if s != [] && s[|s| - 1] == c {
      TrimEndDigits(s[..|s| - 1], c);
    }
  }

  lemma TrimZeros(head: string, digits: string)
    requires AllDigits(digits)
    ensures TrimEnd(head + ("." + digits), '0') == head + ("." + TrimEnd(digits, '0'))
  {
    hide TrimEnd;
    TrimEndAppend(".", digits, '0');
    TrimEndAppend(head, "." + digits, '0');
    PointStays('0');
    assert "." + [] == ".";
  }

  lemma PointStays(c: char)
    requires c != '.'
    ensures TrimEnd(".", c) == "."
  {
  }

  lemma TrimPoint(head: string, digits: string)
    requires head != [] && IsDigit(head[|head| - 1]) && AllDigits(digits)
    ensures TrimEnd(head + ("." + digits), '.') == if digits == [] then head else head + ("." + digits)
  {
    var s := head + ("." + digits);
    if digits == [] {
      assert s[..|s| - 1] == head;
    } else {
      assert s[|s| - 1] == digits[|digits| - 1];
    }
  }

  lemma HasPoint(head: string, digits: string)
    ensures '.' in head + ("." + digits)
  {
    assert (head + ("." + digits))[|head|] == '.';
  }

  /** Trimming a fixed-point text drops exactly the fraction's trailing zeros, and a bare point. */
  lemma TrimFixed(head: string, digits: string)
    requires head != [] && IsDigit(head[|head| - 1]) && AllDigits(digits)
    ensures TrimTrailingZeros(head + ("." + digits)) == head + FracText(TidyFraction(digits))
  {
    hide TrimEnd, AllDigits;
    HasPoint(head, digits);
    TrimZeros(head, digits);
    TrimEndDigits(digits, '0');
    TrimPoint(head, TrimEnd(digits, '0'));
  }

  lemma {:induction false} TidyFractionValue(digits: string)
    requires AllDigits(digits)
    ensures TidyFraction(digits).Some? ==> AllDigits(TidyFraction(digits).value)
    ensures DecFrac(TidyFraction(digits)) == DecFrac(Some(digits))
  {
    TrimEndDigits(digits, '0');
    if digits != [] && digits[|digits| - 1] == '0' {
      var most := digits[..|digits| - 1];
      TidyFractionValue(most);
      DropZero(NatValue(most) as real, Pow(10.0, |most|), Pow(10.0, |digits|));
    }
  }

  lemma DropZero(v: real, p: real, q: real)
    requires p > 0.0 && q == 10.0 * p
    ensures 10.0 * v / q == v / p
  {
  }

  // ---- The value of a fixed-point text ----

  lemma {:induction false} PadDigitsValue(n: nat, w: nat)
    requires n < TenTo(w)
    ensures NatValue(PadDigits(n, w)) == n
  {
    if w > 0 {
      assert TenTo(w) == 10 * TenTo(w - 1);
      PadDigitsValue(n / 10, w - 1);
      var s := PadDigits(n, w);
      assert s[..|s| - 1] == PadDigits(n / 10, w - 1);
    }
  }

  lemma WholeAndRest(n: nat, k: nat)
    ensures n as real / Pow(10.0, k) == Whole(n, k) as real + Rest(n, k) as real / Pow(10.0, k)
  {
    hide TenTo;
    TenToIsPow(k);
    DivMod(n, TenTo(k));
    Division(Whole(n, k) as real, Rest(n, k) as real, Pow(10.0, k), n as real);
  }

  lemma DivMod(n: nat, t: nat)
    requires t >= 1
    ensures n as real == (n / t) as real * t as real + (n % t) as real
  {
    assert n == n / t * t + n % t;
    MulReal(n / t, t);
  }

  lemma MulReal(a: int, b: int)
    ensures (a * b) as real == a as real * b as real
  {
  }

  lemma Division(q: real, r: real, t: real, n: real)
    requires t > 0.0 && n == q * t + r
    ensures n / t == q + r / t
  {
  }

  /** The digits of n with its last k after the point, trimmed, as a tree of the number grammar. */
  function FixedTree(n: nat, k: nat, exp: Exponent): Body {
    Dec(NatText(Whole(n, k)), TidyFraction(PadDigits(Rest(n, k), k)), exp)
  }

  lemma FixedTreeOk(n: nat, k: nat, exp: Exponent)
    requires ExponentOk(exp, 'e')
    ensures BodyOk(FixedTree(n, k, exp))
  {
    TrimEndDigits(PadDigits(Rest(n, k), k), '0');
  }

  lemma FixedTreeText(sign: string, n: nat, k: nat)
    requires sign == "" || sign == "-"
    ensures TrimTrailingZeros(sign + FixedText(n, k)) == sign + BodyText(FixedTree(n, k, NoExponent))
  {
    hide TrimTrailingZeros, TrimEnd, PadDigits, NatText, Rest, Whole;
    var whole, digits := NatText(Whole(n, k)), PadDigits(Rest(n, k), k);
    if k > 0 {
      TrimFixed(sign + whole, digits);
      assert sign + (whole + ("." + digits)) == (sign + whole) + ("." + digits);
      assert sign + (whole + (FracText(TidyFraction(digits)) + "")) == (sign + whole) + FracText(TidyFraction(digits));
    } else {
      NoPoint(sign + whole);
      assert sign + (whole + "") == sign + whole;
      assert digits == [];
      NothingTrimmed();
      assert whole + ("" + "") == whole;
    }
  }

  lemma NothingTrimmed()
    ensures TidyFraction([]) == None
  {
  }

  lemma NoPoint(s: string)
    requires forall i :: 0 <= i < |s| ==> s[i] != '.'
    ensures TrimTrailingZeros(s) == s
  {
  }

  lemma FixedTreeValue(n: nat, k: nat)
    ensures BodyOk(FixedTree(n, k, NoExponent))
    ensures var low: int := k; Magnitude(FixedTree(n, k, NoExponent)) == Shift(n as real, -low)
  {
    hide PadDigits, NatText, TidyFraction, Rest, Whole, NatValue, DecFrac, BodyOk, AllIn;
    FixedTreeOk(n, k, NoExponent);
    NatTextRoundTrip(Whole(n, k));
    PadDigitsValue(Rest(n, k), k);
    TidyFractionValue(PadDigits(Rest(n, k), k));
    WholeAndRest(n, k);
    DecFracSome(PadDigits(Rest(n, k), k));
    MagnitudeDec(FixedTree(n, k, NoExponent));
  }

  lemma DecFracSome(digits: string)
    requires AllDigits(digits)
    ensures DecFrac(Some(digits)) == NatValue(digits) as real / Pow(10.0, |digits|)
  {
  }

  lemma MagnitudeDec(b: Body)
    requires BodyOk(b) && b.Dec? && b.exp.NoExponent?
    ensures AllDigits(b.whole) && (b.frac.Some? ==> AllDigits(b.frac.value))
    ensures Magnitude(b) == NatValue(b.whole) as real + DecFrac(b.frac)
  {
  }

  // ---- What format_g prints ----

  /** A number as section 6 of RFC 8259 spells it. */
  predicate JsonShape(n: Number) {
    && n.space == []
    && n.sign != Plus
    && n.body.Dec?
    && n.body.whole != []
    && (n.body.whole[0] == '0' ==> |n.body.whole| == 1)
    && n.body.frac != Some([])
  }

  predicate NoTrailingZero(n: Number) {
    n.body.Dec? && n.body.frac.Some? && n.body.frac.value != [] ==>
      n.body.frac.value[|n.body.frac.value| - 1] != '0'
  }

  ghost predicate JsonNumber(t: string) {
    exists n :: NumberOk(n) && JsonShape(n) && Text(n) == t
  }

  /** `t` is a tidy JSON number and its exact value is `v`. */
  ghost predicate Denotes(t: string, v: real) {
    exists n :: NumberOk(n) && JsonShape(n) && NoTrailingZero(n) && Text(n) == t && Meaning(n) == Finite(v)
  }

  function SignOf(d: real): Sign {
    if d < 0.0 then Minus else NoSign
  }

  predicate UsesExponent(exp: int, p: nat) {
    exp < -4 || exp >= p
  }

  function ExponentTree(exp: int): Exponent {
    Exponent('e', if exp < 0 then Minus else Plus, AtLeastTwo(if exp < 0 then -exp else exp))
  }

  /** The tree of the printed text. */
  function FormatTree(d: real, p: nat): Number
    requires d != 0.0 && p >= 1
  {
    SciDigitsRange(Abs(d), p);
    var s := SciDigits(Abs(d), p);
    Number([], SignOf(d), if UsesExponent(s.exp, p) then FixedTree(s.digits, p - 1, ExponentTree(s.exp))
                          else FixedTree(s.digits, p - 1 - s.exp, NoExponent))
  }

  lemma ExponentTreeOk(exp: int)
    ensures ExponentOk(ExponentTree(exp), 'e')
    ensures NatValue(ExponentTree(exp).digits) == if exp < 0 then -exp else exp
  {
    var n := if exp < 0 then -exp else exp;
    NatTextRoundTrip(n);
    NatValueLeadingZero(NatText(n));
  }

  lemma FormatTreeOk(d: real, p: nat)
    requires d != 0.0 && p >= 1
    ensures NumberOk(FormatTree(d, p)) && JsonShape(FormatTree(d, p)) && NoTrailingZero(FormatTree(d, p))
  {
    hide SciDigits, FixedTree, JsonShape, NoTrailingZero, NumberOk, TenTo, ExponentTree;
    SciDigitsRange(Abs(d), p);
    var s := SciDigits(Abs(d), p);
    ExponentTreeOk(s.exp);
    if UsesExponent(s.exp, p) {
      FixedTreeShape(SignOf(d), s.digits, p - 1, ExponentTree(s.exp));
    } else {
      FixedTreeShape(SignOf(d), s.digits, p - 1 - s.exp, NoExponent);
    }
  }

  lemma FixedTreeShape(sign: Sign, n: nat, k: nat, exp: Exponent)
    requires ExponentOk(exp, 'e') && sign != Plus
    ensures var t := Number([], sign, FixedTree(n, k, exp)); NumberOk(t) && JsonShape(t) && NoTrailingZero(t)
  {
    FixedTreeOk(n, k, exp);
    NatTextRoundTrip(Whole(n, k));
    TrimEndDigits(PadDigits(Rest(n, k), k), '0');
  }

  /** An exponent is appended to the mantissa's text. */
  lemma BodyWithExponent(n: nat, k: nat, exp: Exponent)
    ensures BodyText(FixedTree(n, k, exp)) == BodyText(FixedTree(n, k, NoExponent)) + ExponentText(exp)
  {
    hide NatText, FracText, TidyFraction, PadDigits, Rest, Whole, ExponentText;
    JoinExponent(NatText(Whole(n, k)), FracText(TidyFraction(PadDigits(Rest(n, k), k))), ExponentText(exp));
    NoExponentText();
  }

  lemma NoExponentText()
    ensures ExponentText(NoExponent) == ""
  {
  }

  lemma JoinExponent(whole: string, frac: string, exp: string)
    ensures whole + (frac + exp) == (whole + (frac + "")) + exp
  {
  }

  lemma FormatGText(d: real, precision: nat)
    requires d != 0.0
    ensures FormatG(d, precision) == Text(FormatTree(d, Places(precision)))
  {
    hide SciDigits, BodyText, TenTo, TrimTrailingZeros, FixedText, FixedTree, RoundEven, Shift, IntText, ParseInt,
         SplitOnce, RustSci, AtLeastTwo, Places;
    var p := Places(precision);
    SciTextSplits(d, p);
    SciDigitsRange(Abs(d), p);
    var s := SciDigits(Abs(d), p);
    if UsesExponent(s.exp, p) {
      FixedTreeText(SignPrefix(d), s.digits, p - 1);
      BodyWithExponent(s.digits, p - 1, ExponentTree(s.exp));
      Regroup(SignPrefix(d), BodyText(FixedTree(s.digits, p - 1, NoExponent)), ExponentText(ExponentTree(s.exp)));
    } else {
      SecondRounding(Abs(d), p);
      FixedTreeText(SignPrefix(d), s.digits, p - 1 - s.exp);
      Regroup(SignPrefix(d), BodyText(FixedTree(s.digits, p - 1 - s.exp, NoExponent)), "");
    }
  }

  lemma Regroup(a: string, b: string, c: string)
    ensures (a + b) + c == [] + (a + (b + c))
    ensures a + b == [] + (a + b)
  {
  }

  lemma FormatTreeMeaning(d: real, p: nat)
    requires d != 0.0 && p >= 1
    ensures NumberOk(FormatTree(d, p))
    ensures Meaning(FormatTree(d, p)) == Finite(Signed(d < 0.0, SigRound(Abs(d), p)))
  {
    hide SciDigits, BodyOk, TenTo, Shift, SigRound, FixedTree, Magnitude, AtLeastTwo;
    FormatTreeOk(d, p);
    SciDigitsRange(Abs(d), p);
    CarryKeepsValue(Abs(d), p);
    var s := SciDigits(Abs(d), p);
    if UsesExponent(s.exp, p) {
      ExponentTreeOk(s.exp);
      FixedTreeOk(s.digits, p - 1, ExponentTree(s.exp));
      ExponentScales(s.digits, p - 1, s.exp);
    } else {
      FixedTreeValue(s.digits, p - 1 - s.exp);
      assert -(p - 1 - s.exp) == s.exp - (p - 1);
    }
  }

  /** The exponent moves the point of the mantissa. */
  lemma ExponentScales(n: nat, k: nat, exp: int)
    requires BodyOk(FixedTree(n, k, ExponentTree(exp)))
    ensures Magnitude(FixedTree(n, k, ExponentTree(exp))) == Shift(n as real, exp - k)
  {
    hide Shift, FixedTree;
    FixedTreeValue(n, k);
    ExponentTreeOk(exp);
    MagnitudeExponent(n, k, exp);
    var low: int := k;
    ShiftAdd(n as real, -low, exp);
    assert -low + exp == exp - k;
  }

  lemma MagnitudeExponent(n: nat, k: nat, exp: int)
    requires BodyOk(FixedTree(n, k, ExponentTree(exp))) && BodyOk(FixedTree(n, k, NoExponent))
    ensures Magnitude(FixedTree(n, k, ExponentTree(exp))) == Shift(Magnitude(FixedTree(n, k, NoExponent)), exp)
  {
    hide BodyOk, DecFrac, NatValue, AtLeastTwo, NatText, TidyFraction;
    ExponentTreeOk(exp);
  }

  /**
   The printer preserves value: whatever the notation, the trimming and the second rounding, the text
   is a tidy JSON number denoting d rounded, half to even, to the given number of significant digits.
  */
  lemma FormatGDenotes(d: real, precision: nat)
    requires d != 0.0
    ensures Denotes(FormatG(d, precision), Signed(d < 0.0, SigRound(Abs(d), Places(precision))))
  {
    hide FormatG, Text, FormatTree, NumberOk, JsonShape, NoTrailingZero, Meaning, SigRound, Signed;
    var n := FormatTree(d, Places(precision));
    FormatTreeOk(d, Places(precision));
    FormatTreeMeaning(d, Places(precision));
    FormatGText(d, precision);
    assert NumberOk(n) && JsonShape(n) && NoTrailingZero(n);
  }

  /**
   What is printed is the number with the requested digits that is nearest to d, and of two as near the one
   with an even last digit.
  */
  lemma FormatGHalfEven(d: real, precision: nat) returns (n: int)
    requires d != 0.0
    ensures var k := Exponent10(Abs(d)) - ((if precision < 1 then 1 else precision) - 1);
            && HalfEven(Abs(d), k, n)
            && Denotes(FormatG(d, precision), if d < 0.0 then -Shift(n as real, k) else Shift(n as real, k))
  {
    hide FormatG, SigRound, Shift, Exponent10, Denotes, HalfEven;
    n := SigRoundHalfEven(Abs(d), Places(precision));
    FormatGDenotes(d, precision);
  }

  lemma FormatGOfZero(precision: nat)
    ensures FormatG(0.0, precision) == "0"
  {
  }

  /** The printed value is at most half a unit in the last significant digit away. */
  lemma FormatGError(d: real, precision: nat) returns (v: real)
    requires d != 0.0
    ensures Denotes(FormatG(d, precision), v)
    ensures var half := Shift(0.5, Exponent10(Abs(d)) - (Places(precision) - 1)); -half <= d - v <= half
  {
    hide FormatG, SigRound, Shift, Exponent10, Denotes, Places;
    v := Signed(d < 0.0, SigRound(Abs(d), Places(precision)));
    FormatGDenotes(d, precision);
    SigRoundError(Abs(d), Places(precision));
  }

  /** A number with no more than the requested digits is printed exactly. */
  lemma FormatGExact(d: real, precision: nat, digits: int)
    requires d != 0.0
    requires Shift(Abs(d), Places(precision) - 1 - Exponent10(Abs(d))) == digits as real
    ensures Denotes(FormatG(d, precision), d)
  {
    hide FormatG, Shift, Exponent10, Denotes, Places;
    var k := Places(precision) - 1 - Exponent10(Abs(d));
    FormatGDenotes(d, precision);
    RoundEvenIsNearest(Shift(Abs(d), k), digits);
    ShiftAdd(Abs(d), k, -k);
    ShiftZero(Abs(d));
    assert -k == Exponent10(Abs(d)) - (Places(precision) - 1);
  }

  /** C's exponent: a sign always, at least two digits, no further padding. */
  predicate CExponent(e: Exponent, x: int) {
    && e.Exponent? && e.marker == 'e' && e.sign == (if x < 0 then Minus else Plus)
    && AllDigits(e.digits) && NatValue(e.digits) == (if x < 0 then -x else x)
    && |e.digits| >= 2 && (|e.digits| > 2 ==> e.digits[0] != '0')
  }

  /** Scientific notation exactly when the rounded number's own exponent is below -4 or at least p. */
  lemma FormatGNotation(d: real, precision: nat) returns (n: Number)
    requires d != 0.0
    ensures NumberOk(n) && n.body.Dec? && Text(n) == FormatG(d, precision)
    ensures SigRound(Abs(d), Places(precision)) > 0.0
    ensures var x := Exponent10(SigRound(Abs(d), Places(precision)));
            n.body.exp.NoExponent? <==> -4 <= x < Places(precision)
    ensures n.body.exp.Exponent? ==> CExponent(n.body.exp, Exponent10(SigRound(Abs(d), Places(precision))))
  {
    hide FormatG, Text, NumberOk, SigRound, Exponent10, SciDigits, Places;
    n := FormatTree(d, Places(precision));
    FormatTreeOk(d, Places(precision));
    FormatGText(d, precision);
    RoundedExponent(Abs(d), Places(precision));
    TwoDigits(SciDigits(Abs(d), Places(precision)).exp);
  }

  lemma TwoDigits(x: int)
    ensures CExponent(ExponentTree(x), x)
  {
    ExponentTreeOk(x);
    var n := if x < 0 then -x else x;
    NatTextRoundTrip(n);
    if n >= 10 {
      assert NatText(n) == NatText(n / 10) + [DigitChar(n % 10)];
    }
  }

  /** riperf3's own scanner and Rust's float parser both read the printed text whole, to the same value. */
  lemma FormatGReadsBack(d: real, precision: nat)
    requires d != 0.0
    ensures var t := FormatG(d, precision);
            var v := Signed(d < 0.0, SigRound(Abs(d), Places(precision)));
            Strtod(t) == Some((Finite(v), |t|)) && ParseF64(t) == Some(Finite(v))
  {
    hide FormatG, Text, FormatTree, NumberOk, Meaning, SigRound, Signed, Strtod, ParseF64;
    var n := FormatTree(d, Places(precision));
    FormatTreeOk(d, Places(precision));
    FormatTreeMeaning(d, Places(precision));
    FormatGText(d, precision);
    StrtodOfNumber(n);
    ParseF64OfNumber(n);
  }

  // ---- What cjson_number prints ----

  function IntTree(n: int): Number {
    Number([], if n < 0 then Minus else NoSign, Dec(NatText(if n < 0 then -n else n), None, NoExponent))
  }

  lemma IntTreeOk(n: int)
    ensures NumberOk(IntTree(n)) && JsonShape(IntTree(n)) && NoTrailingZero(IntTree(n))
    ensures Text(IntTree(n)) == IntText(n) && Meaning(IntTree(n)) == Finite(n as real)
  {
    hide NatText, NatValue;
    var m := if n < 0 then -n else n;
    NatTextRoundTrip(m);
    IntTreeText(SignText(IntTree(n).sign), NatText(m));
    IntBodyValue(IntTree(n).body);
  }

  lemma IntTreeText(sign: string, digits: string)
    ensures [] + (sign + (digits + ("" + ""))) == sign + digits
    ensures "" + digits == digits
  {
  }

  lemma IntBodyValue(b: Body)
    requires BodyOk(b) && b.Dec? && b.frac.None? && b.exp.NoExponent?
    ensures AllDigits(b.whole) && Magnitude(b) == NatValue(b.whole) as real
  {
  }

  /** The value a finite number is printed with. */
  function Printed(v: real, roundTrips: bool): real {
    if v == 0.0 || (Abs(v) < INTEGRAL_LIMIT && v == v.Floor as real) then v
    else Signed(v < 0.0, SigRound(Abs(v), if roundTrips then 15 else 17))
  }

  /** Every number becomes a tidy JSON number of the promised value, and only NaN and infinities `null`. */
  lemma CjsonNumberDenotes(d: Double, roundTrips: bool)
    ensures CjsonNumber(d, roundTrips) == "null" <==> !d.Finite?
    ensures d.Finite? ==> Denotes(CjsonNumber(d, roundTrips), Printed(d.v, roundTrips))
    ensures d.Finite? ==> JsonNumber(CjsonNumber(d, roundTrips))
  {
    hide FormatG, SigRound, Denotes, JsonNumber, IntText;
    if d.Finite? {
      if Abs(d.v) < INTEGRAL_LIMIT && d.v == d.v.Floor as real {
        IntTextDenotes(d.v.Floor);
      } else {
        FormatGDenotes(d.v, if roundTrips then 15 else 17);
      }
      DenotesIsJson(CjsonNumber(d, roundTrips), Printed(d.v, roundTrips));
    }
  }

  lemma IntTextDenotes(n: int)
    ensures Denotes(IntText(n), n as real)
  {
    hide NumberOk, JsonShape, NoTrailingZero, IntText, Meaning, Text;
    IntTreeOk(n);
    var t := IntTree(n);
    assert NumberOk(t) && JsonShape(t) && NoTrailingZero(t);
  }

  lemma DenotesIsJson(t: string, v: real)
    requires Denotes(t, v)
    ensures JsonNumber(t) && t != "null"
  {
    var n :| NumberOk(n) && JsonShape(n) && NoTrailingZero(n) && Text(n) == t && Meaning(n) == Finite(v);
    JsonStart(n);
  }

  lemma JsonStart(n: Number)
    requires NumberOk(n) && JsonShape(n)
    ensures Text(n) != [] && Text(n)[0] != 'n'
  {
    if n.sign == NoSign {
      assert Text(n)[0] == n.body.whole[0];
    } else {
      assert Text(n)[0] == '-';
    }
  }

  /** A number that is no integer under the bound gets 15 digits, or 17, nearest and half to even. */
  lemma CjsonNumberHalfEven(v: real, roundTrips: bool) returns (n: int)
    requires v != 0.0 && (v == v.Floor as real ==> v <= -9_223_372_036_854_774_784.0 || v >= 9_223_372_036_854_774_784.0)
    ensures var k := Exponent10(Abs(v)) - (if roundTrips then 14 else 16);
            && HalfEven(Abs(v), k, n)
            && Denotes(CjsonNumber(Finite(v), roundTrips), if v < 0.0 then -Shift(n as real, k) else Shift(n as real, k))
  {
    hide FormatG, Shift, Exponent10, Denotes, HalfEven;
    n := FormatGHalfEven(v, if roundTrips then 15 else 17);
  }

  /** An integral value under the bound is printed as a plain integer that a 64-bit parser reads back. */
  lemma IntegralReadsBack(v: real, roundTrips: bool)
    requires -9_223_372_036_854_774_784.0 < v < 9_223_372_036_854_774_784.0 && v == v.Floor as real
    ensures ParseI64(CjsonNumber(Finite(v), roundTrips)) == Some(v.Floor)
  {
    ParseIntOfIntText(v.Floor);
  }
}
