/**
 The numbers riperf3's C-style option parsers read, as a declarative grammar: a syntax tree, the
 text each tree stands for, and the value it denotes.  Bytes are modelled as `char`, so a statement
 about all strings is in particular one about all byte strings.
*/
module CNumberGrammar {
  import opened Decimal
  import opened Wrappers

  /** A C double with rounding left out: values are exact. */
  datatype Double = NaN | Infinite(negative: bool) | Finite(v: real)

  // ---- Character classes ----

  datatype Class = Space | Digit | HexDigit

  predicate In(c: char, k: Class) {
    match k
    case Space => c == ' ' || '\t' <= c <= '\r'
    case Digit => IsDigit(c)
    case HexDigit => IsDigit(c) || 'a' <= c <= 'f' || 'A' <= c <= 'F'
  }

  predicate AllIn(s: string, k: Class) {
    forall i :: 0 <= i < |s| ==> In(s[i], k)
  }

  function Lower(c: char): char {
    if 'A' <= c <= 'Z' then (c as int + 32) as char else c
  }

  /** The capital letters by name; everything else stays. */
  lemma LowerByName(c: char)
    ensures var k := c as int - 'A' as int;
            Lower(c) == if 0 <= k < 26 then "abcdefghijklmnopqrstuvwxyz"[k] else c
  {
  }

  /** The character classes by name. */
  lemma ClassesByName(c: char)
    ensures In(c, Space) <==> c in " \t\n\U{000B}\U{000C}\r"
    ensures In(c, Digit) <==> c in "0123456789"
    ensures In(c, HexDigit) <==> c in "0123456789abcdefABCDEF"
  {
    DigitsByName(c);
    if 'a' <= c <= 'f' {
      assert c == "abcdef"[c as int - 'a' as int];
    } else if 'A' <= c <= 'F' {
      assert c == "ABCDEF"[c as int - 'A' as int];
    }
  }

  /** `s` equals the lower-case word `w` when ASCII case is ignored. */
  predicate SameWord(s: string, w: string) {
    |s| == |w| && forall i :: 0 <= i < |s| ==> Lower(s[i]) == w[i]
  }

  // ---- Syntax trees ----

  datatype Sign = NoSign | Plus | Minus

  datatype Exponent = NoExponent | Exponent(marker: char, sign: Sign, digits: string)

  datatype Body =
    | Word(text: string)
    | Hex(x: char, whole: string, frac: Option<string>, exp: Exponent)
    | Dec(whole: string, frac: Option<string>, exp: Exponent)

  datatype Number = Number(space: string, sign: Sign, body: Body)

  predicate ExponentOk(e: Exponent, marker: char) {
    e.Exponent? ==> Lower(e.marker) == marker && e.digits != [] && AllIn(e.digits, Digit)
  }

  predicate BodyOk(b: Body) {
    match b
    case Word(text) => SameWord(text, "inf") || SameWord(text, "infinity") || SameWord(text, "nan")
    case Hex(x, whole, frac, exp) =>
      && Lower(x) == 'x'
      && AllIn(whole, HexDigit)
      && (frac.Some? ==> frac.value != [] && AllIn(frac.value, HexDigit))
      && (whole != [] || frac.Some?)
      && ExponentOk(exp, 'p')
    case Dec(whole, frac, exp) =>
      && AllIn(whole, Digit)
      && (frac.Some? ==> AllIn(frac.value, Digit))
      && (whole != [] || (frac.Some? && frac.value != []))
      && ExponentOk(exp, 'e')
  }

  predicate NumberOk(n: Number) {
    AllIn(n.space, Space) && BodyOk(n.body)
  }

  // ---- Text ----

  function SignText(g: Sign): string {
    match g
    case NoSign => ""
    case Plus => "+"
    case Minus => "-"
  }

  function FracText(frac: Option<string>): string {
    if frac.Some? then "." + frac.value else ""
  }

  function ExponentText(e: Exponent): string {
    if e.Exponent? then [e.marker] + (SignText(e.sign) + e.digits) else ""
  }

  function MantissaText(whole: string, frac: Option<string>, exp: Exponent): string {
    whole + (FracText(frac) + ExponentText(exp))
  }

  function BodyText(b: Body): string {
    match b
    case Word(text) => text
    case Hex(x, whole, frac, exp) => ['0', x] + MantissaText(whole, frac, exp)
    case Dec(whole, frac, exp) => MantissaText(whole, frac, exp)
  }

  function Text(n: Number): string {
    n.space + (SignText(n.sign) + BodyText(n.body))
  }

  /** `t` is, in full, one number of the grammar. */
  ghost predicate IsNumber(t: string) {
    exists n :: NumberOk(n) && Text(n) == t
  }

  // ---- Values ----

  function Pow(base: real, n: nat): (r: real)
    ensures base > 0.0 ==> r > 0.0
  {
    if n == 0 then 1.0 else base * Pow(base, n - 1)
  }

  function HexDigitValue(c: char): (d: nat)
    requires In(c, HexDigit)
    ensures d < 16
  {
    if IsDigit(c) then DigitValue(c)
    else if 'a' <= c then c as int - 'a' as int + 10
    else c as int - 'A' as int + 10
  }

  /** The hex digits by name, in either case. */
  lemma HexDigitsByName(c: char)
    requires c in "0123456789abcdefABCDEF"
    ensures In(c, HexDigit) && "0123456789abcdef"[HexDigitValue(c)] == Lower(c)
  {
    ClassesByName(c);
    DigitsByName(c);
    var small := "0123456789abcdef";
    if 'a' <= c <= 'f' {
      assert small[10..] == "abcdef" && small[c as int - 'a' as int + 10] == small[10..][c as int - 'a' as int];
      assert "abcdef"[c as int - 'a' as int] == c;
    } else if 'A' <= c <= 'F' {
      assert small[10..] == "abcdef" && small[c as int - 'A' as int + 10] == small[10..][c as int - 'A' as int];
    }
  }

  /** The value of a run of hex digits. */
  function HexValue(s: string): nat
    requires AllIn(s, HexDigit)
  {
    if s == [] then 0 else 16 * HexValue(s[..|s| - 1]) + HexDigitValue(s[|s| - 1])
  }

  const I32_MAX: int := 0x7FFF_FFFF

  /** Multiplies by base^digits or base^-digits. */
  function Scaled(v: real, base: real, sign: Sign, n: nat): real
    requires base > 0.0
  {
    if sign == Minus then v / Pow(base, n) else v * Pow(base, n)
  }

  function DecFrac(frac: Option<string>): real
    requires frac.Some? ==> AllIn(frac.value, Digit)
  {
    if frac.None? then 0.0 else NatValue(frac.value) as real / Pow(10.0, |frac.value|)
  }

  function HexFrac(frac: Option<string>): real
    requires frac.Some? ==> AllIn(frac.value, HexDigit)
  {
    if frac.None? then 0.0 else HexValue(frac.value) as real / Pow(16.0, |frac.value|)
  }

  /** A hex float's binary exponent is an `i32` that saturates. */
  function Saturated(n: nat): nat {
    if n > I32_MAX then I32_MAX else n
  }

  /** The magnitude of a number that is not a word. */
  function Magnitude(b: Body): real
    requires BodyOk(b) && !b.Word?
  {
    match b
    case Hex(_, whole, frac, exp) =>
      var m := HexValue(whole) as real + HexFrac(frac);
      if exp.NoExponent? then m else Scaled(m, 2.0, exp.sign, Saturated(NatValue(exp.digits)))
    case Dec(whole, frac, exp) =>
      var m := NatValue(whole) as real + DecFrac(frac);
      if exp.NoExponent? then m else Scaled(m, 10.0, exp.sign, NatValue(exp.digits))
  }

  function Signed(negative: bool, v: real): real {
    if negative then -v else v
  }

  function Meaning(n: Number): Double
    requires NumberOk(n)
  {
    if n.body.Word? then
      if SameWord(n.body.text, "nan") then NaN else Infinite(n.sign == Minus)
    else
      Finite(Signed(n.sign == Minus, Magnitude(n.body)))
  }
}
