/**
 Rust's `parse::<f64>` with rounding left out, the way its documentation gives the format: an optional
 sign, then one of the words or a decimal number, and nothing else.  It splits the text at the exponent
 marker and at the point, and knows nothing of how the C scanner finds the end of a number.
*/
module FloatParser {
  import opened CNumberGrammar
  import opened CNumberMunch
  import opened Decimal
  import opened Wrappers

  /** The first index of a character of `marks`, or the length. */
  function Find(t: string, marks: string): (i: nat)
    ensures i <= |t| && (i < |t| ==> t[i] in marks)
    ensures forall j :: 0 <= j < i ==> t[j] !in marks
  {
    if t == [] || t[0] in marks then 0 else 1 + Find(t[1..], marks)
  }

  function SplitSign(t: string): (p: (Sign, string))
    ensures SignText(p.0) + p.1 == t
  {
    if t != [] && t[0] == '-' then (Minus, t[1..])
    else if t != [] && t[0] == '+' then (Plus, t[1..])
    else (NoSign, t)
  }

  /** The part after the marker: a sign and at least one digit. */
  function ParseExponent(marker: char, t: string): Option<Exponent> {
    var (g, digits) := SplitSign(t);
    if digits == [] || !AllDigits(digits) then None else Some(Exponent(marker, g, digits))
  }

  function ParseMantissa(m: string, exp: Exponent): Option<Body> {
    var d := Find(m, ".");
    var frac := if d < |m| then Some(m[d + 1..]) else None;
    if !AllDigits(m[..d]) || (frac.Some? && !AllDigits(frac.value)) || (d == 0 && (frac.None? || frac.value == [])) then None
    else Some(Dec(m[..d], frac, exp))
  }

  function ParseDecimal(t: string): Option<Body> {
    var e := Find(t, "eE");
    if e == |t| then ParseMantissa(t, NoExponent)
    else
      match ParseExponent(t[e], t[e + 1..])
      case None => None
      case Some(exp) => ParseMantissa(t[..e], exp)
  }

  function ParseBody(t: string): Option<Body> {
    if SameWord(t, "inf") || SameWord(t, "infinity") || SameWord(t, "nan") then Some(Word(t)) else ParseDecimal(t)
  }

  function ParseF64(t: string): Option<Double> {
    var (g, rest) := SplitSign(t);
    match ParseBody(rest)
    case None => None
    case Some(b) =>
      BodyIsText(rest);
      Some(Meaning(Number("", g, b)))
  }

  // ---- Whatever is accepted is a number ----

  lemma Regroup(a: string, b: string, c: string)
    ensures a + (b + c) == (a + b) + c
  {
  }

  lemma DigitsAreDigits(s: string)
    ensures AllDigits(s) <==> AllIn(s, Digit)
  {
  }

  /** The two halves of a text around index `d`, when the character there is `c`. */
  lemma Around(t: string, d: nat, c: char)
    requires d < |t| && t[d] == c
    ensures t == t[..d] + ([c] + t[d + 1..])
  {
  }

  lemma MantissaIsText(m: string, exp: Exponent)
    requires ParseMantissa(m, exp).Some? && ExponentOk(exp, 'e')
    ensures var b := ParseMantissa(m, exp).value; BodyOk(b) && b.Dec? && BodyText(b) == m + ExponentText(exp)
  {
    hide AllDigits, AllIn, ExponentOk, ExponentText;
    var d := Find(m, ".");
    DigitsAreDigits(m[..d]);
    if d < |m| {
      DigitsAreDigits(m[d + 1..]);
      Around(m, d, '.');
      Regroup(m[..d], "." + m[d + 1..], ExponentText(exp));
    } else {
      assert m[..d] == m;
      Regroup(m, "", ExponentText(exp));
      assert m + "" == m;
    }
  }

  lemma BodyIsText(t: string)
    requires ParseBody(t).Some?
    ensures var b := ParseBody(t).value; BodyOk(b) && !b.Hex? && BodyText(b) == t
  {
    hide ParseMantissa, BodyOk, AllDigits, AllIn;
    if SameWord(t, "inf") || SameWord(t, "infinity") || SameWord(t, "nan") {
      WordIsText(t);
    } else {
      var e := Find(t, "eE");
      if e == |t| {
        MantissaIsText(t, NoExponent);
        assert t + "" == t;
      } else {
        ExponentIsText(t[e], t[e + 1..]);
        MantissaIsText(t[..e], ParseExponent(t[e], t[e + 1..]).value);
        Around(t, e, t[e]);
      }
    }
  }

  lemma WordIsText(t: string)
    requires SameWord(t, "inf") || SameWord(t, "infinity") || SameWord(t, "nan")
    ensures BodyOk(Word(t))
  {
  }

  lemma ExponentIsText(marker: char, t: string)
    requires marker in "eE" && ParseExponent(marker, t).Some?
    ensures var e := ParseExponent(marker, t).value; ExponentOk(e, 'e') && ExponentText(e) == [marker] + t
  {
    DigitsAreDigits(SplitSign(t).1);
  }

  /** The parser accepts only numbers of the grammar, with no space and no hex, and gives each its value. */
  lemma AcceptedIsNumber(t: string) returns (n: Number)
    requires ParseF64(t).Some?
    ensures NumberOk(n) && n.space == [] && !n.body.Hex? && Text(n) == t && ParseF64(t) == Some(Meaning(n))
  {
    var (g, rest) := SplitSign(t);
    BodyIsText(rest);
    n := Number("", g, ParseBody(rest).value);
  }

  // ---- Every such number is accepted ----

  lemma {:induction false} FindAt(t: string, marks: string, k: nat)
    requires k <= |t| && (k < |t| ==> t[k] in marks) && forall j :: 0 <= j < k ==> t[j] !in marks
    ensures Find(t, marks) == k
  {
    if k > 0 {
      FindAt(t[1..], marks, k - 1);
    }
  }

  lemma SplitSignOf(g: Sign, rest: string)
    requires rest != [] && rest[0] != '-' && rest[0] != '+'
    ensures SplitSign(SignText(g) + rest) == (g, rest)
  {
    assert (SignText(g) + rest)[|SignText(g)|..] == rest;
  }

  lemma Halves(m: string, c: char, rest: string)
    ensures var t := m + ([c] + rest); t[..|m|] == m && t[|m|] == c && t[|m| + 1..] == rest
  {
  }

  lemma MantissaOf(whole: string, frac: Option<string>, exp: Exponent)
    requires BodyOk(Dec(whole, frac, exp))
    ensures ParseMantissa(whole + FracText(frac), exp) == Some(Dec(whole, frac, exp))
  {
    hide AllDigits, AllIn, ExponentOk;
    var m := whole + FracText(frac);
    DigitsAreDigits(whole);
    NoMarkIn(whole, ".");
    FindAt(m, ".", |whole|);
    if frac.Some? {
      DigitsAreDigits(frac.value);
      Halves(whole, '.', frac.value);
    } else {
      assert m == whole;
    }
  }

  lemma NoMarkIn(digits: string, marks: string)
    requires AllIn(digits, Digit) && forall c :: c in marks ==> !IsDigit(c)
    ensures forall j :: 0 <= j < |digits| ==> digits[j] !in marks
  {
  }

  lemma ExponentOf(exp: Exponent)
    requires ExponentOk(exp, 'e') && exp.Exponent?
    ensures exp.marker in "eE" && ParseExponent(exp.marker, SignText(exp.sign) + exp.digits) == Some(exp)
  {
    hide AllDigits, Find, ParseMantissa;
    DigitsAreDigits(exp.digits);
    SplitSignOf(exp.sign, exp.digits);
    assert Lower(exp.marker) == 'e';
  }

  /** The mantissa ends at the marker. */
  lemma MarkerAt(whole: string, frac: Option<string>, exp: Exponent)
    requires BodyOk(Dec(whole, frac, exp))
    ensures MantissaText(whole, frac, exp) == (whole + FracText(frac)) + ExponentText(exp)
    ensures Find(MantissaText(whole, frac, exp), "eE") == |whole + FracText(frac)|
  {
    var m, t := whole + FracText(frac), MantissaText(whole, frac, exp);
    Regroup(whole, FracText(frac), ExponentText(exp));
    NoMarkIn(whole, "eE");
    if frac.Some? {
      NoMarkIn(frac.value, "eE");
    }
    if exp.Exponent? {
      ExponentOf(exp);
    }
    hide AllIn, ExponentOk, Find, SignText;
    FindAt(t, "eE", |m|);
  }

  lemma DecimalOf(whole: string, frac: Option<string>, exp: Exponent)
    requires BodyOk(Dec(whole, frac, exp))
    ensures ParseDecimal(MantissaText(whole, frac, exp)) == Some(Dec(whole, frac, exp))
  {
    hide Find, ParseMantissa, ParseExponent, AllIn, FracText, MantissaText, ExponentOk, SignText;
    var m, t := whole + FracText(frac), MantissaText(whole, frac, exp);
    MarkerAt(whole, frac, exp);
    MantissaOf(whole, frac, exp);
    if exp.Exponent? {
      ExponentOf(exp);
      Halves(m, exp.marker, SignText(exp.sign) + exp.digits);
    } else {
      assert t == m;
    }
  }

  /** Rust's float parser accepts every number without leading space or hex, as the value it denotes. */
  lemma ParseF64OfNumber(n: Number)
    requires NumberOk(n) && n.space == [] && !n.body.Hex?
    ensures ParseF64(Text(n)) == Some(Meaning(n))
  {
    hide Meaning, ParseDecimal, AllIn;
    var rest := BodyText(n.body);
    BodyFirst(n.body);
    SplitSignOf(n.sign, rest);
    assert Text(n) == SignText(n.sign) + rest;
    if n.body.Dec? {
      NotWordStart(n.body);
      DecimalOf(n.body.whole, n.body.frac, n.body.exp);
    }
  }
}
