/**
 The unit-suffix step (`unit_suffix_scaled`), and why a scanner that backs up over several bytes may
 stand in for one that, like scanf, can push back a single byte.
*/
module CUnitSuffix {
  import opened CNumberGrammar
  import opened CNumberMunch
  import opened CNumberScanner
  import opened CStrtod
  import opened Decimal
  import opened Wrappers

  datatype UnitError = BadUnit

  predicate IsUnit(c: char) {
    var l := Lower(c);
    l == 't' || l == 'g' || l == 'm' || l == 'k'
  }

  function UnitPower(c: char): nat
    requires IsUnit(c)
  {
    var l := Lower(c);
    if l == 't' then 4 else if l == 'g' then 3 else if l == 'm' then 2 else 1
  }

  function Times(v: Double, f: real): Double {
    if v.Finite? then Finite(v.v * f) else v
  }

  /** The step after the number: end of string, one unit, or an error; later bytes are never read. */
  function Suffixed(s: string, number: Option<(Double, nat)>, base: real): Result<Double, UnitError>
    requires number.Some? ==> number.value.1 <= |s|
  {
    match number
    case None => Err(BadUnit)
    case Some((v, end)) =>
      if end == |s| then Ok(v)
      else if IsUnit(s[end]) then Ok(Times(v, Pow(base, UnitPower(s[end]))))
      else Err(BadUnit)
  }

  function UnitSuffixScaled(s: string, base: real): Result<Double, UnitError> {
    Suffixed(s, Strtod(s), base)
  }

  // ---- scanf: one byte of push-back ----

  /** `t` can still grow into a number. */
  ghost predicate Viable(t: string) {
    exists n :: NumberOk(n) && t <= Text(n)
  }

  /** The bytes scanf consumes: it reads on as long as what it has read can still become a number. */
  ghost function LongestViable(s: string, k: nat): (m: nat)
    requires k <= |s|
    ensures m <= k && (m == 0 || Viable(s[..m]))
    ensures forall j :: m < j <= k ==> !Viable(s[..j])
  {
    if k == 0 || Viable(s[..k]) then k else LongestViable(s, k - 1)
  }

  /** scanf's %lf: what was consumed must be a number, whole; having read too far is a failure. */
  ghost function ScanfDouble(s: string): (r: Option<(Double, nat)>)
    ensures r.Some? ==> r.value.1 <= |s|
  {
    var m := LongestViable(s, |s|);
    if IsNumber(s[..m]) then
      var n :| NumberOk(n) && Text(n) == s[..m];
      Some((Meaning(n), m))
    else None
  }

  ghost function ScanfUnit(s: string, base: real): Result<Double, UnitError> {
    Suffixed(s, ScanfDouble(s), base)
  }

  lemma ViablePrefix(s: string, i: nat, j: nat)
    requires i <= j <= |s| && Viable(s[..j])
    ensures Viable(s[..i])
  {
    var n :| NumberOk(n) && s[..j] <= Text(n);
    assert s[..i] == s[..j][..i];
    assert s[..i] <= Text(n);
  }

  lemma NumberIsViable(t: string)
    requires IsNumber(t)
    ensures Viable(t)
  {
    var n :| NumberOk(n) && Text(n) == t;
    assert t <= Text(n);
  }

  // ---- A unit letter never continues a number ----

  predicate NoUnit(s: string) {
    forall i :: 0 <= i < |s| ==> !IsUnit(s[i])
  }

  lemma NoUnitJoin(a: string, b: string)
    requires NoUnit(a) && NoUnit(b)
    ensures NoUnit(a + b)
  {
  }

  lemma NoUnitMantissa(whole: string, frac: Option<string>, exp: Exponent, k: Class, marker: char)
    requires AllIn(whole, k) && (frac.Some? ==> AllIn(frac.value, k)) && ExponentOk(exp, marker)
    requires k != Space && (marker == 'p' || marker == 'e')
    ensures NoUnit(MantissaText(whole, frac, exp))
  {
    if frac.Some? {
      NoUnitJoin(".", frac.value);
    }
    if exp.Exponent? {
      NoUnitJoin(SignText(exp.sign), exp.digits);
      NoUnitJoin([exp.marker], SignText(exp.sign) + exp.digits);
    }
    NoUnitJoin(FracText(frac), ExponentText(exp));
    NoUnitJoin(whole, FracText(frac) + ExponentText(exp));
  }

  lemma NoUnitNumber(n: Number)
    requires NumberOk(n) && !n.body.Word?
    ensures NoUnit(Text(n))
  {
    var b := n.body;
    if b.Hex? {
      NoUnitMantissa(b.whole, b.frac, b.exp, HexDigit, 'p');
      NoUnitJoin(['0', b.x], MantissaText(b.whole, b.frac, b.exp));
    } else {
      NoUnitMantissa(b.whole, b.frac, b.exp, Digit, 'e');
    }
    NoUnitJoin(SignText(n.sign), BodyText(b));
    NoUnitJoin(n.space, SignText(n.sign) + BodyText(b));
  }

  /** The only unit letter in a word is the t of "infinity", and "infini" is not a word. */
  lemma UnitInWord(text: string, k: nat)
    requires BodyOk(Word(text)) && k < |text| && IsUnit(text[k])
    ensures k == 6 && |text| == 8
  {
    var w := if SameWord(text, "inf") then "inf" else if SameWord(text, "nan") then "nan" else "infinity";
    assert Lower(text[k]) == w[k];
  }

  /** Two numbers, one a prefix of the other, share their spaces and sign; the bodies nest too. */
  lemma NestedNumbers(m: Number, n: Number)
    requires NumberOk(m) && NumberOk(n) && Text(m) <= Text(n)
    ensures m.space == n.space && m.sign == n.sign
    ensures Stands(BodyText(n.body), 0, BodyText(m.body))
  {
    var s := Text(n);
    BodyStands(s, m);
    BodyStands(s, n);
    assert s[BodyStart(s)..] == BodyText(n.body);
  }

  lemma WordPrefixIsWord(m: Body, n: Body)
    requires BodyOk(m) && BodyOk(n) && n.Word? && Stands(BodyText(n), 0, BodyText(m))
    ensures m.Word?
  {
    BodyFirst(m);
    StandsAt(BodyText(n), 0, BodyText(m), 0);
    assert Lower(n.text[0]) == 'i' || Lower(n.text[0]) == 'n';
    if !m.Word? {
      NotWordStart(m);
    }
  }

  lemma UnitEndsNumber(m: Number, n: Number)
    requires NumberOk(m) && NumberOk(n) && Text(m) < Text(n)
    ensures !IsUnit(Text(n)[|Text(m)|])
  {
    if n.body.Word? {
      NestedNumbers(m, n);
      WordPrefixIsWord(m.body, n.body);
      var k := |m.body.text|;
      assert Text(n)[|Text(m)|] == n.body.text[k];
      if IsUnit(n.body.text[k]) {
        UnitInWord(n.body.text, k);
      }
    } else {
      NoUnitNumber(n);
    }
  }

  /** A unit letter right after a number stops scanf there. */
  lemma UnitIsNotViable(s: string, k: nat)
    requires k < |s| && IsNumber(s[..k]) && IsUnit(s[k])
    ensures !Viable(s[..k + 1])
  {
    if Viable(s[..k + 1]) {
      var n :| NumberOk(n) && s[..k + 1] <= Text(n);
      var m :| NumberOk(m) && Text(m) == s[..k];
      assert s[..k] == s[..k + 1][..k];
      assert Text(n)[k] == s[..k + 1][k];
      UnitEndsNumber(m, n);
    }
  }

  // ---- The equivalence ----

  /**
   scanf fails exactly where strtod finds nothing or would back up, that is, when the byte after the
   longest number could still have led to another one; otherwise the two agree.
  */
  lemma ScanfFailsWhereStrtodBacksUp(s: string)
    ensures Strtod(s).None? ==> ScanfDouble(s).None?
    ensures Strtod(s).Some? ==>
              var n := Strtod(s).value.1;
              && (ScanfDouble(s).None? <==> n < |s| && Viable(s[..n + 1]))
              && (ScanfDouble(s).Some? ==> ScanfDouble(s) == Strtod(s))
  {
    MaximalMunch(s);
    var m := LongestViable(s, |s|);
    if Strtod(s).Some? {
      ScanSound(s);
      var n := Strtod(s).value.1;
      NumberIsViable(s[..n]);
      if n < |s| && Viable(s[..n + 1]) {
        assert n < m;
      } else {
        if n < m {
          ViablePrefix(s, n + 1, m);
        }
        assert m == n;
        OneMeaning(s[..n], Scan(s).value);
      }
    }
  }

  lemma OneMeaning(t: string, n: Number)
    requires NumberOk(n) && Text(n) == t
    ensures forall m :: NumberOk(m) && Text(m) == t ==> m == n
  {
    forall m | NumberOk(m) && Text(m) == t
      ensures m == n
    {
      Unambiguous(m, n);
    }
  }

  /** On every input the suffix step cannot tell strtod's multi-byte back-up from scanf's failure. */
  lemma ScannersAgree(s: string, base: real)
    ensures UnitSuffixScaled(s, base) == ScanfUnit(s, base)
  {
    hide Scan, Text, Meaning, LongestViable, IsNumber, ScanfDouble, Viable, Times, UnitPower, Pow;
    ScanfFailsWhereStrtodBacksUp(s);
    if Strtod(s).Some? {
      MaximalMunch(s);
      var n := Strtod(s).value.1;
      if n < |s| && IsUnit(s[n]) {
        UnitIsNotViable(s, n);
      }
    }
  }

  /** Bytes appended after an accepted suffix never change the value. */
  lemma JunkAfterSuffixIgnored(s: string, base: real, junk: string)
    requires UnitSuffixScaled(s, base).Ok? && Strtod(s).value.1 < |s|
    ensures UnitSuffixScaled(s + junk, base) == UnitSuffixScaled(s, base)
  {
    hide Times, UnitPower, Pow, NumberOk, Text, Meaning, Scan, Viable;
    var t := s + junk;
    ScanSound(s);
    var n := Scan(s).value;
    var k := |Text(n)|;
    assert t[..k] == s[..k];
    Munch(t, n);
    ScanSound(t);
    var m := Scan(t).value;
    if |Text(m)| > k {
      assert t[..k + 1] == s[..k + 1];
      UnitIsNotViable(s, k);
      NumberIsViable(t[..|Text(m)|]);
      ViablePrefix(t, k + 1, |Text(m)|);
      assert false;
    }
    Munch(t, m);
  }

  lemma PrefixOfJoin(a: string, b: string)
    ensures (a + b)[..|a|] == a
  {
  }

  /** Every number of the grammar with one unit after it is accepted, whatever follows. */
  lemma NumberThenUnit(n: Number, unit: char, junk: string, base: real)
    requires NumberOk(n) && IsUnit(unit)
    ensures UnitSuffixScaled(Text(n) + ([unit] + junk), base) == Ok(Times(Meaning(n), Pow(base, UnitPower(unit))))
  {
    hide Times, UnitPower, Pow, NumberOk, Text, Meaning, Scan;
    var s := Text(n) + ([unit] + junk);
    var k := |Text(n)|;
    PrefixOfJoin(Text(n), [unit] + junk);
    assert s[k] == unit;
    StrtodIsLongestNumber(s, n);
    MaximalMunch(s);
    UnitIsNotViable(s, k);
    var end := Strtod(s).value.1;
    NumberIsViable(s[..end]);
    if end > k {
      ViablePrefix(s, k + 1, end);
    }
  }

  /** A number alone is its own value. */
  lemma NumberAlone(n: Number, base: real)
    requires NumberOk(n)
    ensures UnitSuffixScaled(Text(n), base) == Ok(Meaning(n))
  {
    StrtodOfNumber(n);
  }

  /** A number times a factor; the words stay what they are. */
  function ScaledBy(v: Double, factor: real): Double {
    match v
    case Finite(x) => Finite(x * factor)
    case _ => v
  }

  /** Every unit by its letter: T four times the base, G three, M two, K one; words keep their value. */
  lemma UnitsByLetter(n: Number, unit: char, junk: string, base: real)
    requires NumberOk(n)
    ensures var r := UnitSuffixScaled(Text(n) + ([unit] + junk), base);
            && (unit == 't' || unit == 'T' ==> r == Ok(ScaledBy(Meaning(n), base * base * base * base)))
            && (unit == 'g' || unit == 'G' ==> r == Ok(ScaledBy(Meaning(n), base * base * base)))
            && (unit == 'm' || unit == 'M' ==> r == Ok(ScaledBy(Meaning(n), base * base)))
            && (unit == 'k' || unit == 'K' ==> r == Ok(ScaledBy(Meaning(n), base)))
  {
    hide NumberOk, Text, Meaning, UnitSuffixScaled, Pow, UnitPower, Times, ScaledBy;
    UnitLetters(unit);
    if unit in "tTgGmMkK" {
      NumberThenUnit(n, unit, junk, base);
      UnitFactor(unit, base);
      TimesIsScaledBy(Meaning(n), Pow(base, UnitPower(unit)));
    }
  }

  lemma TimesIsScaledBy(v: Double, f: real)
    ensures Times(v, f) == ScaledBy(v, f)
  {
  }

  lemma UnitFactor(unit: char, base: real)
    requires IsUnit(unit)
    ensures unit == 't' || unit == 'T' ==> Pow(base, UnitPower(unit)) == base * base * base * base
    ensures unit == 'g' || unit == 'G' ==> Pow(base, UnitPower(unit)) == base * base * base
    ensures unit == 'm' || unit == 'M' ==> Pow(base, UnitPower(unit)) == base * base
    ensures unit == 'k' || unit == 'K' ==> Pow(base, UnitPower(unit)) == base
  {
    hide Pow;
    PowersOfBase(base);
  }

  lemma PowersOfBase(base: real)
    ensures Pow(base, 1) == base && Pow(base, 2) == base * base && Pow(base, 3) == base * base * base
    ensures Pow(base, 4) == base * base * base * base
  {
    assert Pow(base, 0) == 1.0;
    assert Pow(base, 1) == base;
    assert Pow(base, 2) == base * base;
    assert Pow(base, 3) == base * base * base;
  }

  /** Any other character right after a number that it cannot continue is an error. */
  lemma OtherSuffixFails(n: Number, c: char, junk: string, base: real)
    requires NumberOk(n) && c !in "tTgGmMkK" && !Viable(Text(n) + [c])
    ensures UnitSuffixScaled(Text(n) + ([c] + junk), base) == Err(BadUnit)
  {
    hide Times, UnitPower, Pow, NumberOk, Text, Meaning, Scan, Viable;
    var s := Text(n) + ([c] + junk);
    var k := |Text(n)|;
    PrefixOfJoin(Text(n), [c] + junk);
    assert s[k] == c && s[..k + 1] == Text(n) + [c];
    UnitLetters(c);
    StrtodIsLongestNumber(s, n);
    MaximalMunch(s);
    var end := Strtod(s).value.1;
    NumberIsViable(s[..end]);
    if end > k {
      ViablePrefix(s, k + 1, end);
    }
  }

  lemma UnitLetters(c: char)
    ensures IsUnit(c) <==> c in "tTgGmMkK"
  {
  }

  /** Nothing that is a number at the front is an error, whatever the rest. */
  lemma NoNumberFails(s: string, base: real)
    requires forall k :: 0 <= k <= |s| ==> !IsNumber(s[..k])
    ensures UnitSuffixScaled(s, base) == Err(BadUnit)
  {
    MaximalMunch(s);
  }
}
