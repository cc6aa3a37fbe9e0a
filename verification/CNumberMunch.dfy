/**
 Maximal munch: no prefix of the input longer than the scanned one is in the grammar, and a prefix
 of the same length has the scanned tree as its only reading.
*/
module CNumberMunch {
  import opened CNumberGrammar
  import opened CNumberScanner
  import opened Decimal
  import opened Wrappers

  // ---- Text standing inside a longer string ----

  /** `t` stands in `r` from position `i` on. */
  ghost predicate Stands(r: string, i: nat, t: string) {
    i + |t| <= |r| && forall x {:trigger t[x]} :: 0 <= x < |t| ==> r[i + x] == t[x]
  }

  lemma StandsSplit(r: string, i: nat, a: string, b: string)
    requires Stands(r, i, a + b)
    ensures Stands(r, i, a) && Stands(r, i + |a|, b)
  {
    var t := a + b;
    forall x | 0 <= x < |a|
      ensures r[i + x] == a[x]
    {
      assert t[x] == a[x];
    }
    forall x | 0 <= x < |b|
      ensures r[i + |a| + x] == b[x]
    {
      assert t[|a| + x] == b[x];
    }
  }

  lemma StandsAt(r: string, i: nat, t: string, k: nat)
    requires Stands(r, i, t) && k < |t|
    ensures r[i + k] == t[k]
  {
  }

  lemma StandsSlice(r: string, i: nat, t: string)
    requires Stands(r, i, t)
    ensures t == r[i..i + |t|]
  {
  }

  lemma PrefixStands(r: string, t: string)
    requires t <= r
    ensures Stands(r, 0, t)
  {
  }

  lemma SuffixStands(s: string, b: nat, t: string)
    requires Stands(s, b, t)
    ensures Stands(s[b..], 0, t)
  {
    forall x | 0 <= x < |t|
      ensures s[b..][x] == t[x]
    {
      assert s[b..][x] == s[b + x];
    }
  }

  lemma RestStands(r: string, i: nat, t: string)
    requires Stands(r, i, t) && t != []
    ensures Stands(r, i + 1, t[1..])
  {
    forall x | 0 <= x < |t[1..]|
      ensures r[i + 1 + x] == t[1..][x]
    {
      assert t[1..][x] == t[1 + x];
    }
  }

  // ---- Runs, exponents, mantissas ----

  /** A run cannot stop before text that is all in its class. */
  lemma {:induction false} RunCovers(r: string, i: nat, t: string, k: Class)
    requires Stands(r, i, t) && AllIn(t, k)
    ensures i + |t| <= RunEnd(r, i, k)
    ensures (i + |t| == |r| || !In(r[i + |t|], k)) ==> RunEnd(r, i, k) == i + |t|
    decreases |t|
  {
    if t != [] {
      StandsAt(r, i, t, 0);
      RestStands(r, i, t);
      RunCovers(r, i + 1, t[1..], k);
    }
  }

  lemma ExponentParts(r: string, i: nat, e: Exponent)
    requires e.Exponent? && Stands(r, i, ExponentText(e))
    ensures i < |r| && r[i] == e.marker
    ensures Stands(r, i + 1, SignText(e.sign)) && (e.sign != NoSign ==> r[i + 1] == SignText(e.sign)[0])
    ensures Stands(r, i + 1 + |SignText(e.sign)|, e.digits)
  {
    StandsSplit(r, i, [e.marker], SignText(e.sign) + e.digits);
    StandsSplit(r, i + 1, SignText(e.sign), e.digits);
    StandsAt(r, i, [e.marker], 0);
    if e.sign != NoSign {
      StandsAt(r, i + 1, SignText(e.sign), 0);
    }
  }

  lemma MunchExponent(r: string, i: nat, e: Exponent, marker: char)
    requires ExponentOk(e, marker) && Stands(r, i, ExponentText(e))
    ensures i + |ExponentText(e)| <= ExponentEnd(r, i, marker)
    ensures i + |ExponentText(e)| == ExponentEnd(r, i, marker) ==> e == ScanExponent(r, i, marker)
  {
    if e.Exponent? {
      ExponentParts(r, i, e);
      var d := i + 1 + |SignText(e.sign)|;
      StandsAt(r, d, e.digits, 0);
      assert SignAt(r, i + 1) == e.sign && DigitsStart(r, i) == d;
      RunCovers(r, d, e.digits, Digit);
      StandsSlice(r, d, e.digits);
    }
  }

  lemma MantissaParts(r: string, i: nat, whole: string, frac: Option<string>, exp: Exponent)
    requires Stands(r, i, MantissaText(whole, frac, exp))
    ensures Stands(r, i, whole)
    ensures Stands(r, i + |whole|, FracText(frac))
    ensures Stands(r, i + |whole| + |FracText(frac)|, ExponentText(exp))
  {
    StandsSplit(r, i, whole, FracText(frac) + ExponentText(exp));
    StandsSplit(r, i + |whole|, FracText(frac), ExponentText(exp));
  }

  lemma FracRun(r: string, w: nat, f: string, k: Class)
    requires Stands(r, w, FracText(Some(f))) && AllIn(f, k) && k != Space
    ensures At(r, w, '.') && !In(r[w], k)
    ensures Stands(r, w + 1, f) && w + 1 + |f| <= RunEnd(r, w + 1, k)
    ensures (w + 1 + |f| == |r| || !In(r[w + 1 + |f|], k)) ==> RunEnd(r, w + 1, k) == w + 1 + |f|
  {
    StandsAt(r, w, FracText(Some(f)), 0);
    StandsSplit(r, w, ".", f);
    RunCovers(r, w + 1, f, k);
  }

  ghost predicate ClassOfMarker(k: Class, marker: char) {
    (k == HexDigit && marker == 'p') || (k == Digit && marker == 'e')
  }

  lemma MarkerAt(r: string, end: nat, exp: Exponent, k: Class, marker: char)
    requires exp.Exponent? && ExponentOk(exp, marker) && Stands(r, end, ExponentText(exp)) && ClassOfMarker(k, marker)
    ensures end < |r| && !In(r[end], k) && r[end] != '.'
  {
    StandsAt(r, end, ExponentText(exp), 0);
  }

  /** Where the runs at `i` end when a mantissa with these parts stands there. */
  lemma MantissaRuns(r: string, i: nat, whole: string, frac: Option<string>, exp: Exponent, k: Class, marker: char)
    requires Stands(r, i, MantissaText(whole, frac, exp)) && ClassOfMarker(k, marker)
    requires AllIn(whole, k) && (frac.Some? ==> AllIn(frac.value, k)) && ExponentOk(exp, marker)
    ensures i + |whole| <= RunEnd(r, i, k)
    ensures frac.Some? ==>
              && RunEnd(r, i, k) == i + |whole| && At(r, i + |whole|, '.')
              && i + |whole| + 1 + |frac.value| <= RunEnd(r, i + |whole| + 1, k)
              && (exp.Exponent? ==> i + |whole| + 1 + |frac.value| == RunEnd(r, i + |whole| + 1, k))
    ensures frac.None? && exp.Exponent? ==> RunEnd(r, i, k) == i + |whole| && !At(r, i + |whole|, '.')
  {
    hide Stands, MantissaText, ExponentText, RunEnd, AllIn, ExponentOk;
    MantissaParts(r, i, whole, frac, exp);
    RunCovers(r, i, whole, k);
    if exp.Exponent? {
      MarkerAt(r, i + |whole| + |FracText(frac)|, exp, k, marker);
    }
    if frac.Some? {
      FracRun(r, i + |whole|, frac.value, k);
    }
  }

  /** Parts that end where the scanned ones do are the scanned ones. */
  lemma MantissaUnique(r: string, i: nat, m: nat, whole: string, frac: Option<string>, exp: Exponent, marker: char)
    requires Stands(r, i, MantissaText(whole, frac, exp)) && ExponentOk(exp, marker)
    requires m == i + |whole| + |FracText(frac)| && m + |ExponentText(exp)| == ExponentEnd(r, m, marker)
    ensures whole == r[i..i + |whole|]
    ensures frac == FracBetween(r, i + |whole|, m)
    ensures exp == ScanExponent(r, m, marker)
  {
    hide ExponentEnd, ScanExponent, In, MantissaText, ExponentText, ExponentOk;
    MantissaParts(r, i, whole, frac, exp);
    MunchExponent(r, m, exp, marker);
    StandsSlice(r, i, whole);
    if frac.Some? {
      StandsSplit(r, i + |whole|, ".", frac.value);
      StandsSlice(r, i + |whole| + 1, frac.value);
    }
  }

  // ---- Bodies ----

  lemma HexParts(r: string, b: Body)
    requires b.Hex? && Stands(r, 0, BodyText(b))
    ensures |r| >= 2 && r[0] == '0' && r[1] == b.x
    ensures Stands(r, 2, MantissaText(b.whole, b.frac, b.exp))
  {
    StandsSplit(r, 0, ['0', b.x], MantissaText(b.whole, b.frac, b.exp));
    StandsAt(r, 0, ['0', b.x], 0);
    StandsAt(r, 0, ['0', b.x], 1);
  }

  /** The mantissa ends no later than the scanned one, and exactly there if an exponent follows it. */
  lemma HexMantissaCovers(r: string, b: Body)
    requires b.Hex? && BodyOk(b) && Stands(r, 0, BodyText(b))
    ensures StartsHex(r)
    ensures var m := 2 + |b.whole| + |FracText(b.frac)|;
            && 2 < m <= HexMantissaEnd(r)
            && (b.exp.Exponent? ==> HexMantissaEnd(r) == m)
            && (HexMantissaEnd(r) == m ==> RunEnd(r, 2, HexDigit) == 2 + |b.whole|)
  {
    hide ExponentEnd, ScanExponent, In, Stands, RunEnd, AllIn, ExponentOk, MantissaText, ExponentText, BodyText;
    HexParts(r, b);
    MantissaRuns(r, 2, b.whole, b.frac, b.exp, HexDigit, 'p');
  }

  lemma HexTextLength(b: Body)
    requires b.Hex?
    ensures |BodyText(b)| == 2 + |b.whole| + |FracText(b.frac)| + |ExponentText(b.exp)|
    ensures b.exp.NoExponent? ==> ExponentText(b.exp) == ""
  {
  }

  lemma MunchHex(r: string, b: Body)
    requires b.Hex? && BodyOk(b) && Stands(r, 0, BodyText(b))
    ensures StartsHex(r) && HexMantissaEnd(r) > 2
    ensures |BodyText(b)| <= ExponentEnd(r, HexMantissaEnd(r), 'p')
    ensures |BodyText(b)| == ExponentEnd(r, HexMantissaEnd(r), 'p') ==> b == ScanHex(r)
  {
    hide ExponentEnd, ScanExponent, In, Stands, RunEnd, AllIn, ExponentOk, HexMantissaEnd, BodyText, MantissaText,
         ExponentText, FracText, FracBetween, SignText;
    HexTextLength(b);
    HexMantissaCovers(r, b);
    HexParts(r, b);
    MantissaParts(r, 2, b.whole, b.frac, b.exp);
    var m := 2 + |b.whole| + |FracText(b.frac)|;
    MunchExponent(r, m, b.exp, 'p');
    if m + |ExponentText(b.exp)| == ExponentEnd(r, HexMantissaEnd(r), 'p') {
      MantissaUnique(r, 2, m, b.whole, b.frac, b.exp, 'p');
    }
  }

  lemma MunchDec(r: string, b: Body)
    requires b.Dec? && BodyOk(b) && Stands(r, 0, BodyText(b))
    ensures ScanDec(r).Some?
    ensures |BodyText(b)| <= ExponentEnd(r, DecMantissaEnd(r), 'e')
    ensures |BodyText(b)| == ExponentEnd(r, DecMantissaEnd(r), 'e') ==> b == ScanDec(r).value
  {
    hide ExponentEnd, ScanExponent, In, Stands, RunEnd, AllIn, ExponentOk;
    MantissaRuns(r, 0, b.whole, b.frac, b.exp, Digit, 'e');
    MantissaParts(r, 0, b.whole, b.frac, b.exp);
    var m := |b.whole| + |FracText(b.frac)|;
    MunchExponent(r, m, b.exp, 'e');
    assert b.exp.Exponent? ==> DecMantissaEnd(r) == m;
    assert m <= DecMantissaEnd(r);
    if m + |ExponentText(b.exp)| == ExponentEnd(r, DecMantissaEnd(r), 'e') {
      assert DecMantissaEnd(r) == m && RunEnd(r, 0, Digit) == |b.whole|;
      MantissaUnique(r, 0, m, b.whole, b.frac, b.exp, 'e');
    }
  }

  /** After "0x" the only decimal prefix is the "0" itself. */
  lemma DecBeforeX(r: string, b: Body)
    requires b.Dec? && BodyOk(b) && Stands(r, 0, BodyText(b)) && StartsHex(r)
    ensures b == Dec("0", None, NoExponent)
  {
    MantissaRuns(r, 0, b.whole, b.frac, b.exp, Digit, 'e');
    MantissaParts(r, 0, b.whole, b.frac, b.exp);
    assert RunEnd(r, 0, Digit) == 1 && DecMantissaEnd(r) == 1;
    MunchExponent(r, |b.whole| + |FracText(b.frac)|, b.exp, 'e');
    StandsSlice(r, 0, b.whole);
  }

  /** A body that is not a word starts with a digit or a dot, so no word prefix competes with it. */
  lemma NotWordStart(b: Body)
    requires !b.Word? && BodyOk(b)
    ensures BodyText(b) != []
    ensures IsDigit(BodyText(b)[0]) || BodyText(b)[0] == '.'
  {
    if b.Hex? {
      assert BodyText(b)[0] == '0';
    } else if b.whole == [] {
      assert FracText(b.frac)[0] == '.';
      assert BodyText(b)[0] == FracText(b.frac)[0];
    } else {
      assert BodyText(b)[0] == b.whole[0];
    }
  }

  lemma WordStart(r: string, w: string)
    requires w != [] && 'a' <= w[0] <= 'z' && r != []
    ensures StartsWithWord(r, w) ==> Lower(r[0]) == w[0]
  {
    assert |w| <= |r| ==> r[..|w|][0] == r[0];
  }

  lemma MunchWord(r: string, t: string)
    requires BodyOk(Word(t)) && Stands(r, 0, t)
    ensures ScanBody(r).Some? && ScanBody(r).value.Word?
    ensures |t| <= |ScanBody(r).value.text|
    ensures |t| == |ScanBody(r).value.text| ==> t == ScanBody(r).value.text
  {
    StandsSlice(r, 0, t);
    StandsAt(r, 0, t, 0);
    WordStart(r, "infinity");
    WordStart(r, "inf");
    WordStart(t, "nan");
    WordStart(t, "inf");
    WordStart(t, "infinity");
    assert t[..|t|] == t;
  }

  lemma MunchBody(r: string, b: Body)
    requires BodyOk(b) && Stands(r, 0, BodyText(b))
    ensures ScanBody(r).Some?
    ensures |BodyText(b)| <= |BodyText(ScanBody(r).value)|
    ensures |BodyText(b)| == |BodyText(ScanBody(r).value)| ==> b == ScanBody(r).value
  {
    if b.Word? {
      MunchWord(r, b.text);
    } else {
      NotWordStart(b);
      StandsAt(r, 0, BodyText(b), 0);
      WordStart(r, "infinity");
      WordStart(r, "inf");
      WordStart(r, "nan");
      if b.Hex? {
        MunchHex(r, b);
        ScanHexSound(r);
      } else if StartsHex(r) {
        DecBeforeX(r, b);
        ScanHexSound(r);
      } else {
        MunchDec(r, b);
        ScanDecSound(r);
      }
    }
  }

  /** A body starts with something that is neither white space nor a sign. */
  lemma BodyFirst(b: Body)
    requires BodyOk(b)
    ensures BodyText(b) != []
    ensures !In(BodyText(b)[0], Space) && BodyText(b)[0] != '-' && BodyText(b)[0] != '+'
  {
    if b.Word? {
      assert Lower(b.text[0]) == 'i' || Lower(b.text[0]) == 'n';
    } else {
      NotWordStart(b);
    }
  }

  // ---- The whole number ----

  /** The spaces and sign in front of a number of the grammar are the ones the scanner skips. */
  lemma BodyStands(s: string, n: Number)
    requires NumberOk(n) && Text(n) <= s
    ensures SignStart(s) == |n.space| && n.space == s[..|n.space|]
    ensures SignAt(s, SignStart(s)) == n.sign
    ensures Stands(s[BodyStart(s)..], 0, BodyText(n.body))
  {
    hide Stands, RunEnd, BodyText, BodyOk;
    var body := BodyText(n.body);
    var i := |n.space|;
    var b := i + |SignText(n.sign)|;
    PrefixStands(s, Text(n));
    StandsSplit(s, 0, n.space, SignText(n.sign) + body);
    StandsSplit(s, i, SignText(n.sign), body);
    BodyFirst(n.body);
    StandsAt(s, b, body, 0);
    if n.sign != NoSign {
      StandsAt(s, i, SignText(n.sign), 0);
    }
    RunCovers(s, 0, n.space, Space);
    StandsSlice(s, 0, n.space);
    SuffixStands(s, b, body);
  }

  /** The longest prefix wins, and the tree scanned is the only one with that text. */
  lemma Munch(s: string, n: Number)
    requires NumberOk(n) && Text(n) <= s
    ensures Scan(s).Some?
    ensures |Text(n)| <= |Text(Scan(s).value)|
    ensures |Text(n)| == |Text(Scan(s).value)| ==> n == Scan(s).value
  {
    BodyStands(s, n);
    MunchBody(s[BodyStart(s)..], n.body);
  }

  /** Maximal munch, both directions: something is scanned exactly when some prefix is a number. */
  lemma MaximalMunch(s: string)
    ensures Scan(s).None? <==> forall k :: 0 <= k <= |s| ==> !IsNumber(s[..k])
    ensures Scan(s).Some? ==>
              var n := |Text(Scan(s).value)|;
              n <= |s| && IsNumber(s[..n]) && forall k :: n < k <= |s| ==> !IsNumber(s[..k])
  {
    if Scan(s).Some? {
      ScanSound(s);
    }
    forall k | 0 <= k <= |s| && IsNumber(s[..k])
      ensures Scan(s).Some? && k <= |Text(Scan(s).value)|
    {
      var m :| NumberOk(m) && Text(m) == s[..k];
      Munch(s, m);
    }
  }

  /** A number's text has only one reading. */
  lemma Unambiguous(m: Number, n: Number)
    requires NumberOk(m) && NumberOk(n) && Text(m) == Text(n)
    ensures m == n
  {
    Munch(Text(n), m);
    Munch(Text(n), n);
    ScanSound(Text(n));
  }
}
