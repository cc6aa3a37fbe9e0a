/** The number scanner on literal text: each shape of the grammar once, and every place where it backs up. */
module NumberExamples {
  import opened CNumberGrammar
  import opened CNumberScanner
  import opened CStrtod
  import opened Decimal
  import opened Wrappers

  lemma Literals()
    ensures NatValue("0") == 0 && NatValue("1") == 1 && NatValue("2") == 2 && NatValue("5") == 5
    ensures NatValue("12") == 12
  {
    hide NatValue;
    PlaceValue("", '0');
    PlaceValue("", '1');
    PlaceValue("", '2');
    PlaceValue("", '5');
    PlaceValue("1", '2');
    assert "" + ['0'] == "0" && "" + ['1'] == "1" && "" + ['2'] == "2" && "" + ['5'] == "5" && "1" + ['2'] == "12";
  }

  lemma HexLiterals()
    ensures HexValue("1f") == 31 && HexValue("8") == 8 && HexValue("C") == 12
  {
    hide HexValue;
    HexOne("", '1');
    HexOne("1", 'f');
    HexOne("", '8');
    HexOne("", 'C');
    assert "" + ['1'] == "1" && "" + ['8'] == "8" && "" + ['C'] == "C" && "1" + ['f'] == "1f";
  }

  lemma HexOne(s: string, c: char)
    requires AllIn(s, HexDigit) && In(c, HexDigit)
    ensures AllIn(s + [c], HexDigit) && HexValue(s + [c]) == 16 * HexValue(s) + HexDigitValue(c)
    ensures HexValue("") == 0
  {
    assert (s + [c])[..|s|] == s;
  }

  lemma Powers()
    ensures Pow(10.0, 1) == 10.0 && Pow(16.0, 1) == 16.0 && Pow(2.0, 2) == 4.0
  {
    assert Pow(10.0, 0) == 1.0 && Pow(16.0, 0) == 1.0 && Pow(2.0, 1) == 2.0;
  }

  /** Spaces, a sign, a fraction and an exponent. */
  lemma ReadsDecimal()
    ensures Strtod(" -12.5E+1") == Some((Finite(-125.0), 9))
  {
    var n := Number(" ", Minus, Dec("12", Some("5"), Exponent('E', Plus, "1")));
    Literals();
    Powers();
    assert Text(n) == " -12.5E+1";
    assert NumberOk(n);
    assert Meaning(n) == Finite(-125.0);
    StrtodOfNumber(n);
  }

  lemma ReadsBarePoints()
    ensures Strtod(".5") == Some((Finite(0.5), 2)) && Strtod("5.") == Some((Finite(5.0), 2))
  {
    Literals();
    Powers();
    var n, m := Number("", NoSign, Dec("", Some("5"), NoExponent)), Number("", NoSign, Dec("5", Some(""), NoExponent));
    assert Text(n) == ".5" && Text(m) == "5.";
    assert NatValue("") == 0 && Pow(10.0, 0) == 1.0;
    assert Meaning(n) == Finite(0.5) && Meaning(m) == Finite(5.0);
    StrtodOfNumber(n);
    StrtodOfNumber(m);
  }

  /** Hex digits in both cases, a hex fraction and a binary exponent. */
  lemma ReadsHex()
    ensures Strtod("0x1f.8P-2") == Some((Finite(7.875), 9)) && Strtod("+0XC") == Some((Finite(12.0), 4))
  {
    hide Strtod;
    ReadsHexExponent();
    ReadsHexInteger();
  }

  lemma ReadsHexExponent()
    ensures Strtod("0x1f.8P-2") == Some((Finite(7.875), 9))
  {
    Literals();
    HexLiterals();
    Powers();
    var n := Number("", NoSign, Hex('x', "1f", Some("8"), Exponent('P', Minus, "2")));
    assert Text(n) == "0x1f.8P-2";
    assert Meaning(n) == Finite(7.875);
    StrtodOfNumber(n);
  }

  lemma ReadsHexInteger()
    ensures Strtod("+0XC") == Some((Finite(12.0), 4))
  {
    HexLiterals();
    var n := Number("", Plus, Hex('X', "C", None, NoExponent));
    assert Text(n) == "+0XC";
    assert Meaning(n) == Finite(12.0);
    StrtodOfNumber(n);
  }

  lemma ReadsWord(sign: Sign, text: string)
    requires SameWord(text, "infinity") || SameWord(text, "inf") || SameWord(text, "nan")
    ensures Strtod(SignText(sign) + text)
         == Some((if SameWord(text, "nan") then NaN else Infinite(sign == Minus), |SignText(sign) + text|))
  {
    hide SameWord;
    var n := Number("", sign, Word(text));
    assert Text(n) == SignText(sign) + text;
    StrtodOfNumber(n);
  }

  lemma ReadsWords()
    ensures Strtod("-InFinity") == Some((Infinite(true), 9)) && Strtod("+inf") == Some((Infinite(false), 4))
    ensures Strtod("NaN") == Some((NaN, 3))
  {
    hide Strtod;
    ReadsWord(Minus, "InFinity");
    ReadsWord(Plus, "inf");
    ReadsWord(NoSign, "NaN");
    assert Lower("inf"[0]) != "nan"[0];
    assert "-" + "InFinity" == "-InFinity" && "+" + "inf" == "+inf" && "" + "NaN" == "NaN";
  }

  /** Nothing to read. */
  lemma ReadsNothing()
    ensures Strtod("") == None && Strtod(".") == None && Strtod("+") == None && Strtod("x1") == None
  {
    assert "."[0..] == "." && "+"[1..] == "" && "x1"[0..] == "x1" && ""[0..] == "";
    assert Scan("").None? && Scan(".").None? && Scan("+").None? && Scan("x1").None?;
  }

  lemma Unscanned(s: string)
    requires s != "" && !In(s[0], Space) && s[0] != '-' && s[0] != '+'
    ensures SignStart(s) == 0 && BodyStart(s) == 0 && s[BodyStart(s)..] == s && SignAt(s, 0) == NoSign
  {
  }

  /** An exponent without a digit, a hex prefix without one, a hex point without one. */
  lemma BacksUp()
    ensures Strtod("1e") == Some((Finite(1.0), 1)) && Strtod("1e+x") == Some((Finite(1.0), 1))
    ensures Strtod("0xg") == Some((Finite(0.0), 1)) && Strtod("0x8.p") == Some((Finite(8.0), 3))
  {
    hide Strtod;
    OneDigit("1e");
    OneDigit("1e+x");
    BareHex();
    BareHexPoint();
  }

  lemma OneDigit(s: string)
    requires s == "1e" || s == "1e+x"
    ensures Strtod(s) == Some((Finite(1.0), 1))
  {
    Literals();
    Unscanned(s);
    assert RunEnd(s, 0, Digit) == 1 && RunEnd(s, DigitsStart(s, 1), Digit) == DigitsStart(s, 1);
    assert s[..1] == "1";
    assert Scan(s) == Some(Number("", NoSign, Dec("1", None, NoExponent)));
  }

  lemma BareHex()
    ensures Strtod("0xg") == Some((Finite(0.0), 1))
  {
    Literals();
    Unscanned("0xg");
    assert RunEnd("0xg", 2, HexDigit) == 2;
    assert !StartsWithWord("0xg", "inf") && !StartsWithWord("0xg", "nan");
    assert Scan("0xg") == Some(Number("", NoSign, Dec("0", None, NoExponent)));
  }

  lemma BareHexPoint()
    ensures Strtod("0x8.p") == Some((Finite(8.0), 3))
  {
    HexLiterals();
    Unscanned("0x8.p");
    assert RunEnd("0x8.p", 2, HexDigit) == 3 && RunEnd("0x8.p", 4, HexDigit) == 4;
    assert "0x8.p"[2..3] == "8";
    assert !StartsWithWord("0x8.p", "inf") && !StartsWithWord("0x8.p", "nan");
    var n := Number("", NoSign, Hex('x', "8", None, NoExponent));
    assert Scan("0x8.p") == Some(n);
    assert Meaning(n) == Finite(8.0);
  }
}
