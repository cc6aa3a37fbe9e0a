/** Decimal digits: the text of an integer, the value of a digit string, and Rust's `i64` parser. */
module Decimal {
  import opened Wrappers

  predicate IsDigit(c: char) {
    '0' <= c <= '9'
  }

  predicate AllDigits(s: string) {
    forall i :: 0 <= i < |s| ==> IsDigit(s[i])
  }

  function DigitValue(c: char): (d: nat)
    requires IsDigit(c)
    ensures d < 10
  {
    c as int - '0' as int
  }

  function DigitChar(d: nat): (c: char)
    requires d < 10
    ensures IsDigit(c) && DigitValue(c) == d
  {
    ('0' as int + d) as char
  }

  /** The digits by name. */
  lemma DigitsByName(c: char)
    ensures IsDigit(c) <==> c in "0123456789"
    ensures IsDigit(c) ==> "0123456789"[DigitValue(c)] == c && DigitChar(DigitValue(c)) == c
  {
    if IsDigit(c) {
      assert "0123456789"[DigitValue(c)] == c;
    }
  }

  /** The value of a digit string, most significant digit first; the empty string is 0. */
  function NatValue(s: string): nat
    requires AllDigits(s)
  {
    if s == [] then 0 else 10 * NatValue(s[..|s| - 1]) + DigitValue(s[|s| - 1])
  }

  /** `{}` applied to an unsigned integer. */
  function NatText(n: nat): (s: string)
    ensures s != [] && AllDigits(s)
  {
    if n < 10 then [DigitChar(n)] else NatText(n / 10) + [DigitChar(n % 10)]
  }

  /** `{}` applied to a signed integer. */
  function IntText(n: int): (s: string)
    ensures s != []
  {
    if n < 0 then "-" + NatText(-n) else NatText(n)
  }

  lemma {:induction false} NatTextRoundTrip(n: nat)
    ensures NatValue(NatText(n)) == n
    ensures NatText(n)[0] == '0' ==> n == 0
    ensures n == 0 ==> NatText(n) == "0"
  {
    if n >= 10 {
      NatTextRoundTrip(n / 10);
      var s := NatText(n);
      assert s[..|s| - 1] == NatText(n / 10);
    }
  }

  /** A digit string without a redundant leading zero is the text of its value. */
  lemma {:induction false} NatValueRoundTrip(s: string)
    requires AllDigits(s) && s != []
    requires s[0] == '0' ==> |s| == 1
    ensures NatText(NatValue(s)) == s
    ensures s[0] != '0' ==> NatValue(s) > 0
  {
    var last := |s| - 1;
    if last == 0 {
      assert NatValue(s[..0]) == 0;
    } else {
      NatValueRoundTrip(s[..last]);
      var v, d := NatValue(s[..last]), DigitValue(s[last]);
      assert NatValue(s) / 10 == v && NatValue(s) % 10 == d;
      assert s == s[..last] + [s[last]];
    }
  }

  lemma {:induction false} NatValueLeadingZero(s: string)
    requires AllDigits(s)
    ensures AllDigits("0" + s) && NatValue("0" + s) == NatValue(s)
  {
    if s == [] {
      assert ("0" + s)[..0] == [];
    } else {
      NatValueLeadingZero(s[..|s| - 1]);
      var t := "0" + s;
      assert t[..|t| - 1] == "0" + s[..|s| - 1];
    }
  }

  /** Positions count in tens. */
  lemma PlaceValue(s: string, d: char)
    requires AllDigits(s) && IsDigit(d)
    ensures AllDigits(s + [d]) && NatValue(s + [d]) == 10 * NatValue(s) + (d as int - '0' as int)
    ensures NatValue("") == 0
  {
    assert (s + [d])[..|s|] == s;
  }

  const I64_MIN: int := -0x8000_0000_0000_0000
  const I64_MAX: int := 0x7FFF_FFFF_FFFF_FFFF

  predicate IsI64(n: int) {
    I64_MIN <= n <= I64_MAX
  }

  /** Rust's integer parser before its range check: one optional sign, at least one digit, nothing else. */
  function ParseInt(s: string): Option<int> {
    var digits := if s != [] && (s[0] == '-' || s[0] == '+') then s[1..] else s;
    if digits == [] || !AllDigits(digits) then None
    else
      var v: int := NatValue(digits);
      Some(if s[0] == '-' then -v else v)
  }

  /** `str::parse::<i64>`. */
  function ParseI64(s: string): Option<int> {
    match ParseInt(s)
    case None => None
    case Some(n) => if IsI64(n) then Some(n) else None
  }

  /** A digit run with either sign or none is an integer; nothing else is. */
  lemma ParseIntOfDigits(digits: string)
    requires AllDigits(digits) && digits != []
    ensures var v: int := NatValue(digits);
            ParseInt(digits) == Some(v) && ParseInt("+" + digits) == Some(v) && ParseInt("-" + digits) == Some(-v)
  {
    assert IsDigit(digits[0]);
    assert ("+" + digits)[1..] == digits && ("-" + digits)[1..] == digits;
  }

  lemma ParseIntOfNonsense(s: string)
    requires !AllDigits(if s != [] && (s[0] == '+' || s[0] == '-') then s[1..] else s) || s == "" || s == "+" || s == "-"
    ensures ParseInt(s) == None
  {
  }

  /** Printing an integer and parsing the text gives it back; a 64-bit parser rejects wider ones. */
  lemma ParseIntOfIntText(n: int)
    ensures ParseInt(IntText(n)) == Some(n)
    ensures ParseI64(IntText(n))
         == if -9_223_372_036_854_775_808 <= n <= 9_223_372_036_854_775_807 then Some(n) else None
  {
    if n < 0 {
      NatTextRoundTrip(-n);
      assert IntText(n)[1..] == NatText(-n);
    } else {
      NatTextRoundTrip(n);
      assert IsDigit(NatText(n)[0]);
    }
  }
}
