/** Decimal shifts, half-even rounding, and rounding a real to p significant decimal digits. */
module DecimalRounding {
  import opened CNumberGrammar

  // ---- Powers of ten and decimal shifts ----

  function TenTo(n: nat): (t: nat)
    ensures t >= 1
  {
    if n == 0 then 1 else 10 * TenTo(n - 1)
  }

  lemma {:induction false} TenToIsPow(n: nat)
    ensures TenTo(n) as real == Pow(10.0, n)
  {
    if n > 0 {
      TenToIsPow(n - 1);
    }
  }

  /** m with its decimal point moved k places to the right: m * 10^k. */
  function Shift(m: real, k: int): real {
    if k >= 0 then m * Pow(10.0, k) else m / Pow(10.0, -k)
  }

  lemma ShiftStep(m: real, k: int)
    ensures Shift(m, k + 1) == 10.0 * Shift(m, k)
    ensures Shift(10.0 * m, k) == 10.0 * Shift(m, k)
  {
    hide Shift;
    if k >= 0 {
      ShiftUp(m, k);
    } else {
      ShiftDown(m, k);
    }
  }

  lemma ShiftUp(m: real, k: int)
    requires k >= 0
    ensures Shift(m, k + 1) == 10.0 * Shift(m, k)
    ensures Shift(10.0 * m, k) == 10.0 * Shift(m, k)
  {
    MultiplyStep(m, Pow(10.0, k), Pow(10.0, k + 1));
  }

  lemma ShiftDown(m: real, k: int)
    requires k < 0
    ensures Shift(m, k + 1) == 10.0 * Shift(m, k)
    ensures Shift(10.0 * m, k) == 10.0 * Shift(m, k)
  {
    PowTenStep(-k - 1);
    hide Pow;
    DivideStep(m, Pow(10.0, -k - 1), Pow(10.0, -k));
    assert k < -1 ==> -(k + 1) == -k - 1;
  }

  lemma PowTenStep(n: nat)
    ensures Pow(10.0, n + 1) == 10.0 * Pow(10.0, n) && Pow(10.0, 0) == 1.0
  {
  }

  lemma MultiplyStep(m: real, p: real, q: real)
    requires q == 10.0 * p
    ensures m * q == 10.0 * (m * p) && (10.0 * m) * p == 10.0 * (m * p)
  {
  }

  lemma DivideStep(m: real, p: real, q: real)
    requires p > 0.0 && q == 10.0 * p
    ensures m / p == 10.0 * (m / q) && (10.0 * m) / q == 10.0 * (m / q)
  {
    assert m / p == (10.0 * m) / (10.0 * p);
  }

  lemma ShiftZero(m: real)
    ensures Shift(m, 0) == m
  {
  }

  /** Shifts by j and then by k add up. */
  lemma {:induction false} ShiftAdd(m: real, j: int, k: int)
    ensures Shift(Shift(m, j), k) == Shift(m, j + k)
    decreases if k < 0 then -k else k
  {
    hide Shift;
    if k == 0 {
      ShiftZero(Shift(m, j));
    } else if k > 0 {
      ShiftAdd(m, j, k - 1);
      ShiftStep(Shift(m, j), k - 1);
      ShiftStep(m, j + k - 1);
    } else {
      ShiftAdd(m, j, k + 1);
      ShiftStep(Shift(m, j), k);
      ShiftStep(m, j + k);
      assert j + k + 1 == j + (k + 1);
    }
  }

  lemma ShiftOrder(a: real, b: real, k: int)
    ensures a < b <==> Shift(a, k) < Shift(b, k)
  {
    if k >= 0 {
      Order(a, b, Pow(10.0, k), Shift(a, k), Shift(b, k));
    } else {
      var p := Pow(10.0, -k);
      Undivide(a, p);
      Undivide(b, p);
      Order(Shift(a, k), Shift(b, k), p, a, b);
    }
  }

  lemma Undivide(a: real, p: real)
    requires p > 0.0
    ensures a / p * p == a
  {
  }

  lemma Order(a: real, b: real, s: real, x: real, y: real)
    requires s > 0.0 && x == a * s && y == b * s
    ensures a < b <==> x < y
  {
    assert (b - a) * s == y - x;
  }

  lemma ShiftMinus(a: real, b: real, k: int)
    ensures Shift(a - b, k) == Shift(a, k) - Shift(b, k)
  {
  }

  lemma ShiftTenTo(n: nat)
    ensures Shift(1.0, n) == TenTo(n) as real
  {
    TenToIsPow(n);
  }

  // ---- Half-even rounding ----

  /** The nearest integer, ties to even. */
  function RoundEven(x: real): int {
    var f := x.Floor;
    var rest := x - f as real;
    if rest < 0.5 || (rest == 0.5 && f % 2 == 0) then f else f + 1
  }

  lemma RoundEvenIsNearest(x: real, n: int)
    ensures -0.5 <= x - RoundEven(x) as real <= 0.5
    ensures -0.5 < x - n as real < 0.5 ==> RoundEven(x) == n
  {
  }

  function Distance(a: real, b: real): real {
    if a < b then b - a else a - b
  }

  /** A tie goes to the even integer. */
  lemma TieIsEven(x: real)
    ensures var rest := x - RoundEven(x) as real; rest == 0.5 || rest == -0.5 ==> RoundEven(x) % 2 == 0
  {
    var f := x.Floor;
    assert f % 2 == 1 ==> (f + 1) % 2 == 0;
  }

  /** No integer is nearer, and only an even one is as near as another. */
  lemma RoundEvenTies(x: real, j: int)
    ensures var n := RoundEven(x);
            || Distance(x, n as real) < Distance(x, j as real)
            || (Distance(x, n as real) == Distance(x, j as real) && (j == n || n % 2 == 0))
  {
    var n := RoundEven(x);
    TieIsEven(x);
    RoundEvenIsNearest(x, n);
    hide RoundEven;
    if j < n {
      assert j as real <= n as real - 1.0;
    } else if j > n {
      assert j as real >= n as real + 1.0;
    }
  }

  lemma RoundEvenBetween(x: real, lo: int, hi: int)
    requires lo as real <= x <= hi as real
    ensures lo <= RoundEven(x) <= hi
  {
  }

  // ---- The decimal exponent ----

  /** The place of the leading digit. */
  function Exponent10(m: real): int
    requires m > 0.0
    decreases if m >= 10.0 then m.Floor else if m < 1.0 then (1.0 / m).Floor else 0
  {
    if m >= 10.0 then 1 + Exponent10(m / 10.0)
    else if m < 1.0 then
      Reciprocal(m);
      Exponent10(10.0 * m) - 1
    else 0
  }

  lemma Reciprocal(m: real)
    requires 0.0 < m < 1.0
    ensures 1.0 / (10.0 * m) == (1.0 / m) / 10.0 && 1.0 / m > 1.0
    ensures 10.0 * m < 1.0 ==> 1.0 / (10.0 * m) > 1.0
  {
  }

  /** Moved to the units place, the leading digit is one of 1 to 9. */
  lemma {:induction false} Exponent10Leads(m: real)
    requires m > 0.0
    ensures 1.0 <= Shift(m, -Exponent10(m)) < 10.0
    decreases if m >= 10.0 then m.Floor else if m < 1.0 then (1.0 / m).Floor else 0
  {
    hide Shift;
    var e := Exponent10(m);
    if m >= 10.0 {
      Exponent10Leads(m / 10.0);
      ShiftStep(m / 10.0, -e);
      assert -e + 1 == -Exponent10(m / 10.0);
    } else if m < 1.0 {
      Reciprocal(m);
      Exponent10Leads(10.0 * m);
      ShiftStep(m, -e - 1);
      assert -e - 1 == -Exponent10(10.0 * m);
    } else {
      ShiftZero(m);
    }
  }

  /** No other exponent does. */
  lemma Exponent10Unique(m: real, e: int)
    requires m > 0.0 && 1.0 <= Shift(m, -e) < 10.0
    ensures e == Exponent10(m)
  {
    hide Shift, Exponent10;
    var f := Exponent10(m);
    Exponent10Leads(m);
    if e < f {
      LeadsOnce(m, e, f);
      assert false;
    } else if f < e {
      LeadsOnce(m, f, e);
      assert false;
    }
  }

  lemma LeadsOnce(m: real, e: int, f: int)
    requires e < f && 1.0 <= Shift(m, -f)
    ensures Shift(m, -e) >= 10.0
    decreases f - e
  {
    hide Shift;
    ShiftStep(m, -f);
    if e + 1 < f {
      assert -(f - 1) == -f + 1;
      LeadsOnce(m, e, f - 1);
    } else {
      assert -e == -f + 1;
    }
  }

  // ---- p significant digits ----

  /** digits * 10^(exp - (p - 1)): one digit before the point, p - 1 after it. */
  datatype Sci = Sci(digits: int, exp: int)

  /** Rust's `{:.*e}` with p - 1 fraction digits: round at the p-th digit, carry into the exponent. */
  function SciDigits(m: real, p: nat): Sci
    requires m > 0.0 && p >= 1
  {
    var e := Exponent10(m);
    var n := RoundEven(Shift(m, p - 1 - e));
    if n == TenTo(p) then Sci(TenTo(p - 1), e + 1) else Sci(n, e)
  }

  function SciValue(s: Sci, p: nat): real {
    Shift(s.digits as real, s.exp - (p - 1))
  }

  /** m rounded to p significant digits, half to even. */
  function SigRound(m: real, p: nat): real
    requires m > 0.0 && p >= 1
  {
    var e := Exponent10(m);
    Shift(RoundEven(Shift(m, p - 1 - e)) as real, e - (p - 1))
  }

  /** Scaled so that its p-th digit is the unit, a number lies between 10^(p-1) and 10^p. */
  lemma ScaledRange(m: real, p: nat)
    requires m > 0.0 && p >= 1
    ensures TenTo(p - 1) as real <= Shift(m, p - 1 - Exponent10(m)) < TenTo(p) as real
  {
    hide Shift, TenTo, Exponent10;
    var e := Exponent10(m);
    Exponent10Leads(m);
    ShiftAdd(m, -e, p - 1);
    assert -e + (p - 1) == p - 1 - e;
    ShiftOrder(Shift(m, -e), 1.0, p - 1);
    ShiftOrder(Shift(m, -e), 10.0, p - 1);
    ShiftStep(1.0, p - 1);
    ShiftTenTo(p - 1);
    ShiftTenTo(p);
  }

  /** There are exactly p digits, the first not 0. */
  lemma SciDigitsRange(m: real, p: nat)
    requires m > 0.0 && p >= 1
    ensures TenTo(p - 1) <= SciDigits(m, p).digits < TenTo(p)
  {
    hide Shift, Exponent10, RoundEven;
    ScaledRange(m, p);
    RoundEvenBetween(Shift(m, p - 1 - Exponent10(m)), TenTo(p - 1), TenTo(p));
  }

  /** Rounding again at the place the carried exponent points to finds the same digits. */
  lemma SecondRounding(m: real, p: nat)
    requires m > 0.0 && p >= 1
    ensures RoundEven(Shift(m, p - 1 - SciDigits(m, p).exp)) == SciDigits(m, p).digits
  {
    hide Shift, Exponent10, RoundEven;
    var e := Exponent10(m);
    ScaledRange(m, p);
    if RoundEven(Shift(m, p - 1 - e)) == TenTo(p) {
      ShiftStep(m, p - 1 - (e + 1));
      assert p - 1 - (e + 1) + 1 == p - 1 - e;
      CarryRounds(Shift(m, p - 1 - e), Shift(m, p - 1 - (e + 1)), TenTo(p - 1), TenTo(p));
    }
  }

  /** Just below a power of ten, rounding one place further left still gives that power. */
  lemma CarryRounds(x: real, y: real, t: int, u: int)
    requires x == 10.0 * y && u == 10 * t && x < u as real && RoundEven(x) == u
    ensures RoundEven(y) == t
  {
    RoundEvenIsNearest(x, 0);
    RoundEvenIsNearest(y, t);
  }

  /** The carry changes the notation, not the value. */
  lemma CarryKeepsValue(m: real, p: nat)
    requires m > 0.0 && p >= 1
    ensures SciValue(SciDigits(m, p), p) == SigRound(m, p)
  {
    hide Shift, Exponent10, RoundEven;
    var e := Exponent10(m);
    ShiftStep(TenTo(p - 1) as real, e - (p - 1));
    assert e - (p - 1) + 1 == e + 1 - (p - 1);
  }

  /** Rounding to p digits moves a number by at most half a unit in its p-th digit. */
  lemma SigRoundError(m: real, p: nat)
    requires m > 0.0 && p >= 1
    ensures var half := Shift(0.5, Exponent10(m) - (p - 1));
            -half <= m - SigRound(m, p) <= half
  {
    hide Shift, Exponent10, RoundEven;
    var k := Exponent10(m) - (p - 1);
    var x := Shift(m, -k);
    assert -k == p - 1 - Exponent10(m);
    var n := RoundEven(x) as real;
    RoundEvenIsNearest(x, 0);
    ShiftAdd(m, -k, k);
    ShiftZero(m);
    ShiftMinus(x, n, k);
    ShiftMinus(0.0, 0.5, k);
    ShiftMinus(0.5, 0.5, k);
    ShiftOrder(0.5, x - n, k);
    ShiftOrder(x - n, 0.0 - 0.5, k);
  }

  /** Of the multiples of 10^k, the j-th is not nearer to m than the n-th, and if as near, n is even. */
  predicate NoNearer(m: real, k: int, n: int, j: int) {
    var best, other := Distance(m, Shift(n as real, k)), Distance(m, Shift(j as real, k));
    best < other || (best == other && (j == n || n % 2 == 0))
  }

  /** The n-th multiple of 10^k is the one nearest to m, the even one of two. */
  ghost predicate HalfEven(m: real, k: int, n: int) {
    forall j: int :: NoNearer(m, k, n, j)
  }

  lemma DistanceShifts(a: real, b: real, k: int)
    ensures Distance(Shift(a, k), Shift(b, k)) == Shift(Distance(a, b), k)
  {
    hide Shift;
    ShiftOrder(a, b, k);
    ShiftMinus(a, b, k);
    ShiftMinus(b, a, k);
  }

  /** Rounding to p digits is rounding half to even at the p-th digit. */
  lemma SigRoundHalfEven(m: real, p: nat) returns (n: int)
    requires m > 0.0 && p >= 1
    ensures SigRound(m, p) == Shift(n as real, Exponent10(m) - (p - 1))
    ensures HalfEven(m, Exponent10(m) - (p - 1), n)
  {
    hide Shift, Exponent10, RoundEven, Distance;
    var k := Exponent10(m) - (p - 1);
    var x := Shift(m, -k);
    assert -k == p - 1 - Exponent10(m);
    n := RoundEven(x);
    ShiftAdd(m, -k, k);
    ShiftZero(m);
    forall j: int
      ensures NoNearer(m, k, n, j)
    {
      RoundEvenTies(x, j);
      DistanceShifts(x, n as real, k);
      DistanceShifts(x, j as real, k);
      ShiftOrder(Distance(x, n as real), Distance(x, j as real), k);
      ShiftOrder(Distance(x, j as real), Distance(x, n as real), k);
    }
  }

  /** The carried exponent is the place of the leading digit of the rounded number. */
  lemma RoundedExponent(m: real, p: nat)
    requires m > 0.0 && p >= 1
    ensures SigRound(m, p) > 0.0 && Exponent10(SigRound(m, p)) == SciDigits(m, p).exp
  {
    hide Shift, Exponent10, RoundEven, SciDigits, SigRound, TenTo;
    var s := SciDigits(m, p);
    var k := s.exp - (p - 1);
    var low: int := p - 1;
    SciDigitsRange(m, p);
    CarryKeepsValue(m, p);
    ShiftOrder(0.0, s.digits as real, k);
    ShiftMinus(0.0, 0.0, k);
    ShiftAdd(s.digits as real, k, -s.exp);
    assert k + -s.exp == -low;
    LeadingDigit(s.digits, p);
    Exponent10Unique(SigRound(m, p), s.exp);
  }

  lemma LeadingDigit(n: int, p: nat)
    requires p >= 1 && TenTo(p - 1) <= n < TenTo(p)
    ensures var low: int := p - 1; 1.0 <= Shift(n as real, -low) < 10.0
  {
    hide Shift;
    var low: int := p - 1;
    ShiftTenTo(low);
    ShiftTenTo(p);
    ShiftAdd(1.0, low, -low);
    ShiftAdd(1.0, p, -low);
    ShiftZero(1.0);
    ShiftStep(1.0, 0);
    ShiftOrder(n as real, TenTo(p - 1) as real, -low);
    ShiftOrder(n as real, TenTo(p) as real, -low);
  }
}
