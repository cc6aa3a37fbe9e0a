/**
 The civil date behind `http_date`: Hinnant's civil-from-days with its nested constant divisions,
 against counting days one at a time on the Gregorian calendar.
*/
module Calendar {
  datatype Date = Date(year: int, month: int, day: int)

  // ---- The plain calendar ----

  predicate IsLeap(y: int) {
    y % 4 == 0 && (y % 100 != 0 || y % 400 == 0)
  }

  function MonthLength(y: int, m: int): int {
    if m == 2 then (if IsLeap(y) then 29 else 28)
    else if m == 4 || m == 6 || m == 9 || m == 11 then 30
    else 31
  }

  predicate IsDate(d: Date) {
    1 <= d.month <= 12 && 1 <= d.day <= MonthLength(d.year, d.month)
  }

  function NextDay(d: Date): Date {
    if d.day < MonthLength(d.year, d.month) then d.(day := d.day + 1)
    else if d.month < 12 then Date(d.year, d.month + 1, 1)
    else Date(d.year + 1, 1, 1)
  }

  const EPOCH := Date(1970, 1, 1)

  /** The date `n` days after the epoch, counted one day at a time. */
  function DayNumber(n: nat): Date {
    if n == 0 then EPOCH else NextDay(DayNumber(n - 1))
  }

  // ---- civil_from_days ----

  function Era(days: nat): int {
    (days + 719_468) / 146_097
  }

  function DayOfEra(days: nat): int {
    days + 719_468 - Era(days) * 146_097
  }

  function YearOfEra(doe: int): int {
    (doe - doe / 1460 + doe / 36_524 - doe / 146_096) / 365
  }

  function DayOfYear(doe: int): int {
    var yoe := YearOfEra(doe);
    doe - (365 * yoe + yoe / 4 - yoe / 100)
  }

  /** The month counted from March. */
  function MarchMonth(doy: int): int {
    (5 * doy + 2) / 153
  }

  function CivilFromDays(days: nat): Date {
    var doe := DayOfEra(days);
    var yoe := YearOfEra(doe);
    var doy := DayOfYear(doe);
    var mp := MarchMonth(doy);
    var day := doy - (153 * mp + 2) / 5 + 1;
    var month := if mp < 10 then mp + 3 else mp - 9;
    Date(yoe + Era(days) * 400 + if month <= 2 then 1 else 0, month, day)
  }

  // ---- Years within an era ----

  /** Days in an era before its y-th March year. */
  function DaysBefore(y: int): int {
    365 * y + y / 4 - y / 100
  }

  /** The length of the y-th March year of an era: its February belongs to civil year y + 1. */
  function MarchYearLength(y: int): int {
    if IsLeap(y + 1) then 366 else 365
  }

  lemma DaysBeforeStep(y: int)
    requires 0 <= y <= 399
    ensures y < 399 ==> DaysBefore(y + 1) == DaysBefore(y) + MarchYearLength(y)
    ensures y == 399 ==> DaysBefore(y) + MarchYearLength(y) == 146_097
  {
    assert (y + 1) / 4 == y / 4 + if (y + 1) % 4 == 0 then 1 else 0;
    assert (y + 1) / 100 == y / 100 + if (y + 1) % 100 == 0 then 1 else 0;
  }

  /** Day k of the year 100c + 4f + g: centuries, four-year cycles and years all have fixed lengths. */
  ghost predicate YearSplit(doe: int, c: int, f: int, g: int, k: int) {
    && 0 <= c <= 3 && 0 <= f <= 24 && 0 <= g <= 3
    && doe == 36_524 * c + 1461 * f + 365 * g + k
    && 0 <= k <= (if g == 3 && (f < 24 || c == 3) then 365 else 364)
  }

  lemma SplitYear(doe: int) returns (c: int, f: int, g: int, k: int)
    requires 0 <= doe <= 146_096
    ensures YearSplit(doe, c, f, g, k)
  {
    c := if doe / 36_524 > 3 then 3 else doe / 36_524;
    var r := doe - 36_524 * c;
    f := r / 1461;
    var q := r - 1461 * f;
    g := if q / 365 > 3 then 3 else q / 365;
    k := q - 365 * g;
  }

  lemma CenturyCorrection(doe: int, c: int, f: int, g: int, k: int)
    requires YearSplit(doe, c, f, g, k)
    ensures doe / 36_524 - doe / 146_096 == c
  {
  }

  lemma CycleCorrection(doe: int, c: int, f: int, g: int, k: int)
    requires YearSplit(doe, c, f, g, k)
    ensures doe / 1460 == 25 * c + f + if 24 * c + f + 365 * g + k >= 1460 then 1 else 0
  {
    assert doe == 1460 * (25 * c + f) + (24 * c + f + 365 * g + k);
  }

  lemma YearOfSplit(doe: int, c: int, f: int, g: int, k: int)
    requires YearSplit(doe, c, f, g, k)
    ensures YearOfEra(doe) == 100 * c + 4 * f + g
    ensures DayOfYear(doe) == k
    ensures k < MarchYearLength(100 * c + 4 * f + g)
  {
    CenturyCorrection(doe, c, f, g, k);
    CycleCorrection(doe, c, f, g, k);
    var y := 100 * c + 4 * f + g;
    var extra := if 24 * c + f + 365 * g + k >= 1460 then 1 else 0;
    Quotient(doe - doe / 1460 + c, 365, y, k - extra);
    Quotient(y, 4, 25 * c + f, g);
    Quotient(y, 100, c, 4 * f + g);
    LeapSplit(c, f, g);
  }

  lemma Quotient(n: int, m: int, q: int, r: int)
    requires m == 4 || m == 100 || m == 365
    requires n == m * q + r && 0 <= r < m
    ensures n / m == q
  {
  }

  lemma LeapSplit(c: int, f: int, g: int)
    requires 0 <= c <= 3 && 0 <= f <= 24 && 0 <= g <= 3
    ensures MarchYearLength(100 * c + 4 * f + g) == if g == 3 && (f < 24 || c == 3) then 366 else 365
  {
    var y := 100 * c + 4 * f + g + 1;
    assert y % 4 == (g + 1) % 4;
    assert y % 100 == (4 * f + g + 1) % 100;
  }

  /** The corrected quotient is the year the day falls in, and the rest is a day of that year. */
  lemma YearOfEraIsRight(doe: int)
    requires 0 <= doe <= 146_096
    ensures 0 <= YearOfEra(doe) <= 399
    ensures 0 <= DayOfYear(doe) < MarchYearLength(YearOfEra(doe))
  {
    var c, f, g, k := SplitYear(doe);
    YearOfSplit(doe, c, f, g, k);
  }

  /** A year and a day of it determine the day of the era, so the division finds exactly that year. */
  lemma YearOfEraUnique(doe: int, y: int)
    requires 0 <= doe <= 146_096 && 0 <= y <= 399
    requires 0 <= doe - DaysBefore(y) < MarchYearLength(y)
    ensures YearOfEra(doe) == y
  {
    YearOfEraIsRight(doe);
    var z := YearOfEra(doe);
    if z < y {
      DaysBeforeMonotone(z, y);
    } else if y < z {
      DaysBeforeMonotone(y, z);
    }
  }

  lemma {:induction false} DaysBeforeMonotone(y: int, z: int)
    requires 0 <= y < z <= 399
    ensures DaysBefore(y) + MarchYearLength(y) <= DaysBefore(z)
    decreases z - y
  {
    DaysBeforeStep(y);
    if y + 1 < z {
      DaysBeforeMonotone(y + 1, z);
    }
  }

  // ---- Months within a March year ----

  function MonthStart(mp: int): int {
    (153 * mp + 2) / 5
  }

  function CivilMonth(mp: int): int {
    if mp < 10 then mp + 3 else mp - 9
  }

  /** Month lengths counted from March are the calendar's; February takes what is left of the year. */
  lemma MonthLengths(y: int, mp: int)
    requires 0 <= mp <= 11
    ensures var civil := y + if mp >= 10 then 1 else 0;
            MonthLength(civil, CivilMonth(mp))
            == if mp < 11 then MonthStart(mp + 1) - MonthStart(mp) else MarchYearLength(y) - MonthStart(mp)
  {
    if mp <= 3 {
    } else if mp <= 7 {
    } else {
    }
  }

  lemma MarchMonthBounds(doy: int)
    requires 0 <= doy <= 365
    ensures 0 <= MarchMonth(doy) <= 11
    ensures MonthStart(MarchMonth(doy)) <= doy
    ensures MarchMonth(doy) < 11 ==> doy < MonthStart(MarchMonth(doy) + 1)
  {
  }

  lemma MarchMonthUnique(doy: int, mp: int)
    requires 0 <= mp <= 11 && MonthStart(mp) <= doy <= 365 && (mp < 11 ==> doy < MonthStart(mp + 1))
    ensures MarchMonth(doy) == mp
  {
  }

  // ---- One day further ----

  /** What the divisions give, in ranges: the era, year, day and month are all where comments say. */
  lemma Ranges(days: nat)
    ensures 0 <= DayOfEra(days) <= 146_096
    ensures 0 <= YearOfEra(DayOfEra(days)) <= 399
    ensures 0 <= DayOfYear(DayOfEra(days)) < MarchYearLength(YearOfEra(DayOfEra(days))) <= 366
    ensures 0 <= MarchMonth(DayOfYear(DayOfEra(days))) <= 11
    ensures IsDate(CivilFromDays(days))
  {
    var doe := DayOfEra(days);
    YearOfEraIsRight(doe);
    var y := YearOfEra(doe) + 400 * Era(days);
    LeapAcrossEras(YearOfEra(doe) + 1, Era(days));
    MarchMonthBounds(DayOfYear(doe));
    MonthLengths(y, MarchMonth(DayOfYear(doe)));
  }

  lemma LeapAcrossEras(y: int, era: int)
    ensures IsLeap(y + 400 * era) == IsLeap(y)
  {
    LeapWithinEra(y, y / 400, y % 400);
    LeapWithinEra(y + 400 * era, y / 400 + era, y % 400);
  }

  lemma LeapWithinEra(n: int, q: int, r: int)
    requires n == 400 * q + r && 0 <= r < 400
    ensures IsLeap(n) == IsLeap(r)
  {
    Remainder4(n, 100 * q + r / 4, r % 4);
    Remainder100(n, 4 * q + r / 100, r % 100);
  }

  lemma Remainder4(n: int, q: int, r: int)
    requires n == 4 * q + r && 0 <= r < 4
    ensures n % 4 == r
  {
  }

  lemma Remainder100(n: int, q: int, r: int)
    requires n == 100 * q + r && 0 <= r < 100
    ensures n % 100 == r
  {
  }

  // ---- One day further ----

  lemma SameYear(doe: int)
    requires 0 <= doe < 146_096 && DayOfYear(doe) + 1 < MarchYearLength(YearOfEra(doe))
    ensures YearOfEra(doe + 1) == YearOfEra(doe) && DayOfYear(doe + 1) == DayOfYear(doe) + 1
  {
    YearOfEraIsRight(doe);
    YearOfEraUnique(doe + 1, YearOfEra(doe));
  }

  lemma NewYear(doe: int)
    requires 0 <= doe < 146_096 && DayOfYear(doe) + 1 == MarchYearLength(YearOfEra(doe))
    ensures YearOfEra(doe + 1) == YearOfEra(doe) + 1 && DayOfYear(doe + 1) == 0
  {
    YearOfEraIsRight(doe);
    DaysBeforeStep(YearOfEra(doe));
    YearOfEraUnique(doe + 1, YearOfEra(doe) + 1);
  }

  /** The last day of an era is the last day of its 400th year. */
  lemma NewEra()
    ensures YearOfEra(146_096) == 399 && DayOfYear(146_096) == 365
    ensures YearOfEra(0) == 0 && DayOfYear(0) == 0
  {
  }

  /** The date of a March year, month and day. */
  function CivilOf(y: int, doy: int): Date {
    var mp := MarchMonth(doy);
    Date(y + if CivilMonth(mp) <= 2 then 1 else 0, CivilMonth(mp), doy - MonthStart(mp) + 1)
  }

  lemma CivilIsCivilOf(days: nat)
    ensures CivilFromDays(days) == CivilOf(YearOfEra(DayOfEra(days)) + Era(days) * 400, DayOfYear(DayOfEra(days)))
  {
  }

  lemma NextDayInYear(y: int, doy: int)
    requires 0 <= doy && doy + 1 < MarchYearLength(y)
    ensures NextDay(CivilOf(y, doy)) == CivilOf(y, doy + 1)
  {
    var mp := MarchMonth(doy);
    MarchMonthBounds(doy);
    MonthLengths(y, mp);
    if mp < 11 && doy + 1 == MonthStart(mp + 1) {
      MarchMonthUnique(doy + 1, mp + 1);
    } else {
      MarchMonthUnique(doy + 1, mp);
    }
  }

  lemma NextDayAcrossYears(y: int, doy: int)
    requires 0 <= doy && doy + 1 == MarchYearLength(y)
    ensures NextDay(CivilOf(y, doy)) == CivilOf(y + 1, 0)
  {
    MarchMonthBounds(doy);
    MonthLengths(y, MarchMonth(doy));
    MarchMonthUnique(doy, 11);
  }

  lemma EraStep(days: nat)
    ensures 0 <= DayOfEra(days) <= 146_096
    ensures if DayOfEra(days) == 146_096 then Era(days + 1) == Era(days) + 1 && DayOfEra(days + 1) == 0
            else Era(days + 1) == Era(days) && DayOfEra(days + 1) == DayOfEra(days) + 1
  {
  }

  lemma MarchYearLengthAcrossEras(y: int, era: int)
    ensures MarchYearLength(y + era * 400) == MarchYearLength(y)
  {
    LeapAcrossEras(y + 1, era);
  }

  lemma CivilStep(days: nat)
    ensures CivilFromDays(days + 1) == NextDay(CivilFromDays(days))
  {
    hide YearOfEra, DayOfYear, Era, DayOfEra, CivilFromDays, CivilOf, NextDay, MarchYearLength;
    var era, doe := Era(days), DayOfEra(days);
    EraStep(days);
    var yoe, doy := YearOfEra(doe), DayOfYear(doe);
    YearOfEraIsRight(doe);
    MarchYearLengthAcrossEras(yoe, era);
    CivilIsCivilOf(days);
    CivilIsCivilOf(days + 1);
    var y := yoe + era * 400;
    if doy + 1 < MarchYearLength(yoe) {
      if doe == 146_096 {
        NewEra();
        LastYearIsLeap();
      }
      SameYear(doe);
      NextDayInYear(y, doy);
    } else {
      if doe == 146_096 {
        NewEra();
      } else {
        NewYear(doe);
      }
      NextDayAcrossYears(y, doy);
    }
  }

  lemma LastYearIsLeap()
    ensures MarchYearLength(399) == 366
  {
  }

  lemma EpochIsDayZero()
    ensures CivilFromDays(0) == EPOCH
  {
    assert Era(0) == 4 && DayOfEra(0) == 135_080;
    assert YearOfEra(135_080) == 369;
    assert DayOfYear(135_080) == 306;
  }

  /** The fast form refines the slow one: `n` calendar steps from the epoch give Hinnant's date. */
  lemma {:induction false} CivilIsDayNumber(n: nat)
    ensures CivilFromDays(n) == DayNumber(n)
  {
    hide CivilFromDays, NextDay;
    if n == 0 {
      EpochIsDayZero();
    } else {
      CivilIsDayNumber(n - 1);
      CivilStep(n - 1);
    }
  }

  // ---- Counting days back ----

  /** Days from 1 January of year 0 to 1 January of year y, y at least 1. */
  function DaysToYear(y: nat): nat {
    if y == 0 then 0 else DaysToYear(y - 1) + if IsLeap(y - 1) then 366 else 365
  }

  /** Days of a year before the first of a month. */
  function DaysToMonth(y: int, m: nat): nat {
    if m <= 1 then 0 else DaysToMonth(y, m - 1) + MonthLength(y, m - 1)
  }

  /** The number of a date, by adding up year and month lengths. */
  function Ordinal(d: Date): int
    requires d.year >= 0 && d.month >= 0
  {
    DaysToYear(d.year) + DaysToMonth(d.year, d.month) + d.day
  }

  lemma YearIsTwelveMonths(y: nat)
    ensures DaysToMonth(y, 12) + 31 == if IsLeap(y) then 366 else 365
  {
    assert DaysToMonth(y, 2) == 31;
    assert DaysToMonth(y, 4) == DaysToMonth(y, 2) + MonthLength(y, 2) + 31;
    assert DaysToMonth(y, 6) == DaysToMonth(y, 4) + 30 + 31;
    assert DaysToMonth(y, 8) == DaysToMonth(y, 6) + 30 + 31;
    assert DaysToMonth(y, 10) == DaysToMonth(y, 8) + 31 + 30;
    assert DaysToMonth(y, 12) == DaysToMonth(y, 10) + 31 + 30;
  }

  lemma OrdinalStep(d: Date)
    requires IsDate(d) && d.year >= 0
    ensures IsDate(NextDay(d)) && NextDay(d).year >= 0
    ensures Ordinal(NextDay(d)) == Ordinal(d) + 1
  {
    if d.month == 12 {
      YearIsTwelveMonths(d.year);
    }
  }

  /** Every day number is recovered from its date, so no two days share a date. */
  lemma {:induction false} OrdinalOfDayNumber(n: nat)
    ensures IsDate(DayNumber(n)) && DayNumber(n).year >= 1970
    ensures Ordinal(DayNumber(n)) == Ordinal(EPOCH) + n
  {
    if n > 0 {
      OrdinalOfDayNumber(n - 1);
      OrdinalStep(DayNumber(n - 1));
    }
  }
}
