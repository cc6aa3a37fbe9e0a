/**
 `http_date`: a Unix timestamp as an IMF-fixdate (section 7.1.1.1 of RFC 7231, the year widened past
 9999), and a parser of that layout that gives the timestamp back.
*/
module HttpDate {
  import opened Calendar
  import opened Decimal
  import opened Wrappers

  const DOW: seq<string> := ["Sun", "Mon", "Tue", "Wed", "Thu", "Fri", "Sat"]

  const MON: seq<string> :=
    ["Jan", "Feb", "Mar", "Apr", "May", "Jun", "Jul", "Aug", "Sep", "Oct", "Nov", "Dec"]

  /** 1970-01-01 was a Thursday. */
  function Weekday(days: nat): (w: nat)
    ensures w < 7
  {
    (days % 7 + 4) % 7
  }

  lemma WeekdayAdvances(days: nat)
    ensures Weekday(0) == 4 && Weekday(days + 1) == (Weekday(days) + 1) % 7
  {
  }

  // ---- Rendering ----

  function Pad2(n: nat): string
    requires n < 100
  {
    [DigitChar(n / 10), DigitChar(n % 10)]
  }

  /** `{:04}`. */
  function Pad4(n: nat): string {
    var t := NatText(n);
    if |t| >= 4 then t else seq(4 - |t|, _ => '0') + t
  }

  function DayPart(weekday: nat, day: nat, month: nat): string
    requires weekday < 7 && day < 100 && 1 <= month <= 12
  {
    DOW[weekday] + (", " + (Pad2(day) + (" " + (MON[month - 1] + " "))))
  }

  function TimePart(hh: nat, mm: nat, ss: nat): string
    requires hh < 100 && mm < 100 && ss < 100
  {
    " " + (Pad2(hh) + (":" + (Pad2(mm) + (":" + (Pad2(ss) + " GMT")))))
  }

  function Render(days: nat, hh: nat, mm: nat, ss: nat): string
    requires hh < 24 && mm < 60 && ss < 60
  {
    DateIsWide(days);
    var d := CivilFromDays(days);
    DayPart(Weekday(days), d.day, d.month) + (Pad4(d.year) + TimePart(hh, mm, ss))
  }

  function HttpDate(t: nat): string {
    var days, tod := t / 86_400, t % 86_400;
    Render(days, tod / 3600, tod % 3600 / 60, tod % 60)
  }

  /** The table index and the year never leave their tables and widths. */
  lemma DateIsWide(days: nat)
    ensures var d := CivilFromDays(days);
            && IsDate(d) && 1 <= d.month <= 12 && 1 <= d.day <= 31 && d.year >= 1970
            && Ordinal(d) == Ordinal(EPOCH) + days
  {
    Ranges(days);
    CivilIsDayNumber(days);
    OrdinalOfDayNumber(days);
  }

  // ---- Parsing the layout ----

  function ParseWeekday(name: string): Option<nat> {
    match name
    case "Sun" => Some(0)
    case "Mon" => Some(1)
    case "Tue" => Some(2)
    case "Wed" => Some(3)
    case "Thu" => Some(4)
    case "Fri" => Some(5)
    case "Sat" => Some(6)
    case _ => None
  }

  function ParseMonth(name: string): Option<nat> {
    match name
    case "Jan" => Some(1)
    case "Feb" => Some(2)
    case "Mar" => Some(3)
    case "Apr" => Some(4)
    case "May" => Some(5)
    case "Jun" => Some(6)
    case "Jul" => Some(7)
    case "Aug" => Some(8)
    case "Sep" => Some(9)
    case "Oct" => Some(10)
    case "Nov" => Some(11)
    case "Dec" => Some(12)
    case _ => None
  }

  function ParseDigits(s: string): Option<nat> {
    if s != [] && AllDigits(s) then Some(NatValue(s)) else None
  }

  datatype Fields = Fields(weekday: nat, day: nat, month: nat)

  function ParseDayPart(s: string): Option<Fields>
    requires |s| == 12
  {
    match (ParseWeekday(s[..3]), ParseDigits(s[5..7]), ParseMonth(s[8..11]))
    case (Some(w), Some(d), Some(m)) =>
      if s[3..5] == ", " && s[7] == ' ' && s[11] == ' ' then Some(Fields(w, d, m)) else None
    case _ => None
  }

  /** Seconds into the day. */
  function ParseTimePart(s: string): Option<nat>
    requires |s| == 13
  {
    match (ParseDigits(s[1..3]), ParseDigits(s[4..6]), ParseDigits(s[7..9]))
    case (Some(hh), Some(mm), Some(ss)) =>
      if s[0] == ' ' && s[3] == ':' && s[6] == ':' && s[9..] == " GMT" && hh < 24 && mm < 60 && ss < 60
      then Some(hh * 3600 + mm * 60 + ss)
      else None
    case _ => None
  }

  /** The timestamp of an IMF-fixdate; the weekday must agree with the date. */
  function Parse(s: string): Option<nat> {
    if |s| < 29 then None
    else
      match (ParseDayPart(s[..12]), ParseDigits(s[12..|s| - 13]), ParseTimePart(s[|s| - 13..]))
      case (Some(f), Some(year), Some(tod)) =>
        var date := Date(year, f.month, f.day);
        var days := Ordinal(date) - Ordinal(EPOCH);
        if IsDate(date) && days >= 0 && f.weekday == Weekday(days) then Some(days * 86_400 + tod) else None
      case _ => None
  }

  // ---- Round trip ----

  lemma WeekdayNames(w: nat)
    requires w < 7
    ensures ParseWeekday(DOW[w]) == Some(w)
  {
  }

  lemma MonthNames(m: nat)
    requires 1 <= m <= 12
    ensures ParseMonth(MON[m - 1]) == Some(m)
  {
  }

  lemma ParsePad2(n: nat)
    requires n < 100
    ensures ParseDigits(Pad2(n)) == Some(n)
  {
    var s := Pad2(n);
    assert s[..1] == [s[0]] && s[..1][..0] == [];
    assert NatValue(s[..1]) == n / 10;
  }

  lemma ParsePad4(n: nat)
    requires n >= 1000
    ensures Pad4(n) == NatText(n) && |Pad4(n)| >= 4 && ParseDigits(Pad4(n)) == Some(n)
  {
    NatTextRoundTrip(n);
    var a, b, c := n / 10, n / 10 / 10, n / 10 / 10 / 10;
    assert |NatText(b)| == |NatText(c)| + 1;
    assert |NatText(a)| == |NatText(b)| + 1;
    assert |NatText(n)| == |NatText(a)| + 1;
  }

  lemma NameLengths()
    ensures forall i :: 0 <= i < 7 ==> |DOW[i]| == 3
    ensures forall i :: 0 <= i < 12 ==> |MON[i]| == 3
  {
  }

  lemma ParseDayPartOf(weekday: nat, day: nat, month: nat)
    requires weekday < 7 && day < 100 && 1 <= month <= 12
    ensures var s := DayPart(weekday, day, month); |s| == 12 && ParseDayPart(s) == Some(Fields(weekday, day, month))
  {
    hide ParseWeekday, ParseMonth, ParseDigits, Pad2;
    NameLengths();
    Pad2Length(day);
    DayPartSlices(DOW[weekday], Pad2(day), MON[month - 1]);
    WeekdayNames(weekday);
    MonthNames(month);
    ParsePad2(day);
  }

  lemma Pad2Length(n: nat)
    requires n < 100
    ensures |Pad2(n)| == 2
  {
  }

  lemma DayPartSlices(name: string, day: string, month: string)
    requires |name| == 3 && |day| == 2 && |month| == 3
    ensures var s := name + (", " + (day + (" " + (month + " "))));
            |s| == 12 && s[..3] == name && s[3..5] == ", " && s[5..7] == day && s[7] == ' '
            && s[8..11] == month && s[11] == ' '
  {
  }

  lemma ParseTimePartOf(hh: nat, mm: nat, ss: nat)
    requires hh < 24 && mm < 60 && ss < 60
    ensures var s := TimePart(hh, mm, ss); |s| == 13 && ParseTimePart(s) == Some(hh * 3600 + mm * 60 + ss)
  {
    var s := TimePart(hh, mm, ss);
    assert s[1..3] == Pad2(hh);
    assert s[4..6] == Pad2(mm);
    assert s[7..9] == Pad2(ss);
    assert s[9..] == " GMT";
    ParsePad2(hh);
    ParsePad2(mm);
    ParsePad2(ss);
  }

  lemma ThreeParts(a: string, b: string, c: string)
    requires |a| == 12 && |c| == 13
    ensures var s := a + (b + c); s[..12] == a && s[12..|s| - 13] == b && s[|s| - 13..] == c
  {
  }

  lemma ParseOfParts(a: string, b: string, c: string, f: Fields, year: nat, tod: nat)
    requires |a| == 12 && |c| == 13 && |b| >= 4
    requires ParseDayPart(a) == Some(f) && ParseDigits(b) == Some(year) && ParseTimePart(c) == Some(tod)
    requires IsDate(Date(year, f.month, f.day))
    requires var days := Ordinal(Date(year, f.month, f.day)) - Ordinal(EPOCH); days >= 0 && f.weekday == Weekday(days)
    ensures Parse(a + (b + c)) == Some((Ordinal(Date(year, f.month, f.day)) - Ordinal(EPOCH)) * 86_400 + tod)
  {
    hide ParseDayPart, ParseDigits, ParseTimePart, IsDate, Ordinal, Weekday;
    ThreeParts(a, b, c);
  }

  lemma TimeOfDay(tod: nat)
    requires tod < 86_400
    ensures tod / 3600 < 24 && tod % 3600 / 60 < 60
    ensures tod / 3600 * 3600 + tod % 3600 / 60 * 60 + tod % 60 == tod
  {
    assert tod % 3600 % 60 == tod % 60;
  }

  lemma ParseOfRender(days: nat, hh: nat, mm: nat, ss: nat)
    requires hh < 24 && mm < 60 && ss < 60
    ensures Parse(Render(days, hh, mm, ss)) == Some(days * 86_400 + (hh * 3600 + mm * 60 + ss))
  {
    hide ParseDayPart, ParseDigits, ParseTimePart, Parse, IsDate, Ordinal, Weekday, DayPart, TimePart, Pad4,
         CivilFromDays;
    var d := CivilFromDays(days);
    DateIsWide(days);
    ParseDayPartOf(Weekday(days), d.day, d.month);
    ParsePad4(d.year);
    ParseTimePartOf(hh, mm, ss);
    var f := Fields(Weekday(days), d.day, d.month);
    assert Date(d.year, f.month, f.day) == d;
    ParseOfParts(DayPart(Weekday(days), d.day, d.month), Pad4(d.year), TimePart(hh, mm, ss),
                 f, d.year, hh * 3600 + mm * 60 + ss);
  }

  /** Parsing the rendering gives the timestamp back, for every timestamp. */
  lemma ParseOfHttpDate(t: nat)
    ensures Parse(HttpDate(t)) == Some(t)
  {
    hide Parse;
    var tod := t % 86_400;
    TimeOfDay(tod);
    ParseOfRender(t / 86_400, tod / 3600, tod % 3600 / 60, tod % 60);
  }

  /** Two timestamps never share a rendering. */
  lemma HttpDateInjective(t: nat, u: nat)
    requires HttpDate(t) == HttpDate(u)
    ensures t == u
  {
    ParseOfHttpDate(t);
    ParseOfHttpDate(u);
  }

  lemma ExampleDates()
    ensures CivilFromDays(0) == Date(1970, 1, 1) && CivilFromDays(20_603) == Date(2026, 5, 30)
  {
    EpochIsDayZero();
    assert Era(20_603) == 5 && DayOfEra(20_603) == 9586;
    assert YearOfEra(9586) == 26 && DayOfYear(9586) == 90 && MarchMonth(90) == 2;
    hide Era, DayOfEra, YearOfEra, DayOfYear, MarchMonth;
    assert CivilFromDays(20_603).day == 30;
  }

  lemma ExampleParts()
    ensures DayPart(4, 1, 1) == "Thu, 01 Jan " && TimePart(0, 0, 0) == " 00:00:00 GMT"
    ensures DayPart(6, 30, 5) == "Sat, 30 May " && TimePart(2, 20, 49) == " 02:20:49 GMT"
  {
  }

  lemma ExampleYears()
    ensures Pad4(1970) == "1970" && Pad4(2026) == "2026"
  {
    hide Pad4;
    FourDigits(1970, '1', '9', '7', '0');
    FourDigits(2026, '2', '0', '2', '6');
  }

  /** The epoch, and the example of the documentation. */
  lemma Examples()
    ensures HttpDate(0) == "Thu, 01 Jan 1970 00:00:00 GMT"
    ensures HttpDate(1_780_107_649) == "Sat, 30 May 2026 02:20:49 GMT"
  {
    hide CivilFromDays, DayPart, TimePart, Pad4, DigitChar;
    ExampleDates();
    ExampleParts();
    ExampleYears();
    assert "Thu, 01 Jan " + ("1970" + " 00:00:00 GMT") == "Thu, 01 Jan 1970 00:00:00 GMT";
    assert "Sat, 30 May " + ("2026" + " 02:20:49 GMT") == "Sat, 30 May 2026 02:20:49 GMT";
  }

  lemma FourDigits(n: nat, a: char, b: char, c: char, d: char)
    requires 1000 <= n < 10_000
    requires a == DigitChar(n / 1000) && b == DigitChar(n / 100 % 10) && c == DigitChar(n / 10 % 10) && d == DigitChar(n % 10)
    ensures Pad4(n) == [a, b, c, d]
  {
    assert n / 10 / 10 == n / 100 && n / 100 / 10 == n / 1000;
    assert NatText(n / 1000) == [a];
    assert NatText(n / 100) == [a] + [b];
    assert NatText(n / 10) == [a] + [b] + [c];
    assert NatText(n) == [a] + [b] + [c] + [d];
  }
}
