/**
 * Proleptic Gregorian civil dates as Python's `datetime.date` handles them:
 * the day number of `date.toordinal()` (0001-01-01 is day 1), the weekday
 * of `date.weekday()` (Monday is 0), day arithmetic (`date + timedelta`),
 * tuple-order comparison, and the `strftime`/`strptime` directives the
 * scheduler uses.
 */
module Calendar {
  import opened Outcomes
  import opened Text

  datatype Date = Date(year: int, month: int, day: int)

  /** A wall-clock instant: a date and a time of day (microseconds are not modelled). */
  datatype DateTime = DateTime(date: Date, hour: int, minute: int, second: int)

  predicate IsLeap(y: int) { y % 4 == 0 && (y % 100 != 0 || y % 400 == 0) }

  function DaysInMonth(y: int, m: int): (n: int)
    requires 1 <= m <= 12
    ensures 28 <= n <= 31
  {
    if m == 2 then (if IsLeap(y) then 29 else 28)
    else if m == 4 || m == 6 || m == 9 || m == 11 then 30
    else 31
  }

  predicate Valid(d: Date)
  {
    1 <= d.month <= 12 && 1 <= d.day <= DaysInMonth(d.year, d.month)
  }

  predicate ValidTime(t: DateTime)
  {
    Valid(t.date) && 0 <= t.hour < 24 && 0 <= t.minute < 60 && 0 <= t.second < 60
  }

  // ---------------------------------------------------------------------
  // Day numbers

  function DaysBeforeYear(y: int): int
  {
    var p := y - 1;
    p * 365 + p / 4 - p / 100 + p / 400
  }

  function DaysBeforeMonth(y: int, m: int): int
    requires 1 <= m <= 12
  {
    [0, 31, 59, 90, 120, 151, 181, 212, 243, 273, 304, 334][m - 1]
      + (if m > 2 && IsLeap(y) then 1 else 0)
  }

  /** `date.toordinal()`. */
  function Ordinal(d: Date): int
    requires Valid(d)
  {
    DaysBeforeYear(d.year) + DaysBeforeMonth(d.year, d.month) + d.day
  }

  /** `date.weekday()`: Monday is 0 and Sunday is 6. */
  function Weekday(d: Date): (w: int)
    requires Valid(d)
    ensures 0 <= w < 7
  {
    (Ordinal(d) + 6) % 7
  }

  lemma MonthStep(y: int, m: int)
    requires 1 <= m < 12
    ensures DaysBeforeMonth(y, m + 1) == DaysBeforeMonth(y, m) + DaysInMonth(y, m)
  {
  }

  lemma YearStep(y: int)
    ensures DaysBeforeYear(y + 1) == DaysBeforeYear(y) + 365 + (if IsLeap(y) then 1 else 0)
  {
    Div4Step(y);
    Div100Step(y);
    Div400Step(y);
  }

  lemma Div4Step(y: int)
    ensures y / 4 - (y - 1) / 4 == (if y % 4 == 0 then 1 else 0)
  {
  }

  lemma Div100Step(y: int)
    ensures y / 100 - (y - 1) / 100 == (if y % 100 == 0 then 1 else 0)
  {
  }

  lemma Div400Step(y: int)
    ensures y / 400 - (y - 1) / 400 == (if y % 400 == 0 then 1 else 0)
  {
  }

  /** The day after `d` in the calendar. */
  function NextDay(d: Date): (r: Date)
    requires Valid(d)
    ensures Valid(r) && Ordinal(r) == Ordinal(d) + 1
  {
    if d.day < DaysInMonth(d.year, d.month) then d.(day := d.day + 1)
    else if d.month < 12 then
      MonthStep(d.year, d.month);
      Date(d.year, d.month + 1, 1)
    else
      YearStep(d.year);
      Date(d.year + 1, 1, 1)
  }

  /** The day before `d` in the calendar. */
  function PrevDay(d: Date): (r: Date)
    requires Valid(d)
    ensures Valid(r) && Ordinal(r) == Ordinal(d) - 1
  {
    if d.day > 1 then d.(day := d.day - 1)
    else if d.month > 1 then
      MonthStep(d.year, d.month - 1);
      Date(d.year, d.month - 1, DaysInMonth(d.year, d.month - 1))
    else
      YearStep(d.year - 1);
      Date(d.year - 1, 12, 31)
  }

  /** `d + timedelta(days=n)`: moves the day number by exactly `n`. */
  function AddDays(d: Date, n: int): (r: Date)
    requires Valid(d)
    ensures Valid(r) && Ordinal(r) == Ordinal(d) + n
    decreases if n < 0 then -n else n
  {
    if n == 0 then d
    else if n > 0 then AddDays(NextDay(d), n - 1)
    else AddDays(PrevDay(d), n + 1)
  }

  /** Day arithmetic composes: shifting by `a` then `b` is shifting by `a + b`. */
  lemma AddDaysCompose(d: Date, a: int, b: int)
    requires Valid(d)
    ensures AddDays(AddDays(d, a), b) == AddDays(d, a + b)
  {
    OrderIsOrdinalOrder(AddDays(AddDays(d, a), b), AddDays(d, a + b));
  }

  lemma AddDaysZero(d: Date)
    requires Valid(d)
    ensures AddDays(d, 0) == d
  {
    OrderIsOrdinalOrder(AddDays(d, 0), d);
  }

  /** `datetime + timedelta(days=n)`: the time of day is kept. */
  function ShiftDays(t: DateTime, n: int): (r: DateTime)
    requires ValidTime(t)
    ensures ValidTime(r) && Ordinal(r.date) == Ordinal(t.date) + n
    ensures r.hour == t.hour && r.minute == t.minute && r.second == t.second
  {
    t.(date := AddDays(t.date, n))
  }

  lemma {:induction false} ModSevenShift(x: int, k: int)
    ensures (x + 7 * k) % 7 == x % 7
    decreases if k < 0 then -k else k
  {
    if k > 0 {
      ModSevenShift(x, k - 1);
      assert x + 7 * k == (x + 7 * (k - 1)) + 7;
    } else if k < 0 {
      ModSevenShift(x, k + 1);
      assert x + 7 * k == (x + 7 * (k + 1)) - 7;
    }
  }

  /** Moving by a whole number of weeks keeps the weekday. */
  lemma WeekdayPeriodic(d: Date, k: int)
    requires Valid(d)
    ensures Weekday(AddDays(d, 7 * k)) == Weekday(d)
  {
    var o := Ordinal(d);
    assert Ordinal(AddDays(d, 7 * k)) + 6 == (o + 6) + 7 * k;
    ModSevenShift(o + 6, k);
  }

  /** Stepping back by the weekday lands on a Monday. */
  lemma MondayOnOrBefore(d: Date)
    requires Valid(d)
    ensures Weekday(AddDays(d, -Weekday(d))) == 0
  {
    var o := Ordinal(d);
    MondayArith(o);
    assert Ordinal(AddDays(d, -Weekday(d))) == o - (o + 6) % 7;
  }

  lemma MondayArith(o: int)
    ensures (o - (o + 6) % 7 + 6) % 7 == 0
  {
    var q := (o + 6) / 7;
    assert o - (o + 6) % 7 + 6 == 0 + 7 * q;
    ModSevenShift(0, q);
  }

  // ---------------------------------------------------------------------
  // Comparison

  /** Python's `date <= date`: comparison of (year, month, day) tuples. */
  predicate LessEq(a: Date, b: Date)
  {
    a.year < b.year
    || (a.year == b.year && (a.month < b.month || (a.month == b.month && a.day <= b.day)))
  }

  lemma {:induction false} MonthsBefore(y: int, m1: int, m2: int)
    requires 1 <= m1 < m2 <= 12
    ensures DaysBeforeMonth(y, m1) + DaysInMonth(y, m1) <= DaysBeforeMonth(y, m2)
    decreases m2 - m1
  {
    MonthStep(y, m1);
    if m1 + 1 < m2 {
      MonthsBefore(y, m1 + 1, m2);
    }
  }

  lemma {:induction false} YearsBefore(y1: int, y2: int)
    requires y1 < y2
    ensures DaysBeforeYear(y1) + 365 + (if IsLeap(y1) then 1 else 0) <= DaysBeforeYear(y2)
    decreases y2 - y1
  {
    YearStep(y1);
    if y1 + 1 < y2 {
      YearsBefore(y1 + 1, y2);
      YearStep(y1 + 1);
    }
  }

  /** A date strictly earlier in tuple order has a strictly smaller day number. */
  lemma EarlierHasSmallerOrdinal(a: Date, b: Date)
    requires Valid(a) && Valid(b) && LessEq(a, b) && a != b
    ensures Ordinal(a) < Ordinal(b)
  {
    if a.year < b.year {
      if a.month < 12 {
        MonthsBefore(a.year, a.month, 12);
      }
      YearsBefore(a.year, b.year);
    } else if a.month < b.month {
      MonthsBefore(a.year, a.month, b.month);
    }
  }

  /** Tuple order on valid dates is the order of their day numbers. */
  lemma OrderIsOrdinalOrder(a: Date, b: Date)
    requires Valid(a) && Valid(b)
    ensures LessEq(a, b) <==> Ordinal(a) <= Ordinal(b)
    ensures a == b <==> Ordinal(a) == Ordinal(b)
  {
    if a != b {
      if LessEq(a, b) {
        EarlierHasSmallerOrdinal(a, b);
      } else {
        EarlierHasSmallerOrdinal(b, a);
      }
    }
  }

  // ---------------------------------------------------------------------
  // strftime / strptime

  /** The text of one `strftime` directive, for the directives the scheduler uses. */
  function Directive(c: char, t: DateTime): Option<string>
    requires ValidTime(t)
  {
    match c
    case 'Y' => Some(IntToString(t.date.year))
    case 'y' => Some(Pad2(t.date.year % 100))
    case 'm' => Some(Pad2(t.date.month))
    case 'd' => Some(Pad2(t.date.day))
    case 'H' => Some(Pad2(t.hour))
    case 'M' => Some(Pad2(t.minute))
    case 'S' => Some(Pad2(t.second))
    case '%' => Some("%")
    case _ => None
  }

  /**
   * `t.strftime(fmt)` for the directives %Y %y %m %d %H %M %S and %%; any
   * other character, and a `%` not followed by one of those, is copied.
   * %Y is the unpadded year, as the C library on Linux renders it.
   */
  function Strftime(fmt: string, t: DateTime): string
    requires ValidTime(t)
  {
    if |fmt| == 0 then ""
    else if fmt[0] == '%' && |fmt| >= 2 && Directive(fmt[1], t).Some? then
      Directive(fmt[1], t).value + Strftime(fmt[2..], t)
    else [fmt[0]] + Strftime(fmt[1..], t)
  }

  /** A text without `%` is its own rendering. */
  lemma {:induction false} StrftimeLiteral(fmt: string, t: DateTime)
    requires ValidTime(t) && '%' !in fmt
    ensures Strftime(fmt, t) == fmt
  {
    if |fmt| > 0 {
      assert fmt == [fmt[0]] + fmt[1..];
      StrftimeLiteral(fmt[1..], t);
    }
  }

  /** Midnight of a date, for formatting a date alone. */
  function AtMidnight(d: Date): (t: DateTime)
    requires Valid(d)
    ensures ValidTime(t) && t.date == d
  {
    DateTime(d, 0, 0, 0)
  }

  /** `d.strftime("%Y-%m-%d")`. */
  function IsoText(d: Date): string
    requires Valid(d)
  {
    IntToString(d.year) + "-" + Pad2(d.month) + "-" + Pad2(d.day)
  }

  /** `%Y-%m-%d` renders the date part only, as `IsoText`. */
  lemma StrftimeIso(t: DateTime)
    requires ValidTime(t)
    ensures Strftime("%Y-%m-%d", t) == IsoText(t.date)
  {
    var d := t.date;
    assert "%Y-%m-%d"[2..] == "-%m-%d" && "-%m-%d"[1..] == "%m-%d";
    assert "%m-%d"[2..] == "-%d" && "-%d"[1..] == "%d" && "%d"[2..] == "";
    assert Strftime("%d", t) == Pad2(d.day);
    assert Strftime("-%d", t) == "-" + Pad2(d.day);
    assert Strftime("%m-%d", t) == Pad2(d.month) + "-" + Pad2(d.day);
    assert Strftime("-%m-%d", t) == "-" + Pad2(d.month) + "-" + Pad2(d.day);
  }

  /** The `%m` field of `strptime`: `1[0-2]|0[1-9]|[1-9]`. */
  function MonthField(s: string): (r: Option<int>)
    ensures r.Some? ==> 1 <= r.value <= 12
  {
    if |s| == 1 && '1' <= s[0] <= '9' then Some(DigitValue(s[0]))
    else if |s| == 2 && ((s[0] == '1' && '0' <= s[1] <= '2') || (s[0] == '0' && '1' <= s[1] <= '9')) then
      Some(DigitValue(s[0]) * 10 + DigitValue(s[1]))
    else None
  }

  /** The `%d` field of `strptime`: `3[01]|[12]\d|0[1-9]|[1-9]| [1-9]`. */
  function DayField(s: string): (r: Option<int>)
    ensures r.Some? ==> 1 <= r.value <= 31
  {
    if |s| == 1 && '1' <= s[0] <= '9' then Some(DigitValue(s[0]))
    else if |s| == 2 && s[0] == ' ' && '1' <= s[1] <= '9' then Some(DigitValue(s[1]))
    else if |s| == 2 && ((s[0] == '3' && '0' <= s[1] <= '1') || ('1' <= s[0] <= '2' && IsDigit(s[1]))
                         || (s[0] == '0' && '1' <= s[1] <= '9')) then
      Some(DigitValue(s[0]) * 10 + DigitValue(s[1]))
    else None
  }

  /**
   * `datetime.strptime(s, "%Y-%m-%d")`: four digits, '-', a month field,
   * '-', a day field and nothing else, naming an existing day of years 1 to
   * 9999; None where Python raises ValueError.
   */
  function ParseIso(s: string): (r: Option<Date>)
    ensures r.Some? ==> Valid(r.value) && 1 <= r.value.year <= 9999
  {
    if |s| < 5 || !AllDigits(s[..4]) || s[4] != '-' then None
    else
      var rest := s[5..];
      match CharIndex(rest, '-')
      case None => None
      case Some(k) =>
        var y := DigitValue(s[0]) * 1000 + DigitValue(s[1]) * 100 + DigitValue(s[2]) * 10 + DigitValue(s[3]);
        match (MonthField(rest[..k]), DayField(rest[k + 1..]))
        case (Some(m), Some(d)) =>
          if 1 <= y && d <= DaysInMonth(y, m) then Some(Date(y, m, d)) else None
        case _ => None
  }

  lemma FourDigits(n: nat)
    requires 1000 <= n < 10000
    ensures var s := NatToString(n);
            |s| == 4 && s[0] == DigitChar(n / 1000) && s[1] == DigitChar(n / 100 % 10)
            && s[2] == DigitChar(n / 10 % 10) && s[3] == DigitChar(n % 10)
  {
  }

  lemma MonthFieldPad(m: int)
    requires 1 <= m <= 12
    ensures MonthField(Pad2(m)) == Some(m)
  {
  }

  lemma DayFieldPad(d: int)
    requires 1 <= d <= 31
    ensures DayField(Pad2(d)) == Some(d)
  {
  }

  lemma IsoTextShape(d: Date)
    requires Valid(d) && 1000 <= d.year <= 9999
    ensures var s := IsoText(d);
            |s| >= 5 && s[..4] == NatToString(d.year) && s[4] == '-'
            && s[5..] == Pad2(d.month) + "-" + Pad2(d.day)
  {
    FourDigits(d.year);
    var s := IsoText(d);
    assert s == NatToString(d.year) + "-" + (Pad2(d.month) + "-" + Pad2(d.day));
  }

  /** Parsing the `%Y-%m-%d` text of a date of years 1000 to 9999 gives the date back. */
  lemma ParseIsoText(d: Date)
    requires Valid(d) && 1000 <= d.year <= 9999
    ensures ParseIso(IsoText(d)) == Some(d)
  {
    var s := IsoText(d);
    IsoTextShape(d);
    YearValue(d.year, s[..4]);
    var rest := s[5..];
    CharIndexAt(rest, '-', 2);
    assert rest[..2] == Pad2(d.month) && rest[3..] == Pad2(d.day);
    MonthFieldPad(d.month);
    DayFieldPad(d.day);
    ParseIsoParts(s, d.year, d.month, d.day);
  }

  /** The four year digits read back as the year. */
  lemma YearValue(n: nat, s: string)
    requires 1000 <= n < 10000 && s == NatToString(n)
    ensures |s| == 4 && AllDigits(s)
    ensures DigitValue(s[0]) * 1000 + DigitValue(s[1]) * 100 + DigitValue(s[2]) * 10 + DigitValue(s[3]) == n
  {
    FourDigits(n);
  }

  /** `ParseIso` on a text whose fields have already been read. */
  lemma ParseIsoParts(s: string, y: int, m: int, d: int)
    requires |s| >= 5 && AllDigits(s[..4]) && s[4] == '-'
    requires DigitValue(s[0]) * 1000 + DigitValue(s[1]) * 100 + DigitValue(s[2]) * 10 + DigitValue(s[3]) == y
    requires CharIndex(s[5..], '-') == Some(2)
    requires MonthField(s[5..][..2]) == Some(m) && DayField(s[5..][3..]) == Some(d)
    requires 1 <= y && d <= DaysInMonth(y, m)
    ensures ParseIso(s) == Some(Date(y, m, d))
  {
  }
}
