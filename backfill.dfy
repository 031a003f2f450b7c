/**
 * The backfill planner of `scheduler_cli.py` (`run_backfill` and its
 * date-range helpers): the list of date points, the date parameters of
 * each point, the rewriting of `${...}` templates in a copy of the
 * workflow configuration, and the loop that runs the workflow once per
 * point and collects the points that failed.
 *
 * Reading the two JSON files, printing, the clock and the confirmation
 * prompt are not modelled as I/O: the configurations arrive as values,
 * the prompt's answer as a parameter, and building and running the
 * workflow of one date point as a function given to the loop.
 */
module Backfill {
  import opened Outcomes
  import opened Text
  import opened Calendar
  import opened Params
  import opened Tasks
  import opened Config

  // ---------------------------------------------------------------------
  // Day arithmetic with Python's bounds

  /** The last day `datetime` can represent. */
  const MaxDate := Date(9999, 12, 31)

  /** `date.max.toordinal()`. */
  const MaxOrdinal: int := 3652059

  lemma MaxDateOrdinal()
    ensures Valid(MaxDate) && Ordinal(MaxDate) == MaxOrdinal
  {
  }

  /** The day numbers `datetime` accepts are exactly those of years 1 to 9999. */
  lemma OrdinalYears(d: Date)
    requires Valid(d)
    ensures 1 <= Ordinal(d) <= MaxOrdinal <==> 1 <= d.year <= 9999
  {
    MaxDateOrdinal();
    OrderIsOrdinalOrder(d, MaxDate);
    OrderIsOrdinalOrder(Date(1, 1, 1), d);
  }

  /** `d + timedelta(days=n)`, or None where Python raises `OverflowError`. */
  function Shift(d: Date, n: int): (r: Option<Date>)
    requires Valid(d)
    ensures r.Some? <==> 1 <= Ordinal(d) + n <= MaxOrdinal
    ensures r.Some? ==> r.value == AddDays(d, n) && 1 <= r.value.year <= 9999
  {
    if 1 <= Ordinal(d) + n <= MaxOrdinal then
      OrdinalYears(AddDays(d, n));
      Some(AddDays(d, n))
    else None
  }

  /** Two valid dates with the same day number are the same date. */
  lemma SameOrdinal(a: Date, b: Date)
    requires Valid(a) && Valid(b) && Ordinal(a) == Ordinal(b)
    ensures a == b
  {
    OrderIsOrdinalOrder(a, b);
  }

  /** The `%Y-%m-%d` texts of a list of dates. */
  function IsoTexts(ds: seq<Date>): (r: seq<string>)
    requires forall i :: 0 <= i < |ds| ==> Valid(ds[i])
    ensures |r| == |ds| && forall i :: 0 <= i < |ds| ==> r[i] == IsoText(ds[i])
  {
    seq(|ds|, i requires 0 <= i < |ds| => IsoText(ds[i]))
  }

  /** One element more of a prefix. */
  lemma PrefixStep<T>(all: seq<T>, k: nat, x: T)
    requires k < |all| && all[k] == x
    ensures all[..k] + [x] == all[..k + 1]
  {
  }

  // ---------------------------------------------------------------------
  // get_date_range, get_week_range, get_month_range

  /**
   * Why a range helper stops the program: a text that is not a
   * `%Y-%m-%d` date (and, for months, a month past year 9999), both
   * reported as a `ValueError` before `sys.exit(1)`; an end before the
   * start, also `sys.exit(1)`; and the `OverflowError` of stepping past
   * 9999-12-31, which nothing catches.
   */
  datatype RangeError = InvalidDate | EndBeforeStart | DateOverflow

  /** Every day from `s` to `e`, both included. */
  function DayDates(s: Date, e: Date): (ds: seq<Date>)
    requires Valid(s) && Valid(e) && Ordinal(s) <= Ordinal(e)
    ensures |ds| == Ordinal(e) - Ordinal(s) + 1
    ensures forall k :: 0 <= k < |ds| ==> Valid(ds[k]) && ds[k] == AddDays(s, k)
  {
    seq(Ordinal(e) - Ordinal(s) + 1, k => AddDays(s, k))
  }

  /** What `get_date_range(start, end)` returns, or why it stops. */
  function DayRange(startText: string, endText: string): Result<seq<string>, RangeError>
  {
    match (ParseIso(startText), ParseIso(endText))
    case (Some(s), Some(e)) =>
      if !LessEq(s, e) then Failure(EndBeforeStart)
      else
        OrderIsOrdinalOrder(s, e);
        if Ordinal(e) + 1 > MaxOrdinal then Failure(DateOverflow) else Success(IsoTexts(DayDates(s, e)))
    case _ => Failure(InvalidDate)
  }

  /** Once both dates parse and are in order, the range is the days between or the overflow. */
  lemma DayRangeOf(startText: string, endText: string, s: Date, e: Date)
    requires ParseIso(startText) == Some(s) && ParseIso(endText) == Some(e) && LessEq(s, e)
    ensures Ordinal(s) <= Ordinal(e)
    ensures DayRange(startText, endText)
            == if Ordinal(e) + 1 > MaxOrdinal then Failure(DateOverflow) else Success(IsoTexts(DayDates(s, e)))
  {
    OrderIsOrdinalOrder(s, e);
  }

  /** `get_date_range`: parse both dates, check their order, then walk the days. */
  method GetDateRange(startText: string, endText: string) returns (r: Result<seq<string>, RangeError>)
    ensures r == DayRange(startText, endText)
  {
    var ps, pe := ParseIso(startText), ParseIso(endText);
    if ps.None? || pe.None? {
      return Failure(InvalidDate);
    }
    var s, e := ps.value, pe.value;
    if !LessEq(s, e) {
      return Failure(EndBeforeStart);
    }
    DayRangeOf(startText, endText, s, e);
    r := DaysFrom(s, e);
  }

  /** The loop of `get_date_range`: from the start day while it is not after the end. */
  method DaysFrom(s: Date, e: Date) returns (r: Result<seq<string>, RangeError>)
    requires Valid(s) && Valid(e) && 1 <= s.year && e.year <= 9999 && Ordinal(s) <= Ordinal(e)
    ensures r == if Ordinal(e) + 1 > MaxOrdinal then Failure(DateOverflow) else Success(IsoTexts(DayDates(s, e)))
  {
    assert Ordinal(e) <= MaxOrdinal by { OrdinalYears(e); }
    assert 1 <= Ordinal(s) by { OrdinalYears(s); }
    ghost var all := IsoTexts(DayDates(s, e));
    var dates: seq<string> := [];
    var current := s;
    var k := 0;
    while LessEq(current, e)
      invariant Valid(current) && Ordinal(current) == Ordinal(s) + k
      invariant 0 <= k <= |all| && Ordinal(current) <= MaxOrdinal
      invariant dates == all[..k]
      decreases Ordinal(e) - Ordinal(current) + 1
    {
      DayStep(s, e, current, k);
      PrefixStep(all, k, IsoText(current));
      dates := dates + [IsoText(current)];
      var next := Shift(current, 1);
      if next.None? {
        assert Ordinal(e) + 1 > MaxOrdinal;
        return Failure(DateOverflow);
      }
      current := next.value;
      k := k + 1;
    }
    DayLoopEnd(s, e, current, k);
    assert all[..k] == all;
    return Success(dates);
  }

  /** The day loop ends on the day after the end, having listed every day. */
  lemma DayLoopEnd(s: Date, e: Date, current: Date, k: int)
    requires Valid(s) && Valid(e) && Valid(current) && Ordinal(s) <= Ordinal(e)
    requires Ordinal(current) == Ordinal(s) + k && 0 <= k <= |DayDates(s, e)|
    requires Ordinal(current) <= MaxOrdinal && !LessEq(current, e)
    ensures Ordinal(e) + 1 <= MaxOrdinal && k == |IsoTexts(DayDates(s, e))|
  {
    OrderIsOrdinalOrder(current, e);
  }

  /** One turn of the day loop: the current day is the next one of the range. */
  lemma DayStep(s: Date, e: Date, current: Date, k: int)
    requires Valid(s) && Valid(e) && Valid(current) && Ordinal(s) <= Ordinal(e)
    requires Ordinal(current) == Ordinal(s) + k && k >= 0 && LessEq(current, e)
    ensures k < |DayDates(s, e)| && IsoTexts(DayDates(s, e))[k] == IsoText(current)
  {
    OrderIsOrdinalOrder(current, e);
    SameOrdinal(current, AddDays(s, k));
  }

  /** The Monday on or before `d`: `d` moved back by its weekday. */
  function Monday(d: Date): (m: Date)
    requires Valid(d)
    ensures Valid(m) && Weekday(m) == 0
    ensures Ordinal(m) <= Ordinal(d) < Ordinal(m) + 7
  {
    MondayOnOrBefore(d);
    AddDays(d, -Weekday(d))
  }

  /** How many weeks `get_week_range` lists: the Mondays from `Monday(s)` up to `e`. */
  function WeekCount(s: Date, e: Date): (n: nat)
    requires Valid(s) && Valid(e) && Ordinal(s) <= Ordinal(e)
    ensures n >= 1
  {
    (Ordinal(e) - Ordinal(Monday(s))) / 7 + 1
  }

  /** The Mondays from the week of `s` up to `e`. */
  function WeekDates(s: Date, e: Date): (ds: seq<Date>)
    requires Valid(s) && Valid(e) && Ordinal(s) <= Ordinal(e)
    ensures |ds| == WeekCount(s, e)
    ensures forall k :: 0 <= k < |ds| ==> Valid(ds[k]) && ds[k] == AddDays(Monday(s), 7 * k)
  {
    seq(WeekCount(s, e), k => AddDays(Monday(s), 7 * k))
  }

  /**
   * What `get_week_range(start, end)` returns, or why it stops: the step
   * after the last Monday overflows when it passes 9999-12-31.
   */
  function WeekRange(startText: string, endText: string): Result<seq<string>, RangeError>
  {
    match (ParseIso(startText), ParseIso(endText))
    case (Some(s), Some(e)) =>
      if !LessEq(s, e) then Failure(EndBeforeStart)
      else
        OrderIsOrdinalOrder(s, e);
        if Ordinal(Monday(s)) + 7 * WeekCount(s, e) > MaxOrdinal then Failure(DateOverflow)
        else Success(IsoTexts(WeekDates(s, e)))
    case _ => Failure(InvalidDate)
  }

  /** Once both dates parse and are in order, the range is the Mondays up to the end or the overflow. */
  lemma WeekRangeOf(startText: string, endText: string, s: Date, e: Date)
    requires ParseIso(startText) == Some(s) && ParseIso(endText) == Some(e) && LessEq(s, e)
    ensures Ordinal(s) <= Ordinal(e)
    ensures WeekRange(startText, endText)
            == if Ordinal(Monday(s)) + 7 * WeekCount(s, e) > MaxOrdinal then Failure(DateOverflow)
               else Success(IsoTexts(WeekDates(s, e)))
  {
    OrderIsOrdinalOrder(s, e);
  }

  /** The Monday of a date of year 1 or later is not before 0001-01-01, itself a Monday. */
  lemma MondayInRange(d: Date)
    requires Valid(d) && 1 <= d.year
    ensures 1 <= Ordinal(Monday(d))
  {
    var o := Ordinal(d);
    assert 1 <= o by { OrdinalYears(d); }
    var m := Monday(d);
    FirstMonday(o, Ordinal(m));
  }

  /** A day number of weekday 0 less than seven days before a positive one is positive. */
  lemma FirstMonday(o: int, mo: int)
    requires 1 <= o && mo <= o < mo + 7 && (mo + 6) % 7 == 0
    ensures 1 <= mo
  {
  }

  /** `get_week_range`: parse both dates, check their order, then walk the Mondays. */
  method GetWeekRange(startText: string, endText: string) returns (r: Result<seq<string>, RangeError>)
    ensures r == WeekRange(startText, endText)
  {
    var ps, pe := ParseIso(startText), ParseIso(endText);
    if ps.None? || pe.None? {
      return Failure(InvalidDate);
    }
    var s, e := ps.value, pe.value;
    if !LessEq(s, e) {
      return Failure(EndBeforeStart);
    }
    WeekRangeOf(startText, endText, s, e);
    r := WeeksFrom(s, e);
  }

  /** The loop of `get_week_range`: back to Monday, then steps of seven days while not after the end. */
  method WeeksFrom(s: Date, e: Date) returns (r: Result<seq<string>, RangeError>)
    requires Valid(s) && Valid(e) && 1 <= s.year && e.year <= 9999 && Ordinal(s) <= Ordinal(e)
    ensures r == if Ordinal(Monday(s)) + 7 * WeekCount(s, e) > MaxOrdinal then Failure(DateOverflow)
                 else Success(IsoTexts(WeekDates(s, e)))
  {
    assert Ordinal(e) <= MaxOrdinal by { OrdinalYears(e); }
    MondayInRange(s);
    var current := s;
    var w := Weekday(s);
    if w > 0 {
      current := AddDays(s, -w);
    } else {
      AddDaysZero(s);
    }
    ghost var m := Monday(s);
    ghost var all := IsoTexts(WeekDates(s, e));
    var dates: seq<string> := [];
    var k := 0;
    while LessEq(current, e)
      invariant Valid(current) && Ordinal(current) == Ordinal(m) + 7 * k
      invariant 0 <= k <= |all| && 1 <= Ordinal(current) <= MaxOrdinal
      invariant dates == all[..k]
      decreases Ordinal(e) - Ordinal(current) + 7
    {
      WeekStep(s, e, current, k);
      PrefixStep(all, k, IsoText(current));
      dates := dates + [IsoText(current)];
      var next := Shift(current, 7);
      if next.None? {
        assert Ordinal(m) + 7 * WeekCount(s, e) > MaxOrdinal;
        return Failure(DateOverflow);
      }
      current := next.value;
      k := k + 1;
    }
    OrderIsOrdinalOrder(current, e);
    WeeksReached(Ordinal(m), Ordinal(e), k);
    assert k == |all|;
    assert Ordinal(m) + 7 * WeekCount(s, e) <= MaxOrdinal;
    assert all[..k] == all;
    return Success(dates);
  }

  /** The week loop stops after exactly `WeekCount` turns. */
  lemma WeeksReached(mo: int, eo: int, k: int)
    requires mo <= eo < mo + 7 * k && 0 <= k <= (eo - mo) / 7 + 1
    ensures k == (eo - mo) / 7 + 1
  {
  }

  /**
   * One turn of the week loop: the current Monday is the next one of the
   * range, and stepping past it overflows only after the last one.
   */
  lemma WeekStep(s: Date, e: Date, current: Date, k: int)
    requires Valid(s) && Valid(e) && Valid(current) && Ordinal(s) <= Ordinal(e) && Ordinal(e) <= MaxOrdinal
    requires Ordinal(current) == Ordinal(Monday(s)) + 7 * k && k >= 0 && LessEq(current, e)
    ensures k < WeekCount(s, e) && IsoTexts(WeekDates(s, e))[k] == IsoText(current)
    ensures Ordinal(current) + 7 > MaxOrdinal ==> Ordinal(Monday(s)) + 7 * WeekCount(s, e) > MaxOrdinal && k + 1 == WeekCount(s, e)
    ensures Ordinal(current) + 7 <= MaxOrdinal ==> Ordinal(Monday(s)) + 7 * WeekCount(s, e) <= MaxOrdinal || k + 1 < WeekCount(s, e)
  {
    OrderIsOrdinalOrder(current, e);
    SameOrdinal(current, AddDays(Monday(s), 7 * k));
  }

  /** Months counted from year 0: the index of the month of `d`. */
  function MonthIndex(d: Date): int { d.year * 12 + d.month - 1 }

  /** The first day of the month with the given index. */
  function MonthStart(i: int): (d: Date)
    ensures Valid(d) && d.day == 1 && MonthIndex(d) == i
  {
    Date(i / 12, i % 12 + 1, 1)
  }

  /** The first days of the months from that of `s` to that of `e`. */
  function MonthDates(s: Date, e: Date): (ds: seq<Date>)
    requires MonthIndex(s) <= MonthIndex(e)
    ensures |ds| == MonthIndex(e) - MonthIndex(s) + 1
    ensures forall k :: 0 <= k < |ds| ==> ds[k] == MonthStart(MonthIndex(s) + k)
  {
    seq(MonthIndex(e) - MonthIndex(s) + 1, k => MonthStart(MonthIndex(s) + k))
  }

  /**
   * What `get_month_range(start, end)` returns, or why it stops: moving
   * past December 9999 makes `replace` raise a `ValueError`.
   */
  function MonthRange(startText: string, endText: string): Result<seq<string>, RangeError>
  {
    match (ParseIso(startText), ParseIso(endText))
    case (Some(s), Some(e)) =>
      if !LessEq(s, e) then Failure(EndBeforeStart)
      else if MonthStart(MonthIndex(e) + 1).year > 9999 then Failure(InvalidDate)
      else Success(IsoTexts(MonthDates(s, e)))
    case _ => Failure(InvalidDate)
  }

  /** A date is fixed by its month index, its month number and its day. */
  lemma SameMonth(a: Date, b: Date)
    requires 1 <= a.month <= 12 && 1 <= b.month <= 12 && a.day == b.day && MonthIndex(a) == MonthIndex(b)
    ensures a == b
  {
  }

  /** A month's first day is not after `e` exactly when its month is not after `e`'s. */
  lemma MonthStartOrder(i: int, e: Date)
    requires Valid(e)
    ensures LessEq(MonthStart(i), e) <==> i <= MonthIndex(e)
  {
  }

  /** Once both dates parse and are in order, the range is the months up to the end or the failure. */
  lemma MonthRangeOf(startText: string, endText: string, s: Date, e: Date)
    requires ParseIso(startText) == Some(s) && ParseIso(endText) == Some(e) && LessEq(s, e)
    ensures MonthIndex(s) <= MonthIndex(e)
    ensures MonthRange(startText, endText)
            == if MonthStart(MonthIndex(e) + 1).year > 9999 then Failure(InvalidDate)
               else Success(IsoTexts(MonthDates(s, e)))
  {
  }

  /** `get_month_range`: parse both dates, check their order, then walk the months. */
  method GetMonthRange(startText: string, endText: string) returns (r: Result<seq<string>, RangeError>)
    ensures r == MonthRange(startText, endText)
  {
    var ps, pe := ParseIso(startText), ParseIso(endText);
    if ps.None? || pe.None? {
      return Failure(InvalidDate);
    }
    var s, e := ps.value, pe.value;
    if !LessEq(s, e) {
      return Failure(EndBeforeStart);
    }
    MonthRangeOf(startText, endText, s, e);
    r := MonthsFrom(s, e);
  }

  /** The loop of `get_month_range`: the first of the start's month, then the first of each next month. */
  method MonthsFrom(s: Date, e: Date) returns (r: Result<seq<string>, RangeError>)
    requires Valid(s) && Valid(e) && e.year <= 9999 && MonthIndex(s) <= MonthIndex(e)
    ensures r == if MonthStart(MonthIndex(e) + 1).year > 9999 then Failure(InvalidDate)
                 else Success(IsoTexts(MonthDates(s, e)))
  {
    var current := Date(s.year, s.month, 1);
    assert current == MonthStart(MonthIndex(s));
    ghost var all := IsoTexts(MonthDates(s, e));
    var dates: seq<string> := [];
    var k := 0;
    while LessEq(current, e)
      invariant current == MonthStart(MonthIndex(s) + k) && current.year <= 9999
      invariant 0 <= k <= |all|
      invariant dates == all[..k]
      decreases MonthIndex(e) - MonthIndex(current) + 1
    {
      MonthStep(s, e, current, k);
      PrefixStep(all, k, IsoText(current));
      dates := dates + [IsoText(current)];
      var month := current.month + 1;
      var year := current.year;
      if month > 12 {
        month := 1;
        year := year + 1;
      }
      if year > 9999 {
        assert k == MonthIndex(e) - MonthIndex(s);
        assert MonthStart(MonthIndex(e) + 1).year > 9999;
        return Failure(InvalidDate);
      }
      current := Date(year, month, 1);
      SameMonth(current, MonthStart(MonthIndex(s) + k + 1));
      k := k + 1;
    }
    MonthStartOrder(MonthIndex(s) + k, e);
    assert k == |all| && current == MonthStart(MonthIndex(e) + 1);
    assert all[..k] == all;
    return Success(dates);
  }

  /** One turn of the month loop: the current first day is the next one of the range. */
  lemma MonthStep(s: Date, e: Date, current: Date, k: int)
    requires Valid(e) && MonthIndex(s) <= MonthIndex(e) && k >= 0
    requires current == MonthStart(MonthIndex(s) + k) && LessEq(current, e)
    ensures k < |MonthDates(s, e)| && IsoTexts(MonthDates(s, e))[k] == IsoText(current)
  {
    MonthStartOrder(MonthIndex(s) + k, e);
  }

  // ---------------------------------------------------------------------
  // What the three ranges are

  /**
   * The day range starts at the start, ends at the end, moves one day at
   * a time, and holds every day between the two.
   */
  lemma DayDatesSpec(s: Date, e: Date)
    requires Valid(s) && Valid(e) && Ordinal(s) <= Ordinal(e)
    ensures var ds := DayDates(s, e);
            && ds[0] == s && ds[|ds| - 1] == e
            && (forall k :: 0 <= k < |ds| - 1 ==> ds[k + 1] == NextDay(ds[k]))
            && (forall k :: 0 <= k < |ds| ==> LessEq(s, ds[k]) && LessEq(ds[k], e))
            && (forall d :: Valid(d) && LessEq(s, d) && LessEq(d, e) ==> d in ds)
  {
    var ds := DayDates(s, e);
    AddDaysZero(s);
    SameOrdinal(ds[|ds| - 1], e);
    forall k | 0 <= k < |ds| - 1 ensures ds[k + 1] == NextDay(ds[k]) {
      SameOrdinal(ds[k + 1], NextDay(ds[k]));
    }
    forall k | 0 <= k < |ds| ensures LessEq(s, ds[k]) && LessEq(ds[k], e) {
      OrderIsOrdinalOrder(s, ds[k]);
      OrderIsOrdinalOrder(ds[k], e);
    }
    forall d | Valid(d) && LessEq(s, d) && LessEq(d, e) ensures d in ds {
      OrderIsOrdinalOrder(s, d);
      OrderIsOrdinalOrder(d, e);
      var k := Ordinal(d) - Ordinal(s);
      SameOrdinal(d, ds[k]);
    }
  }

  /**
   * The week range starts at the Monday on or before the start, holds
   * only Mondays seven days apart, none after the end, and stops at the
   * last Monday not after the end.
   */
  lemma WeekDatesSpec(s: Date, e: Date)
    requires Valid(s) && Valid(e) && Ordinal(s) <= Ordinal(e)
    ensures var ds := WeekDates(s, e);
            && ds[0] == Monday(s) && LessEq(ds[0], s) && Ordinal(s) - Ordinal(ds[0]) < 7
            && (forall k :: 0 <= k < |ds| ==> Weekday(ds[k]) == 0 && LessEq(ds[k], e))
            && (forall k :: 0 <= k < |ds| - 1 ==> ds[k + 1] == AddDays(ds[k], 7))
            && !LessEq(AddDays(ds[|ds| - 1], 7), e)
  {
    var ds := WeekDates(s, e);
    var m := Monday(s);
    AddDaysZero(m);
    OrderIsOrdinalOrder(m, s);
    forall k | 0 <= k < |ds| ensures Weekday(ds[k]) == 0 && LessEq(ds[k], e) {
      WeekdayPeriodic(m, k);
      OrderIsOrdinalOrder(ds[k], e);
    }
    forall k | 0 <= k < |ds| - 1 ensures ds[k + 1] == AddDays(ds[k], 7) {
      SameOrdinal(ds[k + 1], AddDays(ds[k], 7));
    }
    OrderIsOrdinalOrder(AddDays(ds[|ds| - 1], 7), e);
  }

  /** The first day of the month after that of `d`; December rolls over to January. */
  function NextMonth(d: Date): Date
  {
    if d.month == 12 then Date(d.year + 1, 1, 1) else Date(d.year, d.month + 1, 1)
  }

  /**
   * The month range starts at the first of the start's month, holds only
   * first days of consecutive months, none after the end, and stops at
   * the end's month.
   */
  lemma MonthDatesSpec(s: Date, e: Date)
    requires Valid(s) && Valid(e) && LessEq(s, e)
    ensures var ds := MonthDates(s, e);
            && ds[0] == Date(s.year, s.month, 1)
            && (forall k :: 0 <= k < |ds| ==> Valid(ds[k]) && ds[k].day == 1 && LessEq(ds[k], e))
            && (forall k :: 0 <= k < |ds| - 1 ==> ds[k + 1] == NextMonth(ds[k]))
            && ds[|ds| - 1] == Date(e.year, e.month, 1) && !LessEq(NextMonth(ds[|ds| - 1]), e)
  {
    var ds := MonthDates(s, e);
    SameMonth(ds[0], Date(s.year, s.month, 1));
    SameMonth(ds[|ds| - 1], Date(e.year, e.month, 1));
    forall k | 0 <= k < |ds| ensures LessEq(ds[k], e) {
      MonthStartOrder(MonthIndex(s) + k, e);
    }
    forall k | 0 <= k < |ds| - 1 ensures ds[k + 1] == NextMonth(ds[k]) {
      SameMonth(ds[k + 1], NextMonth(ds[k]));
    }
  }

  /** A successful range is never empty, so `date_range[0]` always exists. */
  lemma RangesNonEmpty(startText: string, endText: string)
    ensures DayRange(startText, endText).Success? ==> |DayRange(startText, endText).value| > 0
    ensures WeekRange(startText, endText).Success? ==> |WeekRange(startText, endText).value| > 0
    ensures MonthRange(startText, endText).Success? ==> |MonthRange(startText, endText).value| > 0
  {
    var ps, pe := ParseIso(startText), ParseIso(endText);
    if ps.Some? && pe.Some? && LessEq(ps.value, pe.value) {
      DayRangeOf(startText, endText, ps.value, pe.value);
      WeekRangeOf(startText, endText, ps.value, pe.value);
    }
  }

  /**
   * Between two dates that parse and are in order, the day range
   * overflows exactly when the end is 9999-12-31, the last day Python
   * can step from.
   */
  lemma DayRangeOverflow(startText: string, endText: string, s: Date, e: Date)
    requires ParseIso(startText) == Some(s) && ParseIso(endText) == Some(e) && LessEq(s, e)
    ensures DayRange(startText, endText).Failure? <==> e == MaxDate
  {
    DayRangeOf(startText, endText, s, e);
    OrdinalYears(e);
    SameOrdinalIff(e, MaxDate);
  }

  /**
   * The month range stops with a `ValueError` exactly when the end lies
   * in December 9999, whose next month has no year `datetime` accepts.
   */
  lemma MonthRangeOverflow(startText: string, endText: string, s: Date, e: Date)
    requires ParseIso(startText) == Some(s) && ParseIso(endText) == Some(e) && LessEq(s, e)
    ensures MonthRange(startText, endText).Failure? <==> e.year == 9999 && e.month == 12
  {
  }

  /** The week range overflows only for an end in the last week of 9999. */
  lemma WeekRangeOverflow(startText: string, endText: string, s: Date, e: Date)
    requires ParseIso(startText) == Some(s) && ParseIso(endText) == Some(e) && LessEq(s, e)
    ensures WeekRange(startText, endText).Failure? ==> Ordinal(e) + 7 > MaxOrdinal
  {
    WeekRangeOf(startText, endText, s, e);
    if WeekRange(startText, endText).Failure? {
      WeekDatesSpec(s, e);
      var ds := WeekDates(s, e);
      OrderIsOrdinalOrder(ds[|ds| - 1], e);
    }
  }

  lemma SameOrdinalIff(a: Date, b: Date)
    requires Valid(a) && Valid(b)
    ensures Ordinal(a) == Ordinal(b) <==> a == b
  {
    OrderIsOrdinalOrder(a, b);
  }

  // ---------------------------------------------------------------------
  // The backfill parameters and the date points

  /**
   * The backfill parameters file, with the defaults of its `get` calls
   * applied: `date_param_name` ("day_id" when missing, "" for any falsy
   * value), `date_param_names`, `date_param_formats`, `custom_dates`,
   * `start_date` and `end_date` (None when the key is missing),
   * `date_granularity` ("day" when missing), the truthiness of `dry_run`
   * and the custom `params`.
   */
  datatype BackfillConfig = BackfillConfig(
    dateParamName: string, dateParamNames: seq<string>, dateParamFormats: map<string, Value>,
    customDates: seq<string>, startDate: Option<string>, endDate: Option<string>,
    granularity: string, dryRun: bool, params: Store)

  /** Why `run_backfill` returns False before it runs anything. */
  datatype Refusal = UnsupportedGranularity(granularity: string) | NoDateRange | NotConfirmed

  /** An exception that leaves `run_backfill`: none of these is caught there. */
  datatype Stop =
    | RangeStopped(rangeError: RangeError)    // a date-range helper raised
    | BadDatePoint(point: string)        // `strptime` of a date point raised
    | ShiftOverflow(key: string)         // the offset of a `${...}` parameter left datetime's range
    | BuildFailed(configError: ConfigError)    // `load_workflow_from_config` raised

  /** How the planning before the date loop can end early. */
  datatype Halt = Refused(refusal: Refusal) | Stopped(stop: Stop)

  function RangeOutcome(r: Result<seq<string>, RangeError>): Result<seq<string>, Halt>
  {
    match r
    case Success(ds) => Success(ds)
    case Failure(e) => Failure(Stopped(RangeStopped(e)))
  }

  /**
   * The date points: non-empty `custom_dates` win; otherwise both
   * `start_date` and `end_date` must be present and the lower-cased
   * granularity picks the range helper.
   */
  function DatePoints(cfg: BackfillConfig): Result<seq<string>, Halt>
  {
    if |cfg.customDates| > 0 then Success(cfg.customDates)
    else if cfg.startDate.Some? && cfg.endDate.Some? then
      var g := Lower(cfg.granularity);
      if g == "day" then RangeOutcome(DayRange(cfg.startDate.value, cfg.endDate.value))
      else if g == "week" then RangeOutcome(WeekRange(cfg.startDate.value, cfg.endDate.value))
      else if g == "month" then RangeOutcome(MonthRange(cfg.startDate.value, cfg.endDate.value))
      else Failure(Refused(UnsupportedGranularity(g)))
    else Failure(Refused(NoDateRange))
  }

  /** The date-range part of `run_backfill`, calling the three helpers. */
  method SelectDates(cfg: BackfillConfig) returns (r: Result<seq<string>, Halt>)
    ensures r == DatePoints(cfg)
  {
    if |cfg.customDates| > 0 {
      return Success(cfg.customDates);
    }
    if cfg.startDate.None? || cfg.endDate.None? {
      return Failure(Refused(NoDateRange));
    }
    var g := Lower(cfg.granularity);
    var range: Result<seq<string>, RangeError>;
    if g == "day" {
      range := GetDateRange(cfg.startDate.value, cfg.endDate.value);
    } else if g == "week" {
      range := GetWeekRange(cfg.startDate.value, cfg.endDate.value);
    } else if g == "month" {
      range := GetMonthRange(cfg.startDate.value, cfg.endDate.value);
    } else {
      return Failure(Refused(UnsupportedGranularity(g)));
    }
    r := RangeOutcome(range);
  }

  /**
   * There is always a first date point to show (`date_range[0]` cannot
   * raise), custom dates take precedence, and the refusals are exactly a
   * missing range or an unknown granularity.
   */
  lemma DatePointsSpec(cfg: BackfillConfig)
    ensures DatePoints(cfg).Success? ==> |DatePoints(cfg).value| > 0
    ensures |cfg.customDates| > 0 ==> DatePoints(cfg) == Success(cfg.customDates)
    ensures (DatePoints(cfg).Failure? && DatePoints(cfg).error.Refused?) <==>
      && |cfg.customDates| == 0
      && (cfg.startDate.None? || cfg.endDate.None? || Lower(cfg.granularity) !in {"day", "week", "month"})
    ensures DatePoints(cfg).Failure? && DatePoints(cfg).error.Refused? ==>
      DatePoints(cfg).error.refusal != NotConfirmed
  {
    if |cfg.customDates| == 0 && cfg.startDate.Some? && cfg.endDate.Some? {
      RangesNonEmpty(cfg.startDate.value, cfg.endDate.value);
    }
  }

  // ---------------------------------------------------------------------
  // The date parameters of one date point

  /** `date_param_names`, or the one `date_param_name` when that list is empty. */
  function DateNames(cfg: BackfillConfig): seq<string>
  {
    if |cfg.dateParamNames| == 0 && cfg.dateParamName != "" then [cfg.dateParamName] else cfg.dateParamNames
  }

  /** The `<name>_no_dash` companion of a parameter. */
  function NoDashKey(n: string): string { n + "_no_dash" }

  function NoDashKeys(names: seq<string>): (ks: seq<string>)
    ensures |ks| == |names| && forall i :: 0 <= i < |names| ==> ks[i] == NoDashKey(names[i])
  {
    seq(|names|, i requires 0 <= i < |names| => NoDashKey(names[i]))
  }

  lemma NoDashKeysCons(names: seq<string>)
    requires |names| > 0
    ensures NoDashKeys(names) == [NoDashKey(names[0])] + NoDashKeys(names[1..])
  {
  }

  lemma NoDashInjective(a: string, b: string)
    requires NoDashKey(a) == NoDashKey(b)
    ensures a == b
  {
    assert a == NoDashKey(a)[..|a|];
  }

  /**
   * Date parameter `name` on `day` (whose text is `point`): formatted by
   * its string format when it has one; a format of another type makes
   * `strftime` raise, which falls back to the point itself.
   */
  function Formatted(formats: map<string, Value>, name: string, point: string, day: Date): string
    requires Valid(day)
  {
    if name in formats && formats[name].Str? then Strftime(formats[name].s, AtMidnight(day)) else point
  }

  /** The first loop: `date_params[name] = ...` for each name in turn. */
  function PutFormatted(dp: Dict, names: seq<string>, formats: map<string, Value>, point: string, day: Date): Dict
    requires Valid(day)
    decreases |names|
  {
    if |names| == 0 then dp
    else PutFormatted(Put(dp, names[0], Str(Formatted(formats, names[0], point, day))), names[1..], formats, point, day)
  }

  /** The second loop: a `<name>_no_dash` entry for each name that has none yet. */
  function PutNoDash(dp: Dict, names: seq<string>): Dict
    decreases |names|
  {
    if |names| == 0 then dp
    else
      var n := names[0];
      var next :=
        if NoDashKey(n) !in Keys(dp) && Lookup(dp, n).Some?
        then Put(dp, NoDashKey(n), Str(RemoveDashes(Show(Lookup(dp, n).value))))
        else dp;
      PutNoDash(next, names[1..])
  }

  /** The `date_params` of one date point, before any workflow parameter is rewritten. */
  function Bundle(names: seq<string>, formats: map<string, Value>, point: string, day: Date): Dict
    requires Valid(day)
  {
    PutNoDash(PutFormatted([], names, formats, point, day), names)
  }

  /** The two loops that fill `date_params`. */
  method DateBundle(names: seq<string>, formats: map<string, Value>, point: string, day: Date) returns (dp: Dict)
    requires Valid(day)
    ensures dp == Bundle(names, formats, point, day)
  {
    dp := [];
    var i := 0;
    while i < |names|
      invariant 0 <= i <= |names|
      invariant PutFormatted(dp, names[i..], formats, point, day) == PutFormatted([], names, formats, point, day)
    {
      assert names[i..][1..] == names[i + 1..];
      dp := Put(dp, names[i], Str(Formatted(formats, names[i], point, day)));
      i := i + 1;
    }
    assert names[i..] == [];
    ghost var formatted := dp;
    i := 0;
    while i < |names|
      invariant 0 <= i <= |names|
      invariant PutNoDash(dp, names[i..]) == PutNoDash(formatted, names)
    {
      var n := names[i];
      assert names[i..][1..] == names[i + 1..];
      if NoDashKey(n) !in Keys(dp) {
        match Lookup(dp, n)
        case Some(v) =>
          dp := Put(dp, NoDashKey(n), Str(RemoveDashes(Show(v))));
        case None =>
      }
      i := i + 1;
    }
    assert names[i..] == [];
  }

  lemma {:induction false} PutFormattedSpec(dp: Dict, names: seq<string>, formats: map<string, Value>, point: string, day: Date)
    requires Valid(day) && DistinctKeys(dp)
    ensures var r := PutFormatted(dp, names, formats, point, day);
      && DistinctKeys(r)
      && (forall n :: n in names ==> Lookup(r, n) == Some(Str(Formatted(formats, n, point, day))))
      && (forall k :: k !in names ==> Lookup(r, k) == Lookup(dp, k))
    decreases |names|
  {
    if |names| > 0 {
      var n0 := names[0];
      var v := Str(Formatted(formats, n0, point, day));
      var next := Put(dp, n0, v);
      PutKeepsDistinct(dp, n0, v);
      PutFormattedSpec(next, names[1..], formats, point, day);
      var r := PutFormatted(next, names[1..], formats, point, day);
      assert r == PutFormatted(dp, names, formats, point, day);
      forall n | n in names ensures Lookup(r, n) == Some(Str(Formatted(formats, n, point, day))) {
        if n !in names[1..] {
          assert n == n0;
        }
      }
      forall k | k !in names ensures Lookup(r, k) == Lookup(dp, k) {
        assert k != n0 && k !in names[1..];
      }
    }
  }

  lemma {:induction false} PutNoDashSpec(dp: Dict, names: seq<string>)
    requires DistinctKeys(dp)
    ensures var r := PutNoDash(dp, names);
      && DistinctKeys(r)
      && (forall k :: Lookup(dp, k).Some? ==> Lookup(r, k) == Lookup(dp, k))
      && (forall k :: Lookup(r, k).Some? ==> Lookup(dp, k).Some? || k in NoDashKeys(names))
      && (forall n :: n in names && Lookup(dp, n).Some? && Lookup(dp, NoDashKey(n)).None? ==>
            Lookup(r, NoDashKey(n)) == Some(Str(RemoveDashes(Show(Lookup(dp, n).value)))))
    decreases |names|
  {
    if |names| > 0 {
      var n0 := names[0];
      var added := NoDashKey(n0) !in Keys(dp) && Lookup(dp, n0).Some?;
      var next := if added then Put(dp, NoDashKey(n0), Str(RemoveDashes(Show(Lookup(dp, n0).value)))) else dp;
      if added {
        PutKeepsDistinct(dp, NoDashKey(n0), Str(RemoveDashes(Show(Lookup(dp, n0).value))));
      }
      PutNoDashSpec(next, names[1..]);
      var r := PutNoDash(next, names[1..]);
      assert r == PutNoDash(dp, names);
      NoDashKeysCons(names);
      forall k | Lookup(dp, k).Some? ensures Lookup(next, k) == Lookup(dp, k) {
      }
      forall k | Lookup(r, k).Some? && Lookup(dp, k).None? ensures k in NoDashKeys(names) {
        if Lookup(next, k).Some? {
          assert k == NoDashKey(n0);
        }
      }
      forall n | n in names && Lookup(dp, n).Some? && Lookup(dp, NoDashKey(n)).None?
        ensures Lookup(r, NoDashKey(n)) == Some(Str(RemoveDashes(Show(Lookup(dp, n).value))))
      {
        if n == n0 {
          assert added;
        } else {
          assert n in names[1..];
          if NoDashKey(n) == NoDashKey(n0) { NoDashInjective(n, n0); }
        }
      }
    }
  }

  /**
   * The date parameters of one point: each name holds its formatted date;
   * each name whose `_no_dash` companion is not itself a name also gets
   * that companion, the same text without dashes; and there is nothing
   * else.
   */
  lemma BundleSpec(names: seq<string>, formats: map<string, Value>, point: string, day: Date)
    requires Valid(day)
    ensures var b := Bundle(names, formats, point, day);
      && DistinctKeys(b)
      && (forall n :: n in names ==> Lookup(b, n) == Some(Str(Formatted(formats, n, point, day))))
      && (forall n :: n in names && NoDashKey(n) !in names ==>
            Lookup(b, NoDashKey(n)) == Some(Str(RemoveDashes(Formatted(formats, n, point, day)))))
      && (forall k :: k in Keys(b) <==> k in names || k in NoDashKeys(names))
  {
    var first := PutFormatted([], names, formats, point, day);
    PutFormattedSpec([], names, formats, point, day);
    NoDashOverNames(first, names);
  }

  /** The second loop over a dictionary whose keys are exactly the names. */
  lemma NoDashOverNames(first: Dict, names: seq<string>)
    requires DistinctKeys(first) && forall k :: Lookup(first, k).Some? <==> k in names
    ensures var b := PutNoDash(first, names);
      && DistinctKeys(b)
      && (forall n :: n in names ==> Lookup(b, n) == Lookup(first, n))
      && (forall n :: n in names && NoDashKey(n) !in names ==>
            Lookup(b, NoDashKey(n)) == Some(Str(RemoveDashes(Show(Lookup(first, n).value)))))
      && (forall k :: k in Keys(b) <==> k in names || k in NoDashKeys(names))
  {
    PutNoDashSpec(first, names);
    var b := PutNoDash(first, names);
    forall n | n in names ensures Lookup(b, n) == Lookup(first, n) {
      assert Lookup(first, n).Some?;
    }
    forall n | n in names && NoDashKey(n) !in names
      ensures Lookup(b, NoDashKey(n)) == Some(Str(RemoveDashes(Show(Lookup(first, n).value))))
    {
      assert Lookup(first, n).Some? && Lookup(first, NoDashKey(n)).None?;
    }
    NoDashOverNamesKeys(first, names);
  }

  /** The keys after the second loop: the names and their `_no_dash` companions. */
  lemma NoDashOverNamesKeys(first: Dict, names: seq<string>)
    requires DistinctKeys(first) && forall k :: Lookup(first, k).Some? <==> k in names
    ensures var b := PutNoDash(first, names);
      forall k :: k in Keys(b) <==> k in names || k in NoDashKeys(names)
  {
    PutNoDashSpec(first, names);
    var b := PutNoDash(first, names);
    forall k | k in names ensures k in Keys(b) {
      assert Lookup(first, k).Some?;
      assert Lookup(b, k).Some?;
    }
    forall k | k in NoDashKeys(names) && k !in names ensures k in Keys(b) {
      var i :| 0 <= i < |names| && NoDashKeys(names)[i] == k;
      assert Lookup(first, names[i]).Some? && Lookup(first, k).None?;
      assert Lookup(b, NoDashKey(names[i])).Some?;
    }
    forall k | k in Keys(b) && k !in NoDashKeys(names) ensures k in names {
      assert Lookup(b, k).Some?;
    }
  }

  /** `{**date_params, **custom_params}` reads a dictionary into a map. */
  function StoreOf(d: Dict): (m: Store)
    ensures forall k :: k in m <==> Lookup(d, k).Some?
    ensures forall k :: k in m ==> Lookup(d, k) == Some(m[k])
  {
    if |d| == 0 then map[] else StoreOf(d[1..])[d[0].0 := d[0].1]
  }

  /** The parameters set on the workflow of one point: the custom parameters win. */
  function DayParams(dp: Dict, custom: Store): (m: Store)
    ensures forall k :: k in m <==> k in custom || k in Keys(dp)
    ensures forall k :: k in custom ==> m[k] == custom[k]
    ensures forall k :: k !in custom && k in Keys(dp) ==> Lookup(dp, k) == Some(m[k])
  {
    StoreOf(dp) + custom
  }

  // ---------------------------------------------------------------------
  // `${<format><offset>}` values of the workflow parameters

  /** `value.startswith("${") and value.endswith("}")`. */
  predicate IsTemplate(v: Value)
  {
    v.Str? && |v.s| >= 2 && v.s[0] == '$' && v.s[1] == '{' && v.s[|v.s| - 1] == '}'
  }

  /** `value[2:-1]`: the text between `${` and the closing brace. */
  function Body(v: Value): (b: string)
    requires IsTemplate(v)
    ensures v.s == "${" + b + "}"
  {
    v.s[2..|v.s| - 1]
  }

  /** The offsets looked for first, in their order, each with its `int(pattern)`. */
  const OffsetPatterns: seq<(string, int)> :=
    [("-1", -1), ("-2", -2), ("-3", -3), ("-7", -7), ("-30", -30),
     ("+1", 1), ("+2", 2), ("+3", 3), ("+7", 7), ("+30", 30)]

  lemma PatternsNonEmpty()
    ensures forall i :: 0 <= i < |OffsetPatterns| ==> |OffsetPatterns[i].0| > 0
  {
  }

  /** The index of the first table entry whose text occurs in `s`. */
  function FirstPattern(s: string, ps: seq<(string, int)>): (r: Option<nat>)
    ensures r.None? <==> forall i :: 0 <= i < |ps| ==> !Contains(s, ps[i].0)
    ensures r.Some? ==> r.value < |ps| && Contains(s, ps[r.value].0)
    ensures r.Some? ==> forall j :: 0 <= j < r.value ==> !Contains(s, ps[j].0)
    decreases |ps|
  {
    if |ps| == 0 then None
    else if Contains(s, ps[0].0) then Some(0)
    else
      match FirstPattern(s, ps[1..])
      case None => None
      case Some(i) =>
        assert forall j :: 0 <= j < i ==> ps[1..][j] == ps[j + 1];
        Some(i + 1)
  }

  /** The length of the run of ASCII digits that ends `s`. */
  function TrailingDigits(s: string): (n: nat)
    ensures n <= |s|
    ensures forall j :: |s| - n <= j < |s| ==> IsDigit(s[j])
    ensures n < |s| ==> !IsDigit(s[|s| - n - 1])
  {
    if |s| > 0 && IsDigit(s[|s| - 1]) then
      var t := s[..|s| - 1];
      assert forall j :: 0 <= j < |t| ==> t[j] == s[j];
      TrailingDigits(t) + 1
    else 0
  }

  /**
   * Where `$` matches without the multi-line flag: at the end of `s`, or
   * just before a newline that ends it.
   */
  function LineEnd(s: string): (n: nat)
    ensures n <= |s|
    ensures n < |s| ==> n == |s| - 1 && s[n] == '\n'
  {
    if |s| > 0 && s[|s| - 1] == '\n' then |s| - 1 else |s|
  }

  /** The sign in front of the run of digits that ends `t`, if there is one. */
  function SignBeforeDigits(t: string): Option<nat>
  {
    var d := TrailingDigits(t);
    if 1 <= d < |t| && (t[|t| - d - 1] == '+' || t[|t| - d - 1] == '-') then Some(|t| - d - 1) else None
  }

  lemma SignBeforeDigitsSpec(t: string, i: int)
    ensures SignBeforeDigits(t) == Some(i) <==>
      0 <= i < |t| - 1 && (t[i] == '+' || t[i] == '-') && AllDigits(t[i + 1..])
  {
    var d := TrailingDigits(t);
    if SignBeforeDigits(t) == Some(i) {
      var u := t[i + 1..];
      assert forall j :: 0 <= j < |u| ==> u[j] == t[i + 1 + j];
    }
    if 0 <= i < |t| - 1 && (t[i] == '+' || t[i] == '-') && AllDigits(t[i + 1..]) {
      assert forall j :: i + 1 <= j < |t| ==> IsDigit(t[j]) by {
        forall j | i + 1 <= j < |t| ensures IsDigit(t[j]) { assert t[j] == t[i + 1..][j - i - 1]; }
      }
      assert d == |t| - i - 1;
    }
  }

  /**
   * Where `re.search(r'([+-]\d+)$', s)` matches: at the sign before the
   * digits that run up to the end of `s` or up to a newline ending it.
   */
  function SignAt(s: string): Option<nat>
  {
    SignBeforeDigits(s[..LineEnd(s)])
  }

  /**
   * The match the regular expression finds: it starts at `i` exactly
   * when `s[i]` is a sign and everything after it is one or more digits,
   * save a single newline that ends `s`.
   */
  lemma SignAtSpec(s: string, i: int)
    ensures SignAt(s) == Some(i) <==>
      0 <= i < LineEnd(s) - 1 && (s[i] == '+' || s[i] == '-') && AllDigits(s[i + 1..LineEnd(s)])
  {
    var e := LineEnd(s);
    var t := s[..e];
    SignBeforeDigitsSpec(t, i);
    if 0 <= i && i + 1 < e {
      assert t[i] == s[i] && t[i + 1..] == s[i + 1..e];
    }
  }

  /** `int()` of a sign followed by ASCII digits. */
  function SignedValue(sign: char, digits: string): int
    requires AllDigits(digits)
  {
    var v: int := DigitsValue(digits);
    if sign == '-' then -v else v
  }

  /** The day offset of a template body and the date format left once it is removed. */
  datatype Offset = Offset(days: int, format: string)

  /**
   * The offset detection of `run_backfill`: the first listed offset that
   * occurs anywhere in the body wins, and every occurrence of it is
   * removed; otherwise a sign and digits ending the body; otherwise none.
   */
  function ParseOffset(body: string): Offset
  {
    match FirstPattern(body, OffsetPatterns)
    case Some(i) =>
      PatternsNonEmpty();
      Offset(OffsetPatterns[i].1, ReplaceAll(body, OffsetPatterns[i].0, ""))
    case None =>
      match SignAt(body)
      case Some(i) =>
        SignAtSpec(body, i);
        Offset(SignedValue(body[i], body[i + 1..LineEnd(body)]), body[..i])
      case None => Offset(0, body)
  }

  /**
   * A body with none of the listed offsets that ends in a sign and digits,
   * or in those and a newline, gives that signed number of days and the
   * text before the sign.
   */
  lemma ParseTrailingOffset(f: string, sign: char, digits: string, tail: string)
    requires sign == '+' || sign == '-'
    requires |digits| >= 1 && AllDigits(digits)
    requires tail == "" || tail == "\n"
    requires forall i :: 0 <= i < |OffsetPatterns| ==> !Contains(f + [sign] + digits + tail, OffsetPatterns[i].0)
    ensures ParseOffset(f + [sign] + digits + tail) == Offset(SignedValue(sign, digits), f)
  {
    var s := f + [sign] + digits + tail;
    TrailingSign(f, sign, digits, tail);
    assert FirstPattern(s, OffsetPatterns) == None;
    assert ParseOffset(s) == Offset(SignedValue(s[|f|], s[|f| + 1..LineEnd(s)]), s[..|f|]);
  }

  lemma TrailingSign(f: string, sign: char, digits: string, tail: string)
    requires sign == '+' || sign == '-'
    requires |digits| >= 1 && AllDigits(digits)
    requires tail == "" || tail == "\n"
    ensures var s := f + [sign] + digits + tail;
      SignAt(s) == Some(|f|) && s[|f|] == sign && s[|f| + 1..LineEnd(s)] == digits && s[..|f|] == f
  {
    var s := f + [sign] + digits + tail;
    assert s[|s| - 1] == if tail == "" then digits[|digits| - 1] else '\n';
    assert LineEnd(s) == |f| + 1 + |digits|;
    assert s[|f| + 1..LineEnd(s)] == digits && s[..|f|] == f && s[|f|] == sign;
    SignAtSpec(s, |f|);
  }

  /** A text in which no sign is followed by 1, 2, 3 or 7 holds none of the listed offsets. */
  lemma NoListedOffset(s: string)
    requires forall j :: 0 <= j < |s| - 1 && (s[j] == '+' || s[j] == '-') ==> s[j + 1] !in "1237"
    ensures forall i :: 0 <= i < |OffsetPatterns| ==> !Contains(s, OffsetPatterns[i].0)
  {
    forall i | 0 <= i < |OffsetPatterns| ensures !Contains(s, OffsetPatterns[i].0) {
      var p := OffsetPatterns[i].0;
      assert |p| >= 2 && (p[0] == '+' || p[0] == '-') && p[1] in "1237";
      assert forall k :: !OccursAt(s, p, k);
    }
  }

  /** A newline after the offset does not hide it: `yyyy-MM-dd-5` then a newline is five days back. */
  lemma OffsetBeforeNewline()
    ensures ParseOffset("yyyy-MM-dd-5\n") == Offset(-5, "yyyy-MM-dd")
  {
    var s := "yyyy-MM-dd-5\n";
    assert forall j :: 0 <= j < |s| - 1 && (s[j] == '+' || s[j] == '-') ==> j in {4, 7, 10};
    NoListedOffset(s);
    assert "yyyy-MM-dd" + ['-'] + "5" + "\n" == s;
    ParseTrailingOffset("yyyy-MM-dd", '-', "5", "\n");
  }

  /** "-30" and "+30" are never the listed offset found: "-3" and "+3" come first and occur in them. */
  lemma ThirtyShadowed(s: string, i: nat)
    requires FirstPattern(s, OffsetPatterns) == Some(i)
    ensures i < |OffsetPatterns| && OffsetPatterns[i].0 != "-30" && OffsetPatterns[i].0 != "+30"
  {
    if i == 4 {
      assert OffsetPatterns[4].0 == "-30" && OffsetPatterns[2].0 == "-3";
      ContainsPrefix(s, "-30", "-3");
    } else if i == 9 {
      assert OffsetPatterns[9].0 == "+30" && OffsetPatterns[7].0 == "+3";
      ContainsPrefix(s, "+30", "+3");
    }
  }

  /** "-1" heads the table, so a body containing it takes that offset. */
  lemma MinusOneFirst(s: string)
    requires Contains(s, "-1")
    ensures ParseOffset(s) == Offset(-1, ReplaceAll(s, "-1", ""))
  {
    assert OffsetPatterns[0] == ("-1", -1);
    assert FirstPattern(s, OffsetPatterns) == Some(0);
  }

  /**
   * A listed offset is taken wherever it occurs: after a digit-free
   * format, "-1" is found first even when more digits follow it (so
   * `${yyyy-MM-dd-10}` reads as one day back in the format "yyyy-MM-dd0"),
   * and every copy of it is removed.
   */
  lemma ListedOffsetWins(f: string, r: string)
    requires forall i :: 0 <= i < |f| ==> !IsDigit(f[i])
    ensures ParseOffset(f + "-1" + r) == Offset(-1, f + ReplaceAll(r, "-1", ""))
  {
    ContainsJoined(f, "-1", r);
    MinusOneFirst(f + "-1" + r);
    ReplaceAfterDigitFree(f, "-1", r, "");
    assert f + "" == f;
  }

  /** The replacements that turn a lower-cased format into a `strftime` one, in their order. */
  const FormatRewrites: seq<(string, string)> :=
    [("yyyy", "%Y"), ("yy", "%y"), ("mm", "%m"), ("dd", "%d"), ("hh", "%H"), ("mi", "%M"), ("ss", "%S")]

  /** The `strftime` format of a template's date format. */
  function PythonFormat(f: string): string
  {
    var l := Lower(f);
    if l == "yyyy-mm-dd" then "%Y-%m-%d"
    else if l == "yyyymmdd" then "%Y%m%d"
    else if l == "yyyy/mm/dd" then "%Y/%m/%d"
    else
      assert forall i :: 0 <= i < |FormatRewrites| ==> |FormatRewrites[i].0| > 0;
      ReplaceChain(l, FormatRewrites)
  }

  /** The format of the usual template is ISO. */
  lemma IsoPythonFormat()
    ensures PythonFormat("yyyy-MM-dd") == "%Y-%m-%d"
  {
    assert Lower("yyyy-MM-dd") == "yyyy-mm-dd";
  }

  /** The letters' case does not matter: a format and its lower-case form give the same `strftime` format. */
  lemma PythonFormatCaseBlind(f: string)
    ensures PythonFormat(f) == PythonFormat(Lower(f))
  {
    assert Lower(Lower(f)) == Lower(f);
  }

  /** An upper-case ISO format is ISO too. */
  lemma UpperIsoPythonFormat()
    ensures PythonFormat("YYYY-MM-DD") == "%Y-%m-%d"
  {
    assert Lower("YYYY-MM-DD") == "yyyy-mm-dd";
  }

  /** The date text of a template body on `day`, or None where the offset leaves datetime's range. */
  function TemplateText(body: string, day: Date): Option<string>
    requires Valid(day)
  {
    var o := ParseOffset(body);
    match Shift(day, o.days)
    case None => None
    case Some(d) => Some(Strftime(PythonFormat(o.format), AtMidnight(d)))
  }

  /** In the usual template body the offset "-1" is found and leaves the ISO format. */
  lemma YesterdayOffset()
    ensures ParseOffset("yyyy-MM-dd-1") == Offset(-1, "yyyy-MM-dd")
  {
    var f := "yyyy-MM-dd";
    assert forall i :: 0 <= i < |f| ==> !IsDigit(f[i]);
    ListedOffsetWins(f, "");
    assert f + "-1" + "" == "yyyy-MM-dd-1";
    assert f + ReplaceAll("", "-1", "") == f;
  }

  /** `${yyyy-MM-dd-1}` is the day before, in ISO form. */
  lemma YesterdayTemplate(day: Date)
    requires Valid(day) && Shift(day, -1).Some?
    ensures TemplateText("yyyy-MM-dd-1", day) == Some(IsoText(AddDays(day, -1)))
  {
    YesterdayOffset();
    IsoPythonFormat();
    StrftimeIso(AtMidnight(AddDays(day, -1)));
  }
}
