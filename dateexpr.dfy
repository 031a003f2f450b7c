/**
 * The date helpers of the utilities module: `get_date` and
 * `parse_date_expr`, with the current time passed in instead of read from
 * the clock.  Their format conversion `convert_date_format` is the same
 * six-entry table, in the same order, as the parameter manager's, so both
 * use `Params.ConvertFormat`.
 */
module DateExpr {
  import opened Outcomes
  import opened Calendar
  import opened Params

  /** `get_date(date_format, days_delta)`: `now` moved by whole days, then formatted. */
  function GetDate(format: string, delta: int, now: DateTime): (r: string)
    requires ValidTime(now)
  {
    Strftime(format, ShiftDays(now, delta))
  }

  /** With no offset the current time itself is formatted. */
  lemma GetDateToday(format: string, now: DateTime)
    requires ValidTime(now)
    ensures GetDate(format, 0, now) == Strftime(format, now)
  {
    AddDaysZero(now.date);
  }

  /** Offsets add up: a delta of `a + b` is `b` days from the moment `a` days away. */
  lemma GetDateCompose(format: string, a: int, b: int, now: DateTime)
    requires ValidTime(now)
    ensures GetDate(format, a + b, now) == GetDate(format, b, ShiftDays(now, a))
  {
    AddDaysCompose(now.date, a, b);
  }

  /**
   * `parse_date_expr`: a text with a `<format><+|-><N>` prefix becomes the
   * date N days ahead or back in the converted format; any other text is
   * returned as it is.  The result is the one the parameter manager gives
   * for the same date token.
   */
  function ParseDateExpr(expr: string, now: DateTime): (r: string)
    requires ValidTime(now)
    ensures MatchDateExpr(expr).None? ==> r == expr
    ensures MatchDateExpr(expr).Some? ==> r == DateText(MatchDateExpr(expr).value, now)
  {
    if MatchDateExpr(expr).None? then expr
    else
      var e := MatchDateExpr(expr).value;
      GetDate(ConvertFormat(e.format), e.Offset(), now)
  }

  /**
   * A token `${expr}` with a date prefix resolves through the parameter
   * manager to what `parse_date_expr` gives for `expr`, whatever the store.
   */
  lemma ParseDateExprAgrees(store: Store, now: DateTime, name: string, depth: nat)
    requires ValidTime(now) && |name| >= 1 && '}' !in name && MatchDateExpr(name).Some?
    ensures Resolve(store, now, RefText(name), depth) == Some(ParseDateExpr(name, now))
  {
    ResolveDateRef(store, now, name, depth);
  }

  /** `parse_date_expr("yyyy-MM-dd-1")` is yesterday as `YYYY-MM-DD`. */
  lemma ParseYesterday(now: DateTime)
    requires ValidTime(now)
    ensures ParseDateExpr("yyyy-MM-dd-1", now) == IsoText(AddDays(now.date, -1))
  {
    MatchDateExprExamples();
    ConvertIsoFormat();
    StrftimeIso(ShiftDays(now, -1));
  }
}
