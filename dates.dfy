/** Calendar dates and their ISO 8601 calendar form "YYYY-MM-DD": the
    `strftime('%Y-%m-%d')` that stores a parsed deadline, the
    `strptime(..., '%Y-%m-%d')` that reads it back, and the text order the
    store compares deadlines in. */
module Dates {
  import opened Common

  datatype Date = Date(year: int, month: int, day: int)

  predicate IsLeapYear(y: int) {
    y % 4 == 0 && (y % 100 != 0 || y % 400 == 0)
  }

  function DaysInMonth(y: int, m: int): int
    requires 1 <= m <= 12
  {
    if m == 2 then (if IsLeapYear(y) then 29 else 28)
    else if m == 4 || m == 6 || m == 9 || m == 11 then 30
    else 31
  }

  /** A date Python's `datetime.date` can hold (years 1 to 9999). */
  predicate ValidDate(d: Date) {
    1 <= d.year <= 9999 && 1 <= d.month <= 12 && 1 <= d.day <= DaysInMonth(d.year, d.month)
  }

  type CalendarDate = d: Date | ValidDate(d) witness Date(2000, 1, 1)

  /** Python's `a < b` on dates: chronological order. */
  predicate Before(a: Date, b: Date) {
    a.year < b.year || (a.year == b.year && (a.month < b.month || (a.month == b.month && a.day < b.day)))
  }

  /** `d.strftime('%Y-%m-%d')`. */
  function FormatIso(d: CalendarDate): (s: string)
    ensures |s| == 10 && s[4] == '-' && s[7] == '-'
  {
    PaddedDigits(d.year, 4) + "-" + PaddedDigits(d.month, 2) + "-" + PaddedDigits(d.day, 2)
  }

  /** `datetime.strptime(s, '%Y-%m-%d').date()` on the ten-character form;
      None where strptime raises ValueError. */
  function ParseIso(s: string): (r: Option<CalendarDate>)
    ensures r.Some? ==> |s| == 10 && s[4] == '-' && s[7] == '-'
  {
    if |s| == 10 && s[4] == '-' && s[7] == '-'
       && AllDigits(s[..4]) && AllDigits(s[5..7]) && AllDigits(s[8..])
    then
      var d := Date(DecimalValue(s[..4]), DecimalValue(s[5..7]), DecimalValue(s[8..]));
      if ValidDate(d) then Some(d) else None
    else None
  }

  /** Reading back a formatted date gives the date: the round trip that the
      expiry check relies on never raises. */
  lemma FormatParseRoundTrip(d: CalendarDate)
    ensures ParseIso(FormatIso(d)) == Some(d)
  {
    var s := FormatIso(d);
    var y, m, dd := PaddedDigits(d.year, 4), PaddedDigits(d.month, 2), PaddedDigits(d.day, 2);
    assert s[..4] == y && s[5..7] == m && s[8..] == dd;
    PaddedDigitsRoundTrip(d.year, 4);
    PaddedDigitsRoundTrip(d.month, 2);
    PaddedDigitsRoundTrip(d.day, 2);
  }

  /** Text order on formatted dates is chronological order, so comparing
      the stored "YYYY-MM-DD" strings compares the dates. */
  lemma FormatOrder(a: CalendarDate, b: CalendarDate)
    ensures LexLess(FormatIso(a), FormatIso(b)) <==> Before(a, b)
  {
    var ya, ma, da := PaddedDigits(a.year, 4), PaddedDigits(a.month, 2), PaddedDigits(a.day, 2);
    var yb, mb, db := PaddedDigits(b.year, 4), PaddedDigits(b.month, 2), PaddedDigits(b.day, 2);
    ConcatRightGrouped(ya, "-", ma, "-", da);
    ConcatRightGrouped(yb, "-", mb, "-", db);
    LexLessConcat(ya, "-" + (ma + ("-" + da)), yb, "-" + (mb + ("-" + db)));
    LexLessConcat("-", ma + ("-" + da), "-", mb + ("-" + db));
    LexLessConcat(ma, "-" + da, mb, "-" + db);
    LexLessConcat("-", da, "-", db);
    assert !LexLess("-", "-");
    PaddedDigitsOrder(a.year, b.year, 4);
    PaddedDigitsOrder(a.month, b.month, 2);
    PaddedDigitsOrder(a.day, b.day, 2);
    PaddedDigitsInjective(a.year, b.year, 4);
    PaddedDigitsInjective(a.month, b.month, 2);
  }
}
