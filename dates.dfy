/**
 * Calendar dates as day numbers. PHP's `strtotime()` and `new DateTime()` applied to a
 * `YYYY-MM-DD` string give midnight of that civil date; the model keeps only the day
 * number (days since 1970-01-01), which is all the plugin compares or subtracts.
 */
module Dates {
  import opened Wrappers
  import opened Text

  /** The shape `^\d{4}-\d{2}-\d{2}$` that the submission form checks before parsing. */
  predicate IsIsoShape(s: string) {
    && |s| == 10
    && IsDigit(s[0]) && IsDigit(s[1]) && IsDigit(s[2]) && IsDigit(s[3])
    && s[4] == '-'
    && IsDigit(s[5]) && IsDigit(s[6])
    && s[7] == '-'
    && IsDigit(s[8]) && IsDigit(s[9])
  }

  function DigitValue(c: char): (v: int)
    requires IsDigit(c)
    ensures 0 <= v < 10
  {
    c as int - '0' as int
  }

  function IsoYear(s: string): int
    requires IsIsoShape(s)
  {
    DigitValue(s[0]) * 1000 + DigitValue(s[1]) * 100 + DigitValue(s[2]) * 10 + DigitValue(s[3])
  }

  function IsoMonth(s: string): int
    requires IsIsoShape(s)
  {
    DigitValue(s[5]) * 10 + DigitValue(s[6])
  }

  function IsoDay(s: string): int
    requires IsIsoShape(s)
  {
    DigitValue(s[8]) * 10 + DigitValue(s[9])
  }

  /**
   * Days from 1970-01-01 to the civil date (y, m, d) of the proleptic Gregorian calendar.
   * A day-of-month beyond the month's end rolls over into the next month, as PHP does.
   */
  function DaysFromCivil(y0: int, m: int, d: int): int
    requires 1 <= m <= 12
  {
    var y := if m <= 2 then y0 - 1 else y0;
    var era := (if y >= 0 then y else y - 399) / 400;
    var yoe := y - era * 400;
    var mp := if m > 2 then m - 3 else m + 9;
    var doy := (153 * mp + 2) / 5 + d - 1;
    var doe := yoe * 365 + yoe / 4 - yoe / 100 + doy;
    era * 146097 + doe - 719468
  }

  /**
   * The day number PHP's date parser gives a `YYYY-MM-DD` string. The parser takes months
   * 00 to 12 and days 00 to 31 and refuses the rest (`strtotime` returns false). Month 00
   * is December of the year before, day 00 the last day of the month before, and a day
   * beyond the month's end rolls into the next month.
   */
  function ParseIsoDay(s: string): (r: Option<int>)
    ensures r.Some? <==> IsIsoShape(s) && IsoMonth(s) <= 12 && IsoDay(s) <= 31
    ensures r.Some? && 1 <= IsoMonth(s) ==> r.value == DaysFromCivil(IsoYear(s), IsoMonth(s), IsoDay(s))
    ensures r.Some? && IsoMonth(s) == 0 ==> r.value == DaysFromCivil(IsoYear(s) - 1, 12, IsoDay(s))
  {
    if !IsIsoShape(s) || IsoMonth(s) > 12 || IsoDay(s) > 31 then None
    else if IsoMonth(s) == 0 then Some(DaysFromCivil(IsoYear(s) - 1, 12, IsoDay(s)))
    else Some(DaysFromCivil(IsoYear(s), IsoMonth(s), IsoDay(s)))
  }

  /** Month 00 is the December before: 2024-00-15 is 2023-12-15. */
  lemma MonthZeroIsPreviousDecember(s: string, t: string)
    requires s == "2024-00-15" && t == "2023-12-15"
    ensures ParseIsoDay(s).Some? && ParseIsoDay(s) == ParseIsoDay(t)
  {
    assert IsIsoShape(s) && IsoYear(s) == 2024 && IsoMonth(s) == 0 && IsoDay(s) == 15;
    assert IsIsoShape(t) && IsoYear(t) == 2023 && IsoMonth(t) == 12 && IsoDay(t) == 15;
  }

  /** Day 00 is the last day of the month before: 2024-03-00 is 2024-02-29. */
  lemma DayZeroIsPreviousMonthEnd(s: string, t: string)
    requires s == "2024-03-00" && t == "2024-02-29"
    ensures ParseIsoDay(s).Some? && ParseIsoDay(s) == ParseIsoDay(t)
  {
    assert IsIsoShape(s) && IsoYear(s) == 2024 && IsoMonth(s) == 3 && IsoDay(s) == 0;
    assert IsIsoShape(t) && IsoYear(t) == 2024 && IsoMonth(t) == 2 && IsoDay(t) == 29;
  }

  // ---- Calendar facts ----

  /** Consecutive days of a month are consecutive day numbers. */
  lemma NextDay(y: int, m: int, d: int)
    requires 1 <= m <= 12
    ensures DaysFromCivil(y, m, d + 1) == DaysFromCivil(y, m, d) + 1
  {
  }

  /** Day numbers count from 1970-01-01. */
  lemma Epoch()
    ensures DaysFromCivil(1970, 1, 1) == 0
  {
  }

  /** An overflowing day rolls into the next month: 32 January is 1 February. */
  lemma JanuaryRollsOver(y: int)
    ensures DaysFromCivil(y, 1, 32) == DaysFromCivil(y, 2, 1)
  {
  }

  /** And 32 December is 1 January of the next year. */
  lemma DecemberRollsOver(y: int)
    ensures DaysFromCivil(y, 12, 32) == DaysFromCivil(y + 1, 1, 1)
  {
  }
}
