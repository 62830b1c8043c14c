/**
 * The part of JavaScript's `Date` the timesheet code uses: parsing a
 * date-only "YYYY-MM-DD" string, which denotes midnight UTC of that day, and
 * the day of the week. Instants are milliseconds since 1970-01-01T00:00Z.
 */
module JsDate {
  import opened Wrappers
  import opened JsText

  const MsPerDay: int := 86_400_000

  predicate IsLeapYear(y: int) {
    y % 4 == 0 && (y % 100 != 0 || y % 400 == 0)
  }

  function DaysInMonth(y: int, m: int): (d: int)
    requires 1 <= m <= 12
    ensures 28 <= d <= 31
    ensures m == 2 ==> (d == 29 <==> IsLeapYear(y))
  {
    if m == 2 then (if IsLeapYear(y) then 29 else 28)
    else if m == 4 || m == 6 || m == 9 || m == 11 then 30
    else 31
  }

  predicate IsCalendarDate(y: int, m: int, d: int) {
    1 <= m <= 12 && 1 <= d <= DaysInMonth(y, m)
  }

  /**
   * The number of days from 1970-01-01 to y-m-d in the proleptic Gregorian
   * calendar, counting from March so that a leap day closes the year.
   */
  function DayNumber(y: int, m: int, d: int): (n: int)
    requires 1 <= m <= 12
    ensures m != 3 || d != 1 ==>
      n == DayNumber(if m <= 2 then y - 1 else y, 3, 1) + DaysFromMarch(if m > 2 then m - 3 else m + 9) + d - 1
    decreases if m == 3 && d == 1 then 0 else 1
  {
    var mp := if m > 2 then m - 3 else m + 9;
    MonthOffsets(mp);
    MarchYearStart(if m <= 2 then y - 1 else y) + (153 * mp + 2) / 5 + d - 1
  }

  /** The day number of March 1 of year y: whole 400-year eras, then the years and leap days of this one. */
  function MarchYearStart(y: int): int {
    var era := y / 400;
    var yoe := y - era * 400;
    era * 146097 + yoe * 365 + yoe / 4 - yoe / 100 - 719468
  }

  /** The days in the first k months of a year that starts in March (February is never among them). */
  function DaysFromMarch(k: nat): nat
    requires k <= 11
  {
    if k == 0 then 0
    else DaysFromMarch(k - 1) + DaysInMonth(1, if k - 1 < 10 then k + 2 else k - 10)
  }

  /** The month offset `(153 * mp + 2) / 5` adds up the lengths of the months since March. */
  lemma MonthOffsets(k: nat)
    requires k <= 11
    ensures (153 * k + 2) / 5 == DaysFromMarch(k)
  {
    assert DaysFromMarch(0) == 0 && DaysFromMarch(1) == 31 && DaysFromMarch(2) == 61;
    assert DaysFromMarch(3) == 92 && DaysFromMarch(4) == 122 && DaysFromMarch(5) == 153;
    assert DaysFromMarch(6) == 184 && DaysFromMarch(7) == 214 && DaysFromMarch(8) == 245;
    assert DaysFromMarch(9) == 275 && DaysFromMarch(10) == 306 && DaysFromMarch(11) == 337;
  }

  /** "YYYY-MM-DD", the shape a date input writes. */
  predicate IsIsoDateText(s: string) {
    && |s| == 10 && s[4] == '-' && s[7] == '-'
    && AllDigits(s[..4], 10) && AllDigits(s[5..7], 10) && AllDigits(s[8..], 10)
  }

  /**
   * `new Date(s)` for a date-only string: the day number of that day, whose
   * instant is midnight UTC; None (an Invalid Date) for any other string and
   * for a month or day that does not exist.
   */
  function ParseDate(s: string): (r: Option<int>)
    ensures r.Some? ==> IsIsoDateText(s)
    ensures IsIsoDateText(s) ==>
      var y, m, d := DigitsValue(s[..4], 10), DigitsValue(s[5..7], 10), DigitsValue(s[8..], 10);
      && (r.Some? <==> IsCalendarDate(y, m, d))
      && (r.Some? ==> r.value == DayNumber(y, m, d))
  {
    if IsIsoDateText(s) then
      var y := DigitsValue(s[..4], 10);
      var m := DigitsValue(s[5..7], 10);
      var d := DigitsValue(s[8..], 10);
      if IsCalendarDate(y, m, d) then Some(DayNumber(y, m, d)) else None
    else None
  }

  /** `getDay()` of a day: 0 for Sunday to 6 for Saturday; 1970-01-01 was a Thursday. */
  function Weekday(day: int): (w: nat)
    ensures w < 7
  {
    (day + 4) % 7
  }

  /** Each next day is the next weekday, Saturday wrapping round to Sunday. */
  lemma WeekdayNext(day: int)
    ensures Weekday(day + 1) == (Weekday(day) + 1) % 7
  {
    var q, r := (day + 4) / 7, (day + 4) % 7;
    assert day + 4 == 7 * q + r;
    if r == 6 {
      assert day + 5 == 7 * (q + 1);
    } else {
      assert day + 5 == 7 * q + (r + 1);
    }
  }

  /** Day 0 is 1970-01-01, a Thursday. */
  lemma EpochIsDayZero()
    ensures DayNumber(1970, 1, 1) == 0 && Weekday(0) == 4
  {
  }

  /**
   * Day numbers count consecutive days: the day after y-m-d has the next
   * number, across month and year ends, leap days included.
   */
  lemma {:induction false} NextDay(y: int, m: int, d: int)
    requires IsCalendarDate(y, m, d)
    ensures d < DaysInMonth(y, m) ==> DayNumber(y, m, d + 1) == DayNumber(y, m, d) + 1
    ensures d == DaysInMonth(y, m) && m < 12 ==> DayNumber(y, m + 1, 1) == DayNumber(y, m, d) + 1
    ensures d == DaysInMonth(y, m) && m == 12 ==> DayNumber(y + 1, 1, 1) == DayNumber(y, m, d) + 1
  {
    if d == DaysInMonth(y, m) && m == 2 {
      MarchFirst(y);
    }
  }

  /** Counting one more year reaches a new multiple of 4 or of 100 exactly when it is one. */
  lemma StepDiv(x: int)
    requires 0 <= x
    ensures (x + 1) / 4 - x / 4 == if (x + 1) % 4 == 0 then 1 else 0
    ensures (x + 1) / 100 - x / 100 == if (x + 1) % 100 == 0 then 1 else 0
  {
    var a, r := x / 4, x % 4;
    if r == 3 {
      assert x + 1 == 4 * (a + 1);
    } else {
      assert x + 1 == 4 * a + (r + 1);
    }
    var b, t := x / 100, x % 100;
    if t == 99 {
      assert x + 1 == 100 * (b + 1);
    } else {
      assert x + 1 == 100 * b + (t + 1);
    }
  }

  /** Divisibility by 4 and by 100 depends only on the year within its 400-year cycle. */
  lemma ModOfCycle(y: int)
    ensures y % 4 == (y % 400) % 4 && y % 100 == (y % 400) % 100
  {
    var q, r := y / 400, y % 400;
    assert y == 400 * q + r;
    RemainderBy4(y, 100 * q, r);
    RemainderBy100(y, 4 * q, r);
  }

  /** Adding a multiple of 4 does not change the remainder by 4. */
  lemma RemainderBy4(y: int, q: int, r: int)
    requires 0 <= r && y == 4 * q + r
    ensures y % 4 == r % 4
  {
    var a, b := r / 4, r % 4;
    assert r == 4 * a + b && 0 <= b < 4;
    assert y == 4 * (q + a) + b;
  }

  /** Adding a multiple of 100 does not change the remainder by 100. */
  lemma RemainderBy100(y: int, q: int, r: int)
    requires 0 <= r && y == 100 * q + r
    ensures y % 100 == r % 100
  {
    var a, b := r / 100, r % 100;
    assert r == 100 * a + b && 0 <= b < 100;
    assert y == 100 * (q + a) + b;
  }

  /** The last day of February, counted in the March-based year y-1. */
  lemma FebruaryEnd(y: int, era: int, yoe: int)
    requires era == (y - 1) / 400 && yoe == y - 1 - era * 400
    ensures DayNumber(y, 2, DaysInMonth(y, 2)) ==
      era * 146097 + yoe * 365 + yoe / 4 - yoe / 100 + 336 + DaysInMonth(y, 2) - 719468
  {
  }

  /** March 1 of y, counted in the March-based year y. */
  lemma MarchStart(y: int, era: int, yoe: int)
    requires era == y / 400 && yoe == y - era * 400
    ensures DayNumber(y, 3, 1) == era * 146097 + yoe * 365 + yoe / 4 - yoe / 100 - 719468
  {
  }

  /** Inside a 400-year cycle, a year's length is 365 plus its leap day. */
  lemma CycleStep(yoe: int, d: int)
    requires 0 <= yoe < 399
    requires d == if (yoe + 1) % 4 == 0 && (yoe + 1) % 100 != 0 then 29 else 28
    ensures (yoe + 1) * 365 + (yoe + 1) / 4 - (yoe + 1) / 100 == yoe * 365 + yoe / 4 - yoe / 100 + 336 + d + 1
  {
    StepDiv(yoe);
  }

  /** A year inside its 400-year cycle is a leap year by its place in the cycle alone. */
  lemma LeapInCycle(y: int, yoe: int)
    requires y % 400 == yoe + 1 && 0 <= yoe < 399
    ensures IsLeapYear(y) <==> (yoe + 1) % 4 == 0 && (yoe + 1) % 100 != 0
  {
    ModOfCycle(y);
  }

  /** The year after y-1 stays in y-1's 400-year cycle unless y-1 closes it. */
  lemma InCycle(y: int, era: int, yoe: int)
    requires era == (y - 1) / 400 && yoe == y - 1 - era * 400 && yoe < 399
    ensures y / 400 == era && y % 400 == yoe + 1
  {
    assert y == 400 * era + (yoe + 1) && 0 <= yoe + 1 < 400;
  }

  /** The March-based year y-1 ends on the last day of February of y. */
  lemma MarchFirst(y: int)
    ensures DayNumber(y, 3, 1) == DayNumber(y, 2, DaysInMonth(y, 2)) + 1
  {
    var era := (y - 1) / 400;
    var yoe := y - 1 - era * 400;
    FebruaryEnd(y, era, yoe);
    if yoe == 399 {
      MarchFirstOfCycle(y, era);
    } else {
      MarchFirstInCycle(y, era, yoe);
    }
  }

  /** A year that starts a 400-year cycle: its February closes the previous cycle. */
  lemma MarchFirstOfCycle(y: int, era: int)
    requires era == (y - 1) / 400 && y - 1 - era * 400 == 399
    ensures DayNumber(y, 3, 1) == era * 146097 + 399 * 365 + 399 / 4 - 399 / 100 + 336 + DaysInMonth(y, 2) - 719468 + 1
  {
    assert y == 400 * (era + 1);
    assert y % 400 == 0 && y / 400 == era + 1;
    ModOfCycle(y);
    assert DaysInMonth(y, 2) == 29;
    MarchStart(y, era + 1, 0);
  }

  /** A year inside a 400-year cycle: March 1 follows the last day of February. */
  lemma MarchFirstInCycle(y: int, era: int, yoe: int)
    requires era == (y - 1) / 400 && yoe == y - 1 - era * 400 && yoe < 399
    ensures DayNumber(y, 3, 1) == era * 146097 + yoe * 365 + yoe / 4 - yoe / 100 + 336 + DaysInMonth(y, 2) - 719468 + 1
  {
    InCycle(y, era, yoe);
    MarchStart(y, era, yoe + 1);
    LeapInCycle(y, yoe);
    CycleStep(yoe, DaysInMonth(y, 2));
  }

  /** The digits of the dates the examples use. */
  lemma DateDigits()
    ensures DigitsValue("2024", 10) == 2024
    ensures DigitsValue("01", 10) == 1 && DigitsValue("07", 10) == 7 && DigitsValue("10", 10) == 10
  {
    assert "2024"[..3] == "202" && "202"[..2] == "20" && "20"[..1] == "2" && "2"[..0] == "";
    assert "01"[..1] == "0" && "0"[..0] == "";
    assert "07"[..1] == "0";
    assert "10"[..1] == "1" && "1"[..0] == "";
  }

  /** Splits a date text into the fields ParseDate reads. */
  lemma DateFields(s: string, year: string, month: string, day: string)
    requires |year| == 4 && |month| == 2 && |day| == 2
    requires s == year + "-" + month + "-" + day
    ensures s[..4] == year && s[4] == '-' && s[5..7] == month && s[7] == '-' && s[8..] == day
  {
    assert s[..4] == year;
    assert s[5..7] == month;
    assert s[8..] == day;
  }

  /** Sunday 2024-01-07 and Wednesday 2024-01-10 as day numbers. */
  lemma ParseDateExamples()
    ensures ParseDate("2024-01-07") == Some(19729) && Weekday(19729) == 0
    ensures ParseDate("2024-01-10") == Some(19732) && Weekday(19732) == 3
  {
    DateDigits();
    DateFields("2024-01-07", "2024", "01", "07");
    DateFields("2024-01-10", "2024", "01", "10");
    DayNumberExamples();
  }

  /** 2024-01-07 and 2024-01-10 are valid dates, 19729 and 19732 days after the epoch. */
  lemma DayNumberExamples()
    ensures IsCalendarDate(2024, 1, 7) && DayNumber(2024, 1, 7) == 19729
    ensures IsCalendarDate(2024, 1, 10) && DayNumber(2024, 1, 10) == 19732
  {
    assert MarchYearStart(2023) == 19417;
  }
}
