/**
 * Clock arithmetic and aggregation: the hours between two "HH:MM" times
 * less a break, the total of the stored hours, and the hours of the current
 * week. Hours are counted in hundredths, the precision `toFixed(2)` keeps;
 * None stands for NaN.
 */
module TimeUtils {
  import opened Wrappers
  import opened JsText
  import opened JsDate
  import opened StorageService

  // ----- Clock arithmetic

  /** "HH:MM", as a time input writes it. */
  predicate IsClockTime(s: string) {
    |s| == 5 && s[2] == ':' && AllDigits(s[..2], 10) && AllDigits(s[3..], 10)
  }

  /** `H * 60 + M` after `s.split(':').map(Number)`: minutes since midnight. */
  function ClockMinutes(s: string): (m: nat)
    requires IsClockTime(s)
    ensures m <= 99 * 60 + 99
    ensures DigitsValue(s[3..], 10) < 60 ==> m / 60 == DigitsValue(s[..2], 10) && m % 60 == DigitsValue(s[3..], 10)
  {
    TwoDigitsValue(s[..2]);
    TwoDigitsValue(s[3..]);
    var h, mm := DigitsValue(s[..2], 10), DigitsValue(s[3..], 10);
    HoursAndMinutes(h, mm);
    h * 60 + mm
  }

  /** Minutes since midnight split back into hours and minutes past the hour. */
  lemma HoursAndMinutes(h: nat, mm: nat)
    ensures mm < 60 ==> (h * 60 + mm) / 60 == h && (h * 60 + mm) % 60 == mm
  {
  }

  /** `parseInt(breakMins) || 0`: a break that is NaN (or zero) counts as no break. */
  function BreakMinutes(s: string): (m: int)
    ensures ParseInt(s).None? ==> m == 0
    ensures ParseInt(s).Some? ==> m == ParseInt(s).value
  {
    match ParseInt(s)
    case Some(v) => v
    case None => 0
  }

  function Max(a: real, b: real): real {
    if a < b then b else a
  }

  /**
   * calculateHours: the hours from `timeIn` to `timeOut` less the break,
   * never negative. An empty time gives 0; a `timeOut` earlier than
   * `timeIn` does not wrap past midnight but also gives 0.
   */
  function CalculateHours(timeIn: string, timeOut: string, breakMins: string): (r: real)
    requires timeIn == "" || IsClockTime(timeIn)
    requires timeOut == "" || IsClockTime(timeOut)
    ensures r >= 0.0
    ensures timeIn == "" || timeOut == "" ==> r == 0.0
    ensures timeIn != "" && timeOut != "" ==>
      (r > 0.0 <==> ClockMinutes(timeIn) + BreakMinutes(breakMins) < ClockMinutes(timeOut))
    ensures r > 0.0 ==>
      ClockMinutes(timeIn) as real + BreakMinutes(breakMins) as real + 60.0 * r == ClockMinutes(timeOut) as real
  {
    if timeIn == "" || timeOut == "" then 0.0
    else
      var totalMinutes := ClockMinutes(timeOut) - ClockMinutes(timeIn) - BreakMinutes(breakMins);
      Max(0.0, totalMinutes as real / 60.0)
  }

  /** With the times fixed, a longer break never gives more hours. */
  lemma LongerBreakFewerHours(timeIn: string, timeOut: string, shorter: string, longer: string)
    requires timeIn == "" || IsClockTime(timeIn)
    requires timeOut == "" || IsClockTime(timeOut)
    requires BreakMinutes(shorter) <= BreakMinutes(longer)
    ensures CalculateHours(timeIn, timeOut, longer) <= CalculateHours(timeIn, timeOut, shorter)
  {
  }

  /** A break `parseInt` cannot read counts as no break at all. */
  lemma UnreadableBreakIsNoBreak(timeIn: string, timeOut: string, breakMins: string)
    requires IsClockTime(timeIn) && IsClockTime(timeOut)
    requires ParseInt(breakMins) == None
    ensures CalculateHours(timeIn, timeOut, breakMins) == CalculateHours(timeIn, timeOut, "0")
  {
    ParseIntOfNatText(0, "");
    assert NatText(0) == "0";
  }

  /**
   * The hundredths `toFixed(2)` keeps of m minutes expressed in hours: a
   * third of 5m rounded to the nearest integer (a tie cannot occur).
   */
  lemma HundredthsOfMinutes(m: nat)
    ensures RoundHundredths(m as real / 60.0) == (5 * m + 1) / 3
  {
    var n := RoundHundredths(m as real / 60.0);
    assert 100.0 * (m as real / 60.0) == (5 * m) as real / 3.0;
    assert (3 * n - 2) as real < (5 * m) as real < (3 * n + 2) as real;
    assert 3 * n - 2 < 5 * m < 3 * n + 2;
  }

  lemma TwoDigitsValue(s: string)
    requires |s| == 2 && AllDigits(s, 10)
    ensures DigitsValue(s, 10) == DigitValue(s[0], 10) * 10 + DigitValue(s[1], 10)
  {
    var first := s[..1];
    assert first[..0] == [];
    assert first[0] == s[0];
    assert DigitsValue(first, 10) == DigitValue(s[0], 10);
  }

  lemma ClockMinutesByDigits(s: string)
    requires IsClockTime(s)
    ensures ClockMinutes(s) ==
      (DigitValue(s[0], 10) * 10 + DigitValue(s[1], 10)) * 60 + DigitValue(s[3], 10) * 10 + DigitValue(s[4], 10)
  {
    TwoDigitsValue(s[..2]);
    TwoDigitsValue(s[3..]);
  }

  lemma ClockExamples()
    ensures IsClockTime("09:00") && ClockMinutes("09:00") == 540
    ensures IsClockTime("17:30") && ClockMinutes("17:30") == 1050
    ensures IsClockTime("17:00") && ClockMinutes("17:00") == 1020
  {
    ClockMinutesByDigits("09:00");
    ClockMinutesByDigits("17:30");
    ClockMinutesByDigits("17:00");
  }

  lemma BreakExamples()
    ensures BreakMinutes("30") == 30 && BreakMinutes("0") == 0
  {
    assert NatText(30) == "30";
    ParseIntOfNatText(30, "");
    assert "30" + "" == "30";
    assert NatText(0) == "0";
    ParseIntOfNatText(0, "");
    assert "0" + "" == "0";
  }

  /** 09:00 to 17:30 with a 30-minute break is 8 hours, stored as "8.00". */
  lemma CalculateHoursExample()
    ensures CalculateHours("09:00", "17:30", "30") == 8.0
    ensures Fixed2Text(RoundHundredths(CalculateHours("09:00", "17:30", "30"))) == "8.00"
  {
    ClockExamples();
    BreakExamples();
    assert CalculateHours("09:00", "17:30", "30") == 8.0;
    assert RoundHundredths(8.0) == 800;
    assert NatText(8) == "8";
    assert UnsignedFixed2(800) == "8.00";
  }

  /** 17:00 to 09:00 is clamped to 0 rather than wrapped past midnight; an empty time gives 0. */
  lemma CalculateHoursClampExamples()
    ensures CalculateHours("17:00", "09:00", "0") == 0.0
    ensures CalculateHours("", "17:00", "0") == 0.0 && CalculateHours("09:00", "", "0") == 0.0
  {
    ClockExamples();
    BreakExamples();
  }

  // ----- Aggregation

  /** `a + b` on numbers, with None as NaN. */
  function Plus(a: Option<int>, b: Option<int>): (r: Option<int>)
    ensures r.Some? <==> a.Some? && b.Some?
  {
    if a.Some? && b.Some? then Some(a.value + b.value) else None
  }

  /** `parseFloat(entry.hours || 0)`: an empty or missing hours field reads as 0. */
  function HoursOrZero(e: TimesheetEntry): (r: Option<int>)
    ensures e.hours == "" ==> r == Some(0)
    ensures e.hours != "" ==> r == HoursValue(e)
  {
    if e.hours == "" then Some(0) else Fixed2Value(e.hours)
  }

  /**
   * getTotalHours: `reduce` from the left over the stored hours, never
   * recomputed from the times. NaN as soon as one hours field cannot be read.
   */
  function TotalHours(es: seq<TimesheetEntry>): (r: Option<int>)
    ensures r.Some? <==> forall e :: e in es ==> HoursOrZero(e).Some?
  {
    if es == [] then Some(0)
    else
      var front := es[..|es| - 1];
      assert forall e :: e in es <==> e in front || e == es[|es| - 1];
      Plus(TotalHours(front), HoursOrZero(es[|es| - 1]))
  }

  /** With no entries the total is 0; one entry contributes `parseFloat(hours || 0)`. */
  lemma TotalHoursEmptyAndSingle(e: TimesheetEntry)
    ensures TotalHours([]) == Some(0)
    ensures TotalHours([e]) == HoursOrZero(e)
  {
    assert [e][..0] == [];
  }

  /** The total of a concatenation is the sum of the totals. */
  lemma {:induction false} TotalHoursOfConcat(a: seq<TimesheetEntry>, b: seq<TimesheetEntry>)
    ensures TotalHours(a + b) == Plus(TotalHours(a), TotalHours(b))
  {
    if b != [] {
      var b' := b[..|b| - 1];
      assert (a + b)[..|a + b| - 1] == a + b';
      assert (a + b)[|a + b| - 1] == b[|b| - 1];
      TotalHoursOfConcat(a, b');
    } else {
      assert a + b == a;
    }
  }

  /** An entry with an empty hours field adds nothing to the total. */
  lemma TotalHoursSkipsEmpty(es: seq<TimesheetEntry>, e: TimesheetEntry)
    requires e.hours == ""
    ensures TotalHours(es + [e]) == TotalHours(es)
  {
    assert (es + [e])[..|es|] == es;
  }

  /** `new Date(e.date) >= weekStart`: an unparsable date is NaN and never on or after anything. */
  predicate OnOrAfter(e: TimesheetEntry, weekStart: int)
    ensures ParseDate(e.date).None? ==> !OnOrAfter(e, weekStart)
  {
    var d := ParseDate(e.date);
    d.Some? && d.value * MsPerDay >= weekStart
  }

  /** The entries kept by the week filter, in their order. */
  function WeekEntries(es: seq<TimesheetEntry>, weekStart: int): (r: seq<TimesheetEntry>)
    ensures forall e :: e in r <==> e in es && OnOrAfter(e, weekStart)
    ensures |r| <= |es|
  {
    if es == [] then []
    else
      var front := es[..|es| - 1];
      var last := es[|es| - 1];
      assert forall e :: e in es <==> e in front || e == last;
      WeekEntries(front, weekStart) + (if OnOrAfter(last, weekStart) then [last] else [])
  }

  /** `parseFloat(e.hours)`: unlike in the total, an empty hours field is NaN here. */
  function HoursValue(e: TimesheetEntry): (r: Option<int>)
    ensures e.hours == "" ==> r == None
    ensures forall n :: e.hours == Fixed2Text(n) ==> r == Some(n)
  {
    assert forall n :: e.hours == Fixed2Text(n) ==> Fixed2Value(e.hours) == Some(n) by {
      forall n | e.hours == Fixed2Text(n) {
        Fixed2RoundTrip(n);
      }
    }
    Fixed2Value(e.hours)
  }

  function SumHours(es: seq<TimesheetEntry>): (r: Option<int>)
    ensures r.Some? <==> forall e :: e in es ==> HoursValue(e).Some?
  {
    if es == [] then Some(0)
    else
      var front := es[..|es| - 1];
      assert forall e :: e in es <==> e in front || e == es[|es| - 1];
      Plus(SumHours(front), HoursValue(es[|es| - 1]))
  }

  /**
   * getWeekSummary for a given week start (an instant in milliseconds): the
   * sum of the hours of exactly the entries dated on or after it; entries
   * dated later than today are not excluded.
   */
  function WeekSummary(es: seq<TimesheetEntry>, weekStart: int): (r: Option<int>)
    ensures r.Some? <==> forall e :: e in es && OnOrAfter(e, weekStart) ==> HoursValue(e).Some?
  {
    SumHours(WeekEntries(es, weekStart))
  }

  /** The week filter works piece by piece: what it keeps of a + b is what it keeps of a, then of b. */
  lemma {:induction false} WeekEntriesOfConcat(a: seq<TimesheetEntry>, b: seq<TimesheetEntry>, weekStart: int)
    ensures WeekEntries(a + b, weekStart) == WeekEntries(a, weekStart) + WeekEntries(b, weekStart)
  {
    if b != [] {
      var b' := b[..|b| - 1];
      assert (a + b)[..|a + b| - 1] == a + b';
      assert (a + b)[|a + b| - 1] == b[|b| - 1];
      WeekEntriesOfConcat(a, b', weekStart);
    } else {
      assert a + b == a;
    }
  }

  lemma PlusAssociative(x: Option<int>, y: Option<int>, z: Option<int>)
    ensures Plus(Plus(x, y), z) == Plus(x, Plus(y, z))
  {
  }

  /** The sum of a concatenation is the sum of the sums. */
  lemma {:induction false} SumHoursOfConcat(a: seq<TimesheetEntry>, b: seq<TimesheetEntry>)
    ensures SumHours(a + b) == Plus(SumHours(a), SumHours(b))
  {
    if b != [] {
      var b' := b[..|b| - 1];
      assert (a + b)[..|a + b| - 1] == a + b';
      assert (a + b)[|a + b| - 1] == b[|b| - 1];
      SumHoursOfConcat(a, b');
      PlusAssociative(SumHours(a), SumHours(b'), HoursValue(b[|b| - 1]));
    } else {
      assert a + b == a;
    }
  }

  /** The week's hours of a + b are the week's hours of a plus those of b. */
  lemma WeekSummaryOfConcat(a: seq<TimesheetEntry>, b: seq<TimesheetEntry>, weekStart: int)
    ensures WeekSummary(a + b, weekStart) == Plus(WeekSummary(a, weekStart), WeekSummary(b, weekStart))
  {
    WeekEntriesOfConcat(a, b, weekStart);
    SumHoursOfConcat(WeekEntries(a, weekStart), WeekEntries(b, weekStart));
  }

  /** One entry contributes its hours when it is dated in the week, and nothing otherwise. */
  lemma WeekSummarySingle(e: TimesheetEntry, weekStart: int)
    ensures WeekSummary([e], weekStart) == if OnOrAfter(e, weekStart) then HoursValue(e) else Some(0)
  {
    assert [e][..0] == [];
    var kept := WeekEntries([e], weekStart);
    if OnOrAfter(e, weekStart) {
      assert kept == [e];
      assert kept[..0] == [];
      assert SumHours(kept) == Plus(Some(0), HoursValue(e));
    } else {
      assert kept == [];
    }
  }

  /** Hours fields as the app writes them: readable and never negative. */
  predicate HoursWritten(es: seq<TimesheetEntry>) {
    forall i :: 0 <= i < |es| ==> HoursValue(es[i]).Some? && HoursValue(es[i]).value >= 0
  }

  /** With readable, non-negative hours, the week's hours never exceed the total. */
  lemma {:induction false} WeekAtMostTotal(es: seq<TimesheetEntry>, weekStart: int)
    requires HoursWritten(es)
    ensures WeekSummary(es, weekStart).Some? && TotalHours(es).Some?
    ensures 0 <= WeekSummary(es, weekStart).value <= TotalHours(es).value
  {
    if es != [] {
      var front := es[..|es| - 1];
      var last := es[|es| - 1];
      assert HoursWritten(front) by {
        forall i | 0 <= i < |front| ensures HoursValue(front[i]).Some? && HoursValue(front[i]).value >= 0 {
          assert front[i] == es[i];
        }
      }
      assert HoursValue(last).Some? && HoursValue(last).value >= 0 by {
        assert last == es[|es| - 1];
      }
      WeekAtMostTotal(front, weekStart);
      var kept := WeekEntries(front, weekStart);
      if OnOrAfter(last, weekStart) {
        assert (kept + [last])[..|kept|] == kept;
      } else {
        assert kept + [] == kept;
      }
    }
  }

  // ----- The start of the week

  /** The local calendar day of an instant, on a device whose clock is offsetMs ahead of UTC. */
  function LocalDay(now: int, offsetMs: int): int {
    (now + offsetMs) / MsPerDay
  }

  /** The local day number of the Sunday that begins the week of `now`. */
  function WeekSunday(now: int, offsetMs: int): (s: int)
    ensures Weekday(s) == 0
    ensures s <= LocalDay(now, offsetMs) < s + 7
  {
    var today := LocalDay(now, offsetMs);
    today - Weekday(today)
  }

  /**
   * The week start as written: `setDate(getDate() - getDay())` moves today
   * back to Sunday but keeps the current time of day.
   */
  function WeekStartAsWritten(now: int, offsetMs: int): (start: int)
    ensures LocalDay(start, offsetMs) == WeekSunday(now, offsetMs)
    ensures (start + offsetMs) % MsPerDay == (now + offsetMs) % MsPerDay
  {
    var today := LocalDay(now, offsetMs);
    var timeOfDay := (now + offsetMs) % MsPerDay;
    assert now + offsetMs == today * MsPerDay + timeOfDay;
    var start := now - Weekday(today) * MsPerDay;
    assert start + offsetMs == (today - Weekday(today)) * MsPerDay + timeOfDay;
    start
  }

  /**
   * The week start the summary intends: the start of the Sunday's date, as
   * the instant a date-only string of that day parses to.
   */
  function WeekStart(now: int, offsetMs: int): (start: int)
    ensures start % MsPerDay == 0 && Weekday(start / MsPerDay) == 0
    ensures start / MsPerDay <= LocalDay(now, offsetMs) < start / MsPerDay + 7
  {
    WeekSunday(now, offsetMs) * MsPerDay
  }

  lemma ScaleByDay(a: int, b: int)
    ensures a * MsPerDay >= b * MsPerDay <==> a >= b
  {
    if a >= b {
      assert a * MsPerDay - b * MsPerDay == (a - b) * MsPerDay;
    } else {
      assert b * MsPerDay - a * MsPerDay == (b - a) * MsPerDay;
    }
  }

  /**
   * With the intended week start an entry counts exactly when its date is
   * the week's Sunday or later, whatever the time of day and time zone.
   */
  lemma WeekStartCountsFromSunday(now: int, offsetMs: int, e: TimesheetEntry)
    ensures OnOrAfter(e, WeekStart(now, offsetMs)) <==>
      ParseDate(e.date).Some? && ParseDate(e.date).value >= WeekSunday(now, offsetMs)
  {
    if ParseDate(e.date).Some? {
      ScaleByDay(ParseDate(e.date).value, WeekSunday(now, offsetMs));
    }
  }

  /**
   * With the week start as written, on a device on UTC, an entry dated on the
   * week's Sunday is left out unless the summary is computed exactly at midnight.
   */
  lemma SundayExcludedAsWritten(now: int, e: TimesheetEntry)
    requires now % MsPerDay != 0
    requires ParseDate(e.date) == Some(WeekSunday(now, 0))
    ensures !OnOrAfter(e, WeekStartAsWritten(now, 0))
    ensures OnOrAfter(e, WeekStart(now, 0))
  {
    var today := LocalDay(now, 0);
    var sunday := WeekSunday(now, 0);
    assert now == today * MsPerDay + now % MsPerDay;
    assert WeekStartAsWritten(now, 0) == sunday * MsPerDay + now % MsPerDay by {
      assert today * MsPerDay - Weekday(today) * MsPerDay == sunday * MsPerDay;
    }
    WeekStartCountsFromSunday(now, 0, e);
  }

  /**
   * Wednesday 2024-01-10 at noon UTC: the week began on Sunday 2024-01-07, yet
   * an entry dated that Sunday is left out of the summary as written.
   */
  lemma SundayExcludedExample(e: TimesheetEntry)
    requires e.date == "2024-01-07"
    ensures ParseDate(e.date) == Some(19729) && Weekday(19729) == 0
    ensures !OnOrAfter(e, WeekStartAsWritten(19732 * MsPerDay + MsPerDay / 2, 0))
    ensures OnOrAfter(e, WeekStart(19732 * MsPerDay + MsPerDay / 2, 0))
  {
    ParseDateExamples();
    var now := 19732 * MsPerDay + MsPerDay / 2;
    assert LocalDay(now, 0) == 19732;
    SundayExcludedAsWritten(now, e);
  }
}
