/** `fmt_ts`: seconds since 1970 to a calendar date and time of day. */
module CivilDate {
  datatype Date = Date(year: int, month: int, day: int)
  datatype Stamp = Stamp(date: Date, hour: int, minute: int)

  // --- The source's arithmetic ----------------------------------------------

  function YearOfEra(doe: nat): int {
    (doe - doe / 1460 + doe / 36_524 - doe / 146_096) / 365
  }

  function Civil(days: nat): Date {
    var z := days + 719_468;
    var era := z / 146_097;
    var doe := z - era * 146_097;
    var yoe := YearOfEra(doe);
    var doy := doe - (365 * yoe + yoe / 4 - yoe / 100);
    var mp := (5 * doy + 2) / 153;
    var m := if mp < 10 then mp + 3 else mp - 9;
    Date(yoe + era * 400 + if m <= 2 then 1 else 0, m, doy - (153 * mp + 2) / 5 + 1)
  }

  function FmtTs(unix: nat): Stamp {
    var secs := unix % 86_400;
    Stamp(Civil(unix / 86_400), secs / 3600, secs % 3600 / 60)
  }

  // --- The calendar ---------------------------------------------------------

  predicate IsLeap(year: int) {
    year % 4 == 0 && (year % 100 != 0 || year % 400 == 0)
  }

  function DaysIn(year: int, month: int): int {
    if month == 2 then (if IsLeap(year) then 29 else 28)
    else if month == 4 || month == 6 || month == 9 || month == 11 then 30
    else 31
  }

  predicate IsDate(d: Date) {
    1 <= d.month <= 12 && 1 <= d.day <= DaysIn(d.year, d.month)
  }

  function NextDay(d: Date): Date {
    if d.day < DaysIn(d.year, d.month) then d.(day := d.day + 1)
    else if d.month < 12 then Date(d.year, d.month + 1, 1)
    else Date(d.year + 1, 1, 1)
  }

  /** The calendar counted off one day at a time. */
  function CountedFrom1970(days: nat): Date {
    if days == 0 then Date(1970, 1, 1) else NextDay(CountedFrom1970(days - 1))
  }

  // --- Years of an era, which start on the first of March -------------------

  function YearStart(y: int): int {
    365 * y + y / 4 - y / 100
  }

  /** Length of year `y` of an era; its February belongs to year `y + 1`. */
  function YearLength(y: int): int {
    if IsLeap(y + 1) then 366 else 365
  }

  lemma Centuries(q: int, r: int)
    requires 0 <= q <= 3 && 0 <= r <= 36_524 && (r == 36_524 ==> q == 3)
    ensures (36_524 * q + r) / 36_524 - (36_524 * q + r) / 146_096 == q
  {}

  /** A day of an era split into centuries, four-year spans, years and days. */
  lemma YearOfEraSplit(q: int, s: int, t: int, d: int)
    requires 0 <= q <= 3 && 0 <= s <= 24 && 0 <= t <= 3 && 0 <= d <= 365 && (d == 365 ==> t == 3)
    requires 1461 * s + 365 * t + d <= 36_524 && (1461 * s + 365 * t + d == 36_524 ==> q == 3)
    ensures YearOfEra(36_524 * q + 1461 * s + 365 * t + d) == 100 * q + 4 * s + t
  {
    var doe := 36_524 * q + 1461 * s + 365 * t + d;
    Centuries(q, 1461 * s + 365 * t + d);
    var x := 24 * q + s + 365 * t + d;
    assert doe == 1460 * (25 * q + s) + x;
    var n := 365 * (100 * q + 4 * s + t) + d;
    if x < 1460 {
      assert doe / 1460 == 25 * q + s;
      assert doe - doe / 1460 + q == n;
    } else {
      assert doe / 1460 == 25 * q + s + 1;
      assert doe - doe / 1460 + q == n - 1;
    }
  }

  /** The source's year formula picks the year the day lies in. */
  lemma YearOfEraCorrect(doe: nat)
    requires doe < 146_097
    ensures var y := YearOfEra(doe);
      0 <= y <= 399 && YearStart(y) <= doe < YearStart(y) + YearLength(y)
  {
    var q := if doe / 36_524 > 3 then 3 else doe / 36_524;
    var r := doe - 36_524 * q;
    var s := r / 1461;
    var u := r - 1461 * s;
    var t := if u / 365 > 3 then 3 else u / 365;
    var d := u - 365 * t;
    YearOfEraSplit(q, s, t, d);
    SpanStart(q, s, t);
    hide YearOfEra, YearStart, YearLength;
  }

  lemma SpanStart(q: int, s: int, t: int)
    requires 0 <= q <= 3 && 0 <= s <= 24 && 0 <= t <= 3
    ensures YearStart(100 * q + 4 * s + t) == 36_524 * q + 1461 * s + 365 * t
    ensures YearLength(100 * q + 4 * s + t) == if t == 3 && (s < 24 || q == 3) then 366 else 365
  {
    var y := 100 * q + 4 * s + t;
    assert y / 4 == 25 * q + s;
    assert y / 100 == q;
    assert (y + 1) % 4 == (t + 1) % 4;
    if t == 3 {
      assert (y + 1) == 100 * q + 4 * (s + 1);
    }
  }

  lemma YearStartNext(y: int)
    requires 0 <= y < 399
    ensures YearStart(y + 1) == YearStart(y) + YearLength(y)
  {
    assert (y + 1) / 4 == y / 4 + if (y + 1) % 4 == 0 then 1 else 0;
    assert (y + 1) / 100 == y / 100 + if (y + 1) % 100 == 0 then 1 else 0;
    assert (y + 1) % 400 != 0;
  }

  lemma {:induction false} YearStartsGrow(a: int, b: int)
    requires 0 <= a < b <= 399
    ensures YearStart(a) + YearLength(a) <= YearStart(b)
    decreases b - a
  {
    YearStartNext(b - 1);
    if a < b - 1 { YearStartsGrow(a, b - 1); }
    hide YearStart;
  }

  /** Only one year of an era holds a given day. */
  lemma YearOfEraUnique(doe: nat, y: int)
    requires doe < 146_097 && 0 <= y <= 399 && YearStart(y) <= doe < YearStart(y) + YearLength(y)
    ensures YearOfEra(doe) == y
  {
    YearOfEraCorrect(doe);
    var x := YearOfEra(doe);
    hide YearStart, YearLength, YearOfEra;
    if x < y { YearStartsGrow(x, y); }
    if y < x { YearStartsGrow(y, x); }
  }

  // --- Months of a year that starts in March --------------------------------

  function MonthStart(mp: int): int {
    (153 * mp + 2) / 5
  }

  /** The source's date for day `doy` of year `y` of an era. */
  function DateIn(era: int, y: int, doy: int): Date {
    var mp := (5 * doy + 2) / 153;
    var m := if mp < 10 then mp + 3 else mp - 9;
    Date(y + era * 400 + if m <= 2 then 1 else 0, m, doy - MonthStart(mp) + 1)
  }

  lemma RemainderAt(x: int, y: int, q: int, d: int)
    requires d > 0 && x == y + d * q
    ensures x % d == y % d
  {
    var k := x / d - y / d - q;
    assert d * k == y % d - x % d by {
      assert d * k == d * (x / d) - d * (y / d) - d * q;
    }
    assert k > 0 ==> d * k >= d;
    assert k < 0 ==> d * k <= -d;
  }

  lemma LeapRepeats(era: int, y: int)
    ensures IsLeap(y + era * 400) == IsLeap(y)
  {
    var x := y + era * 400;
    RemainderAt(x, y, 100 * era, 4);
    RemainderAt(x, y, 4 * era, 100);
    RemainderAt(x, y, era, 400);
  }

  /** Month `mp` of the shifted year spans exactly its own days. */
  lemma MonthSpan(era: int, y: int, doy: int)
    requires 0 <= y <= 399 && 0 <= doy < YearLength(y)
    ensures var mp := (5 * doy + 2) / 153;
      var d := DateIn(era, y, doy);
      && 0 <= mp <= 11 && IsDate(d)
      && MonthStart(mp) + DaysIn(d.year, d.month) == (if mp < 11 then MonthStart(mp + 1) else YearLength(y))
  {
    LeapRepeats(era, y + 1);
    var mp := (5 * doy + 2) / 153;
    assert 153 * mp <= 5 * doy + 2 < 153 * mp + 153;
    assert DateIn(era, y, doy).month == 2 ==> DateIn(era, y, doy).year == y + 1 + era * 400;
    hide IsLeap;
  }

  /** The day after, in the same year or at the start of the next. */
  lemma NextDayIn(era: int, y: int, doy: int)
    requires 0 <= y <= 399 && 0 <= doy < YearLength(y)
    ensures NextDay(DateIn(era, y, doy))
      == if doy + 1 < YearLength(y) then DateIn(era, y, doy + 1)
         else if y < 399 then DateIn(era, y + 1, 0)
         else DateIn(era + 1, 0, 0)
  {
    MonthSpan(era, y, doy);
    var mp := (5 * doy + 2) / 153;
    if doy + 1 < YearLength(y) {
      MonthSpan(era, y, doy + 1);
    }
    hide IsLeap, DaysIn;
    var next := (5 * (doy + 1) + 2) / 153;
    if mp < 11 && doy + 1 == MonthStart(mp + 1) {
      assert next == mp + 1;
    } else if mp < 11 {
      assert next == mp;
    }
  }

  /** Day `days` is day `doy` of year `y` of `era`. */
  predicate LiesAt(days: nat, era: int, y: int, doy: int) {
    && 0 <= y <= 399 && 0 <= doy < YearLength(y) && era >= 0
    && days + 719_468 == era * 146_097 + YearStart(y) + doy
  }

  /** The date of a day is the date of its place in its era and year. */
  lemma CivilIn(era: int, y: int, doy: int, days: nat)
    requires LiesAt(days, era, y, doy)
    ensures Civil(days) == DateIn(era, y, doy)
  {
    var z := days + 719_468;
    EraEnds(y);
    assert z / 146_097 == era;
    YearOfEraUnique(YearStart(y) + doy, y);
    hide YearOfEra;
  }

  lemma EraEnds(y: int)
    requires 0 <= y <= 399
    ensures 0 <= YearStart(y)
    ensures YearStart(y) + YearLength(y) <= 146_097
    ensures YearStart(y) + YearLength(y) == 146_097 <==> y == 399
  {
    if y < 399 { YearStartsGrow(y, 399); }
  }

  /** Where a day lies: its era, the year of the era, the day of that year. */
  lemma Locate(days: nat) returns (era: int, y: int, doy: int)
    ensures LiesAt(days, era, y, doy) && 0 <= y <= 399 && 0 <= doy < YearLength(y)
  {
    var z := days + 719_468;
    era := z / 146_097;
    var doe := z - era * 146_097;
    YearOfEraCorrect(doe);
    y := YearOfEra(doe);
    doy := doe - YearStart(y);
  }

  /** The day after lies next in the year, or first in the next year or era. */
  lemma NextPlace(days: nat, era: int, y: int, doy: int)
    requires LiesAt(days, era, y, doy)
    ensures doy + 1 < YearLength(y) ==> LiesAt(days + 1, era, y, doy + 1)
    ensures doy + 1 == YearLength(y) && y < 399 ==> LiesAt(days + 1, era, y + 1, 0)
    ensures doy + 1 == YearLength(y) && y == 399 ==> LiesAt(days + 1, era + 1, 0, 0)
  {
    EraEnds(y);
    assert YearStart(0) == 0;
    if y < 399 { YearStartNext(y); }
    hide YearStart, IsLeap;
  }

  /** Consecutive days get consecutive calendar dates. */
  lemma CivilStep(days: nat)
    ensures Civil(days + 1) == NextDay(Civil(days))
  {
    var era, y, doy := Locate(days);
    hide *;
    NextPlace(days, era, y, doy);
    CivilIn(era, y, doy, days);
    NextDayIn(era, y, doy);
    if doy + 1 < YearLength(y) {
      CivilIn(era, y, doy + 1, days + 1);
    } else if y < 399 {
      CivilIn(era, y + 1, 0, days + 1);
    } else {
      CivilIn(era + 1, 0, 0, days + 1);
    }
  }

  /** For every day count the source's arithmetic gives the date reached by
      counting that many days off the calendar from 1 January 1970. */
  lemma {:induction false} CivilIsCounted(days: nat)
    ensures Civil(days) == CountedFrom1970(days)
  {
    hide Civil, NextDay;
    if days == 0 {
      CivilEpoch();
    } else {
      CivilIsCounted(days - 1);
      CivilStep(days - 1);
    }
  }

  lemma CivilEpoch()
    ensures Civil(0) == Date(1970, 1, 1)
  {
    CivilIn(4, 369, 306, 0);
    hide Civil;
  }

  // --- Day numbers ----------------------------------------------------------

  function DaysBeforeMonth(year: int, month: int): int
    requires 1 <= month <= 12
    decreases month
  {
    if month == 1 then 0 else DaysBeforeMonth(year, month - 1) + DaysIn(year, month - 1)
  }

  /** Days from 1 January of year 0 to 1 January of `year`. */
  function DaysBeforeYear(year: nat): nat {
    if year == 0 then 0 else DaysBeforeYear(year - 1) + if IsLeap(year - 1) then 366 else 365
  }

  /** Days since the start of year 0. */
  function DayNumber(d: Date): int
    requires IsDate(d) && d.year >= 0
  {
    DaysBeforeYear(d.year) + DaysBeforeMonth(d.year, d.month) + d.day - 1
  }

  lemma WholeYear(year: int)
    ensures DaysBeforeMonth(year, 12) + 31 == if IsLeap(year) then 366 else 365
  {
    assert DaysBeforeMonth(year, 3) == 31 + DaysIn(year, 2);
    assert DaysBeforeMonth(year, 6) == DaysBeforeMonth(year, 3) + 92;
    assert DaysBeforeMonth(year, 9) == DaysBeforeMonth(year, 6) + 92;
    assert DaysBeforeMonth(year, 12) == DaysBeforeMonth(year, 9) + 91;
  }

  lemma NextDayNumber(d: Date)
    requires IsDate(d) && d.year >= 0
    ensures IsDate(NextDay(d)) && NextDay(d).year >= 0 && DayNumber(NextDay(d)) == DayNumber(d) + 1
  {
    WholeYear(d.year);
    hide IsLeap;
    if d.day == DaysIn(d.year, d.month) && d.month < 12 {
      assert DaysBeforeMonth(d.year, d.month + 1) == DaysBeforeMonth(d.year, d.month) + DaysIn(d.year, d.month);
    }
  }

  lemma {:induction false} MonthsGrow(year: int, a: int, b: int)
    requires 1 <= a < b <= 12
    ensures DaysBeforeMonth(year, a) + DaysIn(year, a) <= DaysBeforeMonth(year, b)
    decreases b - a
  {
    hide IsLeap;
    if a < b - 1 { MonthsGrow(year, a, b - 1); }
  }

  lemma WithinYear(d: Date)
    requires IsDate(d) && d.year >= 0
    ensures DaysBeforeYear(d.year) <= DayNumber(d) < DaysBeforeYear(d.year + 1)
  {
    WholeYear(d.year);
    FromJanuary(d.year, d.month);
    hide IsLeap;
    if d.month < 12 { MonthsGrow(d.year, d.month, 12); }
  }

  lemma {:induction false} FromJanuary(year: int, month: int)
    requires 1 <= month <= 12
    ensures DaysBeforeMonth(year, month) >= 0
    decreases month
  {
    hide IsLeap;
    if month > 1 { FromJanuary(year, month - 1); }
  }

  lemma {:induction false} YearsGrow(a: nat, b: nat)
    requires a < b
    ensures DaysBeforeYear(a + 1) <= DaysBeforeYear(b)
    decreases b - a
  {
    if a + 1 < b { YearsGrow(a, b - 1); }
  }

  /** No two valid dates share a day number. */
  lemma DayNumberUnique(a: Date, b: Date)
    requires IsDate(a) && IsDate(b) && a.year >= 0 && b.year >= 0
    requires DayNumber(a) == DayNumber(b)
    ensures a == b
  {
    WithinYear(a);
    WithinYear(b);
    if a.year < b.year { YearsGrow(a.year, b.year); }
    if b.year < a.year { YearsGrow(b.year, a.year); }
    assert a.year == b.year;
    hide DaysIn, IsLeap;
    if a.month < b.month { MonthsGrow(a.year, a.month, b.month); }
    if b.month < a.month { MonthsGrow(a.year, b.month, a.month); }
  }

  lemma {:induction false} CountedDayNumber(days: nat)
    ensures var d := CountedFrom1970(days);
      IsDate(d) && d.year >= 0 && DayNumber(d) == DayNumber(Date(1970, 1, 1)) + days
  {
    if days > 0 {
      CountedDayNumber(days - 1);
      NextDayNumber(CountedFrom1970(days - 1));
      hide DayNumber, NextDay;
    }
  }

  /** For every second count, the stamp is the one valid date whose day number is
      `unix / 86400` past 1 January 1970, with the hour and minute of that day. */
  lemma StampIsUnique(unix: nat, d: Date)
    ensures var t := FmtTs(unix);
      && IsDate(t.date) && t.date.year >= 0
      && DayNumber(t.date) == DayNumber(Date(1970, 1, 1)) + unix / 86_400
      && 0 <= t.hour < 24 && 0 <= t.minute < 60
      && 0 <= unix - (86_400 * (unix / 86_400) + 3600 * t.hour + 60 * t.minute) < 60
    ensures IsDate(d) && d.year >= 0 && DayNumber(d) == DayNumber(Date(1970, 1, 1)) + unix / 86_400
      ==> d == FmtTs(unix).date
  {
    CivilIsCounted(unix / 86_400);
    CountedDayNumber(unix / 86_400);
    hide Civil, CountedFrom1970, DayNumber;
    if IsDate(d) && d.year >= 0 && DayNumber(d) == DayNumber(Date(1970, 1, 1)) + unix / 86_400 {
      DayNumberUnique(d, FmtTs(unix).date);
    }
  }
}
