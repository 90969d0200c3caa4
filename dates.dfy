/** Dates as day numbers: day 0 is 1970-01-01, a Thursday. Moving a
    JavaScript `Date` by `setDate(getDate() + k)` is adding `k` to the day
    number; `getDay()` is `Weekday`; year, month and day of the month are
    those of the proleptic Gregorian calendar. */
module Dates {
  import opened Text
  import opened Types

  /** JavaScript `getDay()`: 0 is Sunday, 6 is Saturday. */
  function Weekday(d: int): (w: nat)
    ensures w < 7
  {
    (d + 4) % 7
  }

  /** Moving `k` days forward moves the weekday `k` places round the week. */
  lemma WeekdayAdd(d: int, k: int)
    ensures Weekday(d + k) == (Weekday(d) + k) % 7
  {
    var q := (d + 4) / 7;
    assert d + 4 == 7 * q + Weekday(d);
    assert d + k + 4 == 7 * q + (Weekday(d) + k);
  }

  /** Today minus its weekday is the Sunday that starts today's week
      (the week start of the calendar and of the dashboard). */
  function WeekStart(today: int): (s: int)
    ensures Weekday(s) == 0
    ensures today - 6 <= s <= today
    ensures today - s == Weekday(today)
  {
    var w: int := Weekday(today);
    WeekdayAdd(today, -w);
    today - w
  }

  /** Seven consecutive days from `start`. */
  function WeekOf(start: int): (days: seq<int>)
    ensures |days| == 7
    ensures forall i :: 0 <= i < 7 ==> days[i] == start + i
  {
    seq(7, i => start + i)
  }

  /** A week that starts on a Sunday runs Sunday to Saturday. */
  lemma WeekOfWeekdays(start: int)
    requires Weekday(start) == 0
    ensures forall i :: 0 <= i < 7 ==> Weekday(WeekOf(start)[i]) == i
  {
    forall i | 0 <= i < 7 ensures Weekday(WeekOf(start)[i]) == i {
      WeekdayAdd(start, i);
    }
  }

  /** The English weekday names, Sunday first, as `getDay()` numbers them. */
  function WeekdayName(w: nat): string
    requires w < 7
  {
    ["Sunday", "Monday", "Tuesday", "Wednesday", "Thursday", "Friday", "Saturday"][w]
  }

  /** The own entries of the name-to-weekday tables
      (components/workout-calendar.tsx:68-71,
      app/dashboard/generate-plan/page.tsx:220-228). */
  function WeekdayOfName(name: string): Option<nat> {
    if name == "Sunday" then Some(0)
    else if name == "Monday" then Some(1)
    else if name == "Tuesday" then Some(2)
    else if name == "Wednesday" then Some(3)
    else if name == "Thursday" then Some(4)
    else if name == "Friday" then Some(5)
    else if name == "Saturday" then Some(6)
    else None
  }

  /** The table maps the seven names one-to-one onto 0..6. */
  lemma WeekdayNamesBijective(name: string, w: nat)
    requires w < 7
    ensures WeekdayOfName(WeekdayName(w)) == Some(w)
    ensures WeekdayOfName(name) == Some(w) <==> name == WeekdayName(w)
    ensures WeekdayOfName(name).Some? ==> WeekdayOfName(name).value < 7
  {
  }

  // ----- Gregorian calendar -----

  datatype Civil = Civil(year: int, month: int, day: int)

  predicate IsLeapYear(y: int) {
    y % 4 == 0 && (y % 100 != 0 || y % 400 == 0)
  }

  function YearLength(y: int): int {
    if IsLeapYear(y) then 366 else 365
  }

  function MonthLength(y: int, m: int): (len: int)
    requires 1 <= m <= 12
    ensures 28 <= len <= 31
  {
    if m == 2 then (if IsLeapYear(y) then 29 else 28)
    else if m == 4 || m == 6 || m == 9 || m == 11 then 30
    else 31
  }

  /** Days in months `m` to December of year `y`. */
  function DaysFromMonth(y: int, m: int): int
    requires 1 <= m <= 13
    decreases 13 - m
  {
    if m == 13 then 0 else MonthLength(y, m) + DaysFromMonth(y, m + 1)
  }

  lemma MonthsFillYear(y: int)
    ensures DaysFromMonth(y, 1) == YearLength(y)
  {
  }

  /** The year holding day `k` counted from January 1 of year `y`, and
      the 0-based day of that year. */
  function YearAndOrdinal(y: int, k: int): (r: (int, int))
    ensures 0 <= r.1 < YearLength(r.0)
    decreases if k < 0 then -k else 0, if k < 0 then 0 else k
  {
    if k < 0 then YearAndOrdinal(y - 1, k + YearLength(y - 1))
    else if k < YearLength(y) then (y, k)
    else YearAndOrdinal(y + 1, k - YearLength(y))
  }

  /** The month and day of the month of 0-based day `k` counted from the
      first of month `m`. */
  function MonthAndDay(y: int, m: int, k: int): (r: (int, int))
    requires 1 <= m <= 12 && 0 <= k < DaysFromMonth(y, m)
    ensures m <= r.0 <= 12 && 1 <= r.1 <= MonthLength(y, r.0)
    decreases 12 - m
  {
    if k < MonthLength(y, m) then (m, k + 1)
    else MonthAndDay(y, m + 1, k - MonthLength(y, m))
  }

  /** `getFullYear()`, `getMonth() + 1` and `getDate()` of a day. */
  function CivilOf(d: int): (c: Civil)
    ensures 1 <= c.month <= 12 && 1 <= c.day <= 31
  {
    var (y, k) := YearAndOrdinal(1970, d);
    MonthsFillYear(y);
    var (m, day) := MonthAndDay(y, 1, k);
    Civil(y, m, day)
  }

  /** Day number of January 1 of year `y`. */
  function YearStart(y: int): int
    decreases if y >= 1970 then y - 1970 else 1970 - y
  {
    if y == 1970 then 0
    else if y > 1970 then YearStart(y - 1) + YearLength(y - 1)
    else YearStart(y + 1) - YearLength(y)
  }

  lemma YearStartStep(y: int)
    ensures YearStart(y + 1) == YearStart(y) + YearLength(y)
  {
  }

  /** Days in the months before month `m` of year `y`. */
  function MonthsBefore(y: int, m: int): int
    requires 1 <= m <= 12
  {
    if m == 1 then 0 else MonthsBefore(y, m - 1) + MonthLength(y, m - 1)
  }

  /** The day number of a calendar date. */
  function DayNumber(c: Civil): int
    requires 1 <= c.month <= 12
  {
    YearStart(c.year) + MonthsBefore(c.year, c.month) + c.day - 1
  }

  lemma {:induction false} YearAndOrdinalSound(y: int, k: int)
    ensures YearStart(YearAndOrdinal(y, k).0) + YearAndOrdinal(y, k).1 == YearStart(y) + k
    decreases if k < 0 then -k else 0, if k < 0 then 0 else k
  {
    if k < 0 {
      YearStartStep(y - 1);
      YearAndOrdinalSound(y - 1, k + YearLength(y - 1));
    } else if k >= YearLength(y) {
      YearStartStep(y);
      YearAndOrdinalSound(y + 1, k - YearLength(y));
    }
  }

  lemma {:induction false} MonthAndDaySound(y: int, m: int, k: int)
    requires 1 <= m <= 12 && 0 <= k < DaysFromMonth(y, m)
    ensures MonthsBefore(y, MonthAndDay(y, m, k).0) + MonthAndDay(y, m, k).1 - 1 == MonthsBefore(y, m) + k
    decreases 12 - m
  {
    if k >= MonthLength(y, m) {
      MonthAndDaySound(y, m + 1, k - MonthLength(y, m));
    }
  }

  /** The calendar date of a day determines the day: `DayNumber` undoes
      `CivilOf`. */
  lemma CivilOfInverse(d: int)
    ensures DayNumber(CivilOf(d)) == d
  {
    var (y, k) := YearAndOrdinal(1970, d);
    YearAndOrdinalSound(1970, d);
    MonthsFillYear(y);
    MonthAndDaySound(y, 1, k);
  }

  // ----- Date strings -----

  /** The calendar's local date key (workout-calendar.tsx:74):
      `${year}-${month padded to 2}-${day padded to 2}`. */
  function LocalDateString(c: Civil): string
    requires 1 <= c.month <= 12 && 1 <= c.day <= 31
  {
    IntToString(c.year) + "-" + Pad2(c.month) + "-" + Pad2(c.day)
  }

  /** The date part of `toISOString()`: a four-digit year for years 0 to
      9999, a signed six-digit year otherwise. */
  function IsoDateString(c: Civil): string
    requires 1 <= c.month <= 12 && 1 <= c.day <= 31
  {
    var year :=
      if 0 <= c.year <= 9999 then Pad4(c.year)
      else (if c.year < 0 then "-" else "+") + PadStart(NatToString(if c.year < 0 then -c.year else c.year), 6, '0');
    year + "-" + Pad2(c.month) + "-" + Pad2(c.day)
  }

  /** Reads `Y-MM-DD` back, with any number of year digits. */
  function ParseDateString(s: string): Option<Civil> {
    var n := |s|;
    if n >= 7 && s[n - 6] == '-' && s[n - 3] == '-'
       && AllDigits(s[..n - 6]) && AllDigits(s[n - 5..n - 3]) && AllDigits(s[n - 2..])
    then Some(Civil(DigitsValue(s[..n - 6]), DigitsValue(s[n - 5..n - 3]), DigitsValue(s[n - 2..])))
    else None
  }

  lemma ThreePartSlices(a: string, b: string, c: string, s: string)
    requires |b| == 2 && |c| == 2 && s == a + "-" + b + "-" + c
    ensures |s| == |a| + 6 && s[|s| - 6] == '-' && s[|s| - 3] == '-'
    ensures s[..|s| - 6] == a && s[|s| - 5..|s| - 3] == b && s[|s| - 2..] == c
  {
  }

  /** The local date key determines the date: it reads back as the year,
      month and day it was built from. */
  lemma LocalDateStringRoundTrip(c: Civil)
    requires 1 <= c.month <= 12 && 1 <= c.day <= 31 && c.year >= 0
    ensures ParseDateString(LocalDateString(c)) == Some(c)
  {
    var s := LocalDateString(c);
    var ys, ms, ds := NatToString(c.year), Pad2(c.month), Pad2(c.day);
    assert IntToString(c.year) == ys;
    ThreePartSlices(ys, ms, ds, s);
    NatToStringRoundTrip(c.year);
    assert AllDigits(s[..|s| - 6]) && AllDigits(s[|s| - 5..|s| - 3]) && AllDigits(s[|s| - 2..]);
    assert DigitsValue(s[..|s| - 6]) == c.year;
    assert DigitsValue(s[|s| - 5..|s| - 3]) == c.month && DigitsValue(s[|s| - 2..]) == c.day;
  }

  /** For four-digit years the ISO date and the local date key agree, so a
      date stored through `toISOString()` is found by the calendar's key
      (time zones aside). */
  lemma IsoMatchesLocalForFourDigitYears(c: Civil)
    requires 1 <= c.month <= 12 && 1 <= c.day <= 31 && 1000 <= c.year <= 9999
    ensures IsoDateString(c) == LocalDateString(c)
  {
    assert |NatToString(c.year)| == 4;
  }
}
