/**
 Day numbers and week numbers (time.ts), over the proleptic Gregorian calendar as
 section 21.4.1 of ECMA-262 defines it. Days count from 1 January 1970.

 `IsoWeekOf` is the calendar week of section 2.2.10 of ISO 8601:2004 by its meaning: the
 year is the Thursday's, the week is how many Thursdays that year has had. The method
 `IsoYearWeek` is the source's date arithmetic, proved to compute it.
 */
module Calendar {
  const SECONDS_PER_DAY := 86400
  const MS_PER_DAY := 86400000

  // ---- ECMA-262 dates --------------------------------------------------------------

  function DayFromYear(y: int): int {
    365 * (y - 1970) + (y - 1969) / 4 - (y - 1901) / 100 + (y - 1601) / 400
  }

  predicate IsLeap(y: int) {
    y % 4 == 0 && (y % 100 != 0 || y % 400 == 0)
  }

  lemma YearLength(y: int)
    ensures DayFromYear(y + 1) - DayFromYear(y) == if IsLeap(y) then 366 else 365
  {
    Quarters(y);
    Centuries(y);
    FourCenturies(y);
    LeapBySums(y);
  }

  lemma Quarters(y: int)
    ensures (y + 1 - 1969) / 4 - (y - 1969) / 4 == if y % 4 == 0 then 1 else 0
  {
  }

  lemma Centuries(y: int)
    ensures (y + 1 - 1901) / 100 - (y - 1901) / 100 == if y % 100 == 0 then 1 else 0
  {
  }

  lemma FourCenturies(y: int)
    ensures (y + 1 - 1601) / 400 - (y - 1601) / 400 == if y % 400 == 0 then 1 else 0
  {
  }

  /** The leap days that one more year adds. */
  lemma LeapBySums(y: int)
    ensures (if y % 4 == 0 then 1 else 0) - (if y % 100 == 0 then 1 else 0) + (if y % 400 == 0 then 1 else 0) ==
            if IsLeap(y) then 1 else 0
  {
    assert y == 100 * (y / 100) + y % 100;
    assert y == 400 * (y / 400) + y % 400;
  }

  /** The largest year from `y` on that starts on or before `day`. */
  function YearFrom(day: int, y: int): (r: int)
    requires DayFromYear(y) <= day
    ensures y <= r && DayFromYear(r) <= day < DayFromYear(r + 1)
    decreases day - DayFromYear(y)
  {
    YearLength(y);
    if DayFromYear(y + 1) <= day then YearFrom(day, y + 1) else y
  }

  lemma EarlyYear(day: int)
    ensures DayFromYear(if day >= 0 then 1970 + day / 366 else 1970 + day / 365) <= day
  {
  }

  function YearOf(day: int): (r: int)
    ensures DayFromYear(r) <= day < DayFromYear(r + 1)
  {
    EarlyYear(day);
    YearFrom(day, if day >= 0 then 1970 + day / 366 else 1970 + day / 365)
  }

  lemma {:induction false} YearsOrdered(y: int, z: int)
    requires y <= z
    ensures DayFromYear(y) + 365 * (z - y) <= DayFromYear(z)
    decreases z - y
  {
    if y < z {
      YearLength(y);
      YearsOrdered(y + 1, z);
    }
  }

  /** The day of the year on which month `m` (0..11) starts. */
  function MonthStart(m: nat, leap: bool): nat
    requires m < 12
  {
    [0, 31, 59, 90, 120, 151, 181, 212, 243, 273, 304, 334][m] + if leap && m >= 2 then 1 else 0
  }

  function MonthFrom(yearDay: nat, leap: bool, m: nat): (r: nat)
    requires m < 12 && MonthStart(m, leap) <= yearDay
    ensures m <= r < 12 && MonthStart(r, leap) <= yearDay && (r < 11 ==> yearDay < MonthStart(r + 1, leap))
    decreases 12 - m
  {
    if m < 11 && MonthStart(m + 1, leap) <= yearDay then MonthFrom(yearDay, leap, m + 1) else m
  }

  function YearDay(day: int): (r: nat)
    ensures r < 366
  {
    YearLength(YearOf(day));
    day - DayFromYear(YearOf(day))
  }

  function MonthOf(day: int): (r: nat)
    ensures r < 12
  {
    MonthFrom(YearDay(day), IsLeap(YearOf(day)), 0)
  }

  lemma MonthLength(yearDay: nat, leap: bool)
    requires yearDay < if leap then 366 else 365
    ensures yearDay - MonthStart(MonthFrom(yearDay, leap, 0), leap) < 31
  {
    hide MonthFrom;
  }

  function DateOf(day: int): (r: nat)
    ensures 1 <= r <= 31
  {
    var leap := IsLeap(YearOf(day));
    YearLength(YearOf(day));
    MonthLength(YearDay(day), leap);
    YearDay(day) - MonthStart(MonthOf(day), leap) + 1
  }

  /** Monday is 1, Sunday is 0. */
  function WeekDay(day: int): nat {
    (day + 4) % 7
  }

  /** `MakeDay` for a month that needs no carry: the date may lie outside the month. */
  function MakeDay(year: int, month: nat, date: int): int
    requires month < 12
  {
    DayFromYear(year) + MonthStart(month, IsLeap(year)) + date - 1
  }

  /** Taking a day apart and putting it together again. */
  lemma DayParts(day: int)
    ensures MakeDay(YearOf(day), MonthOf(day), DateOf(day)) == day
  {
  }

  // ---- Every date of the calendar ----------------------------------------------------

  /** Thirty days have April, June, September and November. */
  function MonthDays(month: nat, leap: bool): nat
    requires month < 12
  {
    if month == 1 then (if leap then 29 else 28) else if month in [3, 5, 8, 10] then 30 else 31
  }

  lemma MonthLengths(m: nat, leap: bool)
    requires m < 12
    ensures MonthStart(0, leap) == 0
    ensures MonthStart(m, leap) + MonthDays(m, leap) ==
            if m == 11 then (if leap then 366 else 365) else MonthStart(m + 1, leap)
  {
  }

  lemma YearUnique(day: int, y: int)
    requires DayFromYear(y) <= day < DayFromYear(y + 1)
    ensures YearOf(day) == y
  {
    hide YearOf, DayFromYear;
    if YearOf(day) < y { YearsOrdered(YearOf(day) + 1, y); }
    if YearOf(day) > y { YearsOrdered(y + 1, YearOf(day)); }
  }

  lemma MonthUnique(yearDay: nat, leap: bool, m: nat)
    requires m < 12 && MonthStart(m, leap) <= yearDay < MonthStart(m, leap) + MonthDays(m, leap)
    ensures MonthFrom(yearDay, leap, 0) == m
  {
    MonthLengths(m, leap);
    hide MonthFrom, MonthDays, MonthStart;
    var n := MonthFrom(yearDay, leap, 0);
    if n < m { MonthStarts(n + 1, m, leap); }
    if m < n { MonthStarts(m + 1, n, leap); }
  }

  /** Every date of the calendar is read back from its day: 1 January 1970 is day 0, and each month has its length. */
  lemma DateReadsBack(year: int, month: nat, date: nat)
    requires month < 12 && 1 <= date <= MonthDays(month, IsLeap(year))
    ensures var day := MakeDay(year, month, date);
      YearOf(day) == year && MonthOf(day) == month && DateOf(day) == date
    ensures MakeDay(1970, 0, 1) == 0
    ensures MakeDay(year, month, date + 1) == MakeDay(year, month, date) + 1
    ensures date == MonthDays(month, IsLeap(year)) ==>
      MakeDay(year, month, date) + 1 == if month == 11 then MakeDay(year + 1, 0, 1) else MakeDay(year, month + 1, 1)
  {
    var day := MakeDay(year, month, date);
    MonthLengths(month, IsLeap(year));
    MonthLengths(0, IsLeap(year + 1));
    YearLength(year);
    DateInYear(year, month, date);
    hide YearOf, MonthFrom, MonthDays, MonthStart, DayFromYear, IsLeap;
    YearUnique(day, year);
    MonthUnique(YearDay(day), IsLeap(year), month);
    Epoch();
  }

  lemma DateInYear(year: int, month: nat, date: nat)
    requires month < 12 && 1 <= date <= MonthDays(month, IsLeap(year))
    ensures DayFromYear(year) <= MakeDay(year, month, date) < DayFromYear(year + 1)
  {
    YearLength(year);
    MonthLengths(month, IsLeap(year));
    hide DayFromYear, IsLeap, MonthDays, MonthStart;
    if month < 11 { MonthEnds(month, IsLeap(year)); }
  }

  lemma MonthEnds(m: nat, leap: bool)
    requires m < 11
    ensures MonthStart(m + 1, leap) <= 365
  {
  }

  lemma Epoch()
    ensures MakeDay(1970, 0, 1) == 0
  {
  }

  // ---- Day numbers -----------------------------------------------------------------

  function DayOf(unixSeconds: int): int {
    unixSeconds / SECONDS_PER_DAY
  }

  function Yyyymmdd(day: int): int {
    YearOf(day) * 10000 + (MonthOf(day) + 1) * 100 + DateOf(day)
  }

  /** yyyymmdd in UTC. */
  function UtcDayNumber(unixSeconds: int): int {
    Yyyymmdd(DayOf(unixSeconds))
  }

  /** The decimal digits of a day number are its year, month and date. */
  lemma DayNumberDigits(unixSeconds: int)
    ensures var n, day := UtcDayNumber(unixSeconds), DayOf(unixSeconds);
      n / 10000 == YearOf(day) && n / 100 % 100 == MonthOf(day) + 1 && n % 100 == DateOf(day)
    ensures DayOf(unixSeconds) * 86400 <= unixSeconds < (DayOf(unixSeconds) + 1) * 86400
  {
    hide YearOf, MonthOf, DateOf;
    var day := DayOf(unixSeconds);
    Digits(YearOf(day), MonthOf(day) + 1, DateOf(day));
  }

  lemma Digits(y: int, m: nat, d: nat)
    requires m < 100 && d < 100
    ensures var n := y * 10000 + m * 100 + d; n / 10000 == y && n / 100 % 100 == m && n % 100 == d
  {
    var n := y * 10000 + m * 100 + d;
    assert n / 100 == y * 100 + m;
  }

  lemma MonthsOrdered(a: nat, b: nat, leap: bool)
    requires a <= b
    ensures MonthFrom(a, leap, 0) <= MonthFrom(b, leap, 0)
  {
    var m, n := MonthFrom(a, leap, 0), MonthFrom(b, leap, 0);
    hide MonthFrom;
    if n < m { MonthStarts(n + 1, m, leap); }
  }

  lemma {:induction false} MonthStarts(m: nat, n: nat, leap: bool)
    requires m <= n < 12
    ensures MonthStart(m, leap) <= MonthStart(n, leap)
    decreases n - m
  {
    if m < n { MonthStarts(m + 1, n, leap); }
  }

  lemma YearsKeepOrder(a: int, b: int)
    requires a < b
    ensures YearOf(a) <= YearOf(b)
  {
    hide YearOf, DayFromYear;
    if YearOf(b) < YearOf(a) { YearsOrdered(YearOf(b) + 1, YearOf(a)); }
  }

  lemma SameYear(a: int, b: int)
    requires a < b && YearOf(a) == YearOf(b)
    ensures MonthOf(a) <= MonthOf(b)
    ensures MonthOf(a) == MonthOf(b) ==> DateOf(a) < DateOf(b)
  {
    hide YearOf, MonthFrom, MonthStart, DayFromYear, IsLeap;
    MonthsOrdered(YearDay(a), YearDay(b), IsLeap(YearOf(a)));
  }

  lemma DaysOrdered(a: int, b: int)
    requires a < b
    ensures Yyyymmdd(a) < Yyyymmdd(b)
  {
    hide YearOf, MonthOf, DateOf;
    YearsKeepOrder(a, b);
    if YearOf(a) == YearOf(b) { SameYear(a, b); }
  }

  /** A later UTC day has a larger number, so equal numbers mean the same day. */
  lemma DayNumbersOrdered(s: int, t: int)
    ensures DayOf(s) < DayOf(t) <==> UtcDayNumber(s) < UtcDayNumber(t)
    ensures DayOf(s) == DayOf(t) <==> UtcDayNumber(s) == UtcDayNumber(t)
  {
    hide Yyyymmdd, DayOf;
    if DayOf(s) < DayOf(t) { DaysOrdered(DayOf(s), DayOf(t)); }
    if DayOf(t) < DayOf(s) { DaysOrdered(DayOf(t), DayOf(s)); }
  }

  /** Day numbers never go back as time goes on. */
  lemma DaysMonotone(s: int, t: int)
    requires s <= t
    ensures UtcDayNumber(s) <= UtcDayNumber(t)
  {
    hide UtcDayNumber;
    assert DayOf(s) <= DayOf(t);
    DayNumbersOrdered(s, t);
  }

  // ---- Weeks -----------------------------------------------------------------------

  /** Monday 0 to Sunday 6. */
  function DaysPastMonday(day: int): (r: nat)
    ensures r < 7
  {
    (WeekDay(day) + 6) % 7
  }

  function MondayOf(day: int): (r: int)
    ensures DaysPastMonday(r) == 0 && r <= day < r + 7
  {
    day - DaysPastMonday(day)
  }

  function ThursdayOf(day: int): (r: int)
    ensures WeekDay(r) == 4 && r == MondayOf(day) + 3
  {
    day - DaysPastMonday(day) + 3
  }

  /** 1 January 1970 was a Thursday, and weeks run from Monday to Sunday. */
  lemma WeekAnchored(day: int)
    ensures MondayOf(day) <= day < MondayOf(day) + 7 && (MondayOf(day) + 3) % 7 == 0
    ensures ThursdayOf(day) == MondayOf(day) + 3
    ensures WeekDay(day) == 4 <==> day % 7 == 0
  {
  }

  /** How many Thursdays there are from `from` before `end`. */
  function Thursdays(from: int, end: int): nat
    decreases end - from
  {
    if from >= end then 0 else Thursdays(from, end - 1) + if WeekDay(end - 1) == 4 then 1 else 0
  }

  function IsoYear(day: int): int {
    YearOf(ThursdayOf(day))
  }

  function IsoWeek(day: int): nat {
    Thursdays(DayFromYear(IsoYear(day)), ThursdayOf(day) + 1)
  }

  function IsoWeekOf(day: int): int {
    IsoYear(day) * 100 + IsoWeek(day)
  }

  lemma {:induction false} ThursdaysAdd(from: int, mid: int, end: int)
    requires from <= mid <= end
    ensures Thursdays(from, end) == Thursdays(from, mid) + Thursdays(mid, end)
    decreases end - mid
  {
    if mid < end { ThursdaysAdd(from, mid, end - 1); }
  }

  /** Within seven days there is at most one Thursday. */
  lemma {:induction false} WeekPart(day: int, days: nat)
    requires days <= 7
    ensures Thursdays(day, day + days) == if (4 - WeekDay(day)) % 7 < days then 1 else 0
    decreases days
  {
    if days > 0 { WeekPart(day, days - 1); }
  }

  lemma OneThursday(day: int)
    ensures Thursdays(day, day + 7) == 1
  {
    WeekPart(day, 7);
  }

  /** In whole weeks there are as many Thursdays as weeks. */
  lemma {:induction false} ThursdaysInWeeks(from: int, weeks: nat)
    ensures Thursdays(from, from + 7 * weeks) == weeks
    decreases weeks
  {
    hide Thursdays;
    if weeks == 0 {
      assert Thursdays(from, from) == 0 by { NoThursdays(from); }
    } else {
      ThursdaysInWeeks(from, weeks - 1);
      OneThursday(from + 7 * (weeks - 1));
      ThursdaysAdd(from, from + 7 * (weeks - 1), from + 7 * weeks);
    }
  }

  lemma NoThursdays(from: int)
    ensures Thursdays(from, from) == 0
  {
  }

  /** Every day of a week, Monday to Sunday, has the same week number. */
  lemma SameWeek(a: int, b: int)
    requires MondayOf(a) == MondayOf(b)
    ensures IsoWeekOf(a) == IsoWeekOf(b)
  {
    hide YearOf, Thursdays, DayFromYear;
  }

  lemma ThursdaysMonotone(from: int, mid: int, end: int)
    requires from <= mid <= end
    ensures Thursdays(from, mid) <= Thursdays(from, end)
  {
    ThursdaysAdd(from, mid, end);
  }

  lemma WeekBound(day: int)
    ensures 1 <= IsoWeek(day) <= Thursdays(DayFromYear(IsoYear(day)), DayFromYear(IsoYear(day) + 1)) <= 53
  {
    hide YearOf, DayFromYear, WeekDay;
    var y, t := IsoYear(day), ThursdayOf(day);
    var from, next := DayFromYear(y), DayFromYear(y + 1);
    assert from <= t < next;
    ThursdaysMonotone(from, t + 1, next);
    YearIsShort(y);
    ThursdaysMonotone(from, next, from + 371);
    ThursdaysInWeeks(from, 53);
  }

  lemma YearIsShort(y: int)
    ensures DayFromYear(y + 1) - DayFromYear(y) <= 366
  {
    YearLength(y);
  }

  /** Week 53 comes only in a year that has 53 Thursdays. */
  lemma WeekFiftyThree(day: int)
    requires IsoWeek(day) == 53
    ensures Thursdays(DayFromYear(IsoYear(day)), DayFromYear(IsoYear(day) + 1)) == 53
  {
    hide *;
    WeekBound(day);
  }

  /** A later week has a larger number: the number steps up at every Monday. */
  lemma WeeksOrdered(a: int, b: int)
    requires MondayOf(a) < MondayOf(b)
    ensures IsoWeekOf(a) < IsoWeekOf(b)
  {
    hide YearOf, DayFromYear, Thursdays, MondayOf, WeekDay;
    var s, t := ThursdayOf(a), ThursdayOf(b);
    YearsKeepOrder(s, t);
    WeekBound(a);
    WeekBound(b);
    if IsoYear(a) == IsoYear(b) {
      OneMoreThursday(DayFromYear(IsoYear(a)), s + 1, t);
    }
  }

  lemma OneMoreThursday(from: int, mid: int, thursday: int)
    requires from <= mid <= thursday && WeekDay(thursday) == 4
    ensures Thursdays(from, mid) < Thursdays(from, thursday + 1)
  {
    ThursdaysMonotone(from, mid, thursday);
  }

  /** So two times have one week number exactly when they fall in one Monday-to-Sunday week. */
  lemma WeekNumbersExact(a: int, b: int)
    ensures IsoWeekOf(a) == IsoWeekOf(b) <==> MondayOf(a) == MondayOf(b)
  {
    hide IsoWeekOf, MondayOf;
    if MondayOf(a) == MondayOf(b) { SameWeek(a, b); }
    if MondayOf(a) < MondayOf(b) { WeeksOrdered(a, b); }
    if MondayOf(b) < MondayOf(a) { WeeksOrdered(b, a); }
  }

  // ---- The source's computation ----------------------------------------------------

  /** A UTC date: milliseconds from the epoch. */
  class UtcDate {
    var time: int

    constructor (time: int)
      ensures this.time == time
    {
      this.time := time;
    }

    function Day(): int
      reads this
    {
      time / MS_PER_DAY
    }

    /** Keeps the time of day, the month and the year, and sets the day of the month. */
    method SetUTCDate(date: int)
      modifies this
      ensures Day() == old(Day() + date - DateOf(Day()))
      ensures time % MS_PER_DAY == old(time % MS_PER_DAY)
    {
      hide YearOf, MonthOf, DateOf, DayFromYear, MonthStart, IsLeap;
      DayParts(Day());
      time := MakeDay(YearOf(Day()), MonthOf(Day()), date) * MS_PER_DAY + time % MS_PER_DAY;
    }
  }

  /** `MakeFullYear`: `Date.UTC` reads the years 0 to 99 as 1900 to 1999. */
  predicate IsShortYear(year: int) {
    0 <= year <= 99
  }

  function FullYear(year: int): int {
    if IsShortYear(year) then 1900 + year else year
  }

  /** `Date.UTC` */
  function Utc(year: int, month: nat, date: int): int
    requires month < 12
  {
    MakeDay(FullYear(year), month, date) * MS_PER_DAY
  }

  /** The first Thursday of a year is the Thursday of the week of 4 January. */
  lemma FirstThursday(y: int)
    ensures var first := ThursdayOf(DayFromYear(y) + 3); DayFromYear(y) <= first < DayFromYear(y) + 7
  {
  }

  /** Thursdays of a year are counted by dividing the days since its first one by seven. */
  lemma WeeksByDivision(y: int, thursday: int)
    requires WeekDay(thursday) == 4 && DayFromYear(y) <= thursday
    ensures var first := ThursdayOf(DayFromYear(y) + 3);
      && first <= thursday
      && (thursday - first) % 7 == 0
      && Thursdays(DayFromYear(y), thursday + 1) == 1 + (thursday - first) / 7
  {
    FirstThursday(y);
    var from, first := DayFromYear(y), ThursdayOf(DayFromYear(y) + 3);
    assert WeekDay(first) == 4;
    ByDivision(from, first, thursday);
  }

  lemma ByDivision(from: int, first: int, thursday: int)
    requires WeekDay(first) == WeekDay(thursday) == 4
    requires from <= first < from + 7 && from <= thursday
    ensures first <= thursday && (thursday - first) % 7 == 0
    ensures Thursdays(from, thursday + 1) == 1 + (thursday - first) / 7
  {
    assert first <= thursday && (thursday - first) % 7 == 0;
    OneThursday(first - 6);
    ThursdaysAdd(first - 6, from, first + 1);
    OneMoreThursday(from, first, first);
    hide Thursdays, WeekDay;
    var weeks := (thursday - first) / 7;
    ThursdaysInWeeks(first + 1, weeks);
    assert first + 1 + 7 * weeks == thursday + 1;
    ThursdaysAdd(from, first + 1, thursday + 1);
  }

  /** Midnights a whole number of weeks apart. */
  lemma WeeksApart(t: int, f: int)
    requires t % MS_PER_DAY == f % MS_PER_DAY == 0
    requires (t / MS_PER_DAY - f / MS_PER_DAY) % 7 == 0
    ensures (t - f) % (7 * MS_PER_DAY) == 0
    ensures (t - f) / (7 * MS_PER_DAY) == (t / MS_PER_DAY - f / MS_PER_DAY) / 7
  {
    var k := (t / MS_PER_DAY - f / MS_PER_DAY) / 7;
    assert t - f == k * (7 * MS_PER_DAY);
  }

  lemma ThursdayByShift(day: int)
    ensures ThursdayOf(day) == day - (WeekDay(day) + 6) % 7 + 3
    ensures WeekDay(ThursdayOf(day)) == 4
  {
  }

  lemma FourthOfJanuary(year: int)
    ensures MakeDay(year, 0, 4) == DayFromYear(year) + 3
  {
  }

  /** The day the source works on. */
  function ReadDay(day: int): int {
    MakeDay(FullYear(YearOf(day)), MonthOf(day), DateOf(day))
  }

  /** The days between the two Thursdays that the source subtracts. */
  function ThursdayGap(day: int): int {
    var thursday := ThursdayOf(ReadDay(day));
    thursday - ThursdayOf(DayFromYear(FullYear(YearOf(thursday))) + 3)
  }

  /** The week number the source computes: weeks between two Thursdays, added to the first. */
  function ComputedWeek(day: int): int {
    YearOf(ThursdayOf(ReadDay(day))) * 100 + 1 + ThursdayGap(day) / 7
  }

  /** In a year that is read as another one, the Thursdays are counted from the wrong century. */
  lemma ShortIsoYear(y: int, thursday: int)
    requires IsShortYear(y) && YearOf(thursday) == y
    ensures (thursday - ThursdayOf(DayFromYear(FullYear(y)) + 3)) / 7 < 0
  {
    FirstThursday(1900 + y);
    YearsOrdered(y + 1, 1900 + y);
    hide DayFromYear, YearOf, ThursdayOf;
    var first := ThursdayOf(DayFromYear(1900 + y) + 3);
    assert thursday < DayFromYear(y + 1) <= first;
  }

  lemma LateYear(day: int, y: int)
    requires DayFromYear(y) <= day
    ensures YearOf(day) >= y
  {
    if YearOf(day) < y { YearsOrdered(YearOf(day) + 1, y); }
    hide YearOf, DayFromYear;
  }

  lemma ComputedIsIso(day: int)
    requires !IsShortYear(YearOf(day)) && !IsShortYear(IsoYear(day))
    ensures ComputedWeek(day) == IsoWeekOf(day)
  {
    DayParts(day);
    ThursdayByShift(day);
    hide DayFromYear, MonthOf, DateOf, MakeDay, WeekDay, Thursdays, ThursdayOf, YearOf;
    WeeksByDivision(IsoYear(day), ThursdayOf(day));
  }

  lemma ReadLate(day: int)
    requires IsShortYear(YearOf(day))
    ensures ReadDay(day) >= DayFromYear(1900)
  {
    YearsOrdered(1900, 1900 + YearOf(day));
    hide YearOf, DayFromYear;
  }

  lemma LateThursday(day: int)
    requires day >= DayFromYear(1900)
    ensures YearOf(ThursdayOf(day)) >= 1899
  {
    ThursdayByShift(day);
    YearLength(1899);
    hide YearOf, DayFromYear, ThursdayOf, WeekDay;
    LateYear(ThursdayOf(day), 1899);
  }

  lemma ComputedLate(day: int, t: int)
    requires t == ThursdayOf(ReadDay(day)) && YearOf(t) >= 1899
    ensures ComputedWeek(day) >= 189900
  {
    ThursdayByShift(ReadDay(day));
    hide YearOf, DayFromYear, ThursdayOf, WeekDay, ReadDay, Thursdays;
    WeeksByDivision(YearOf(t), t);
  }

  /** A day of a year that is read as another one is taken for a day 1900 years later. */
  lemma ShortYearOf(day: int)
    requires IsShortYear(YearOf(day))
    ensures ComputedWeek(day) >= 189900 && IsoWeekOf(day) <= 10053
  {
    ReadLate(day);
    hide YearOf, DayFromYear, ThursdayOf, WeekDay, ReadDay, Thursdays, ComputedWeek, IsoYear, IsoWeek;
    LateThursday(ReadDay(day));
    ComputedLate(day, ThursdayOf(ReadDay(day)));
    EarlyIsoYear(day);
    WeekBound(day);
  }

  lemma EarlyIsoYear(day: int)
    requires IsShortYear(YearOf(day))
    ensures IsoYear(day) <= 100
  {
    var t := ThursdayOf(day);
    ThursdayByShift(day);
    YearsOrdered(YearOf(day) + 1, 100);
    YearLength(100);
    if YearOf(t) > 100 { YearsOrdered(101, YearOf(t)); }
    hide YearOf, ThursdayOf, WeekDay;
  }

  /**
   The source's week number is the ISO week if and only if neither the day's year nor the
   year of its ISO week is one of 0 to 99; in particular for every day since 1970.
   */
  lemma ComputedWeekExact(day: int)
    ensures ComputedWeek(day) == IsoWeekOf(day) <==> !IsShortYear(YearOf(day)) && !IsShortYear(IsoYear(day))
    ensures day >= 0 ==> ComputedWeek(day) == IsoWeekOf(day)
  {
    if day >= 0 {
      ThursdayByShift(day);
      LateYear(day, 1969);
      LateYear(ThursdayOf(day), 1969);
    }
    if IsShortYear(YearOf(day)) {
      ShortYearOf(day);
    } else if IsShortYear(IsoYear(day)) {
      DayParts(day);
      ShortIsoYear(IsoYear(day), ThursdayOf(day));
      WeekBound(day);
      hide DayFromYear, MonthOf, DateOf, MakeDay, WeekDay, Thursdays, ThursdayOf, YearOf;
    } else {
      ComputedIsIso(day);
    }
  }

  /** `isoYearWeek`. The argument of `Math.round` is a whole number, so nothing is rounded. */
  method IsoYearWeek(unixSeconds: int) returns (r: int)
    ensures r == ComputedWeek(DayOf(unixSeconds))
    ensures ThursdayGap(DayOf(unixSeconds)) % 7 == 0
  {
    hide YearOf, MonthOf, DateOf, DayFromYear, Thursdays, MakeDay, MondayOf, ThursdayOf;
    var src := new UtcDate(unixSeconds * 1000);
    ghost var day := DayOf(unixSeconds);
    assert src.Day() == day;
    var date := new UtcDate(Utc(YearOf(src.Day()), MonthOf(src.Day()), DateOf(src.Day())));
    assert date.Day() == ReadDay(day);
    var dayNum := (WeekDay(date.Day()) + 6) % 7;
    date.SetUTCDate(DateOf(date.Day()) - dayNum + 3);
    ThursdayByShift(ReadDay(day));
    assert date.Day() == ThursdayOf(ReadDay(day));
    var isoYear := YearOf(date.Day());
    var firstThursday := new UtcDate(Utc(isoYear, 0, 4));
    FourthOfJanuary(FullYear(isoYear));
    var firstDayNum := (WeekDay(firstThursday.Day()) + 6) % 7;
    firstThursday.SetUTCDate(DateOf(firstThursday.Day()) - firstDayNum + 3);
    ThursdayByShift(DayFromYear(FullYear(isoYear)) + 3);
    assert firstThursday.Day() == ThursdayOf(DayFromYear(FullYear(isoYear)) + 3);
    ThursdaysApart(date.Day(), firstThursday.Day());
    var apart := date.time - firstThursday.time;
    WeeksApart(date.time, firstThursday.time);
    assert apart % (7 * MS_PER_DAY) == 0;
    var week := 1 + apart / (7 * MS_PER_DAY);
    r := isoYear * 100 + week;
  }

  lemma ThursdaysApart(t: int, f: int)
    requires WeekDay(t) == 4 && WeekDay(f) == 4
    ensures (t - f) % 7 == 0
  {
  }
}
