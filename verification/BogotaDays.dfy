/** Paid-until days: the calendar arithmetic of ECMAScript section 21.4.1, the API's check and storage of
    a day as its last Bogotá millisecond (packages/core/src/platform-schemas.ts), and the admin form that
    mirrors it (apps/admin/lib). */
module BogotaDays {
  import opened Options

  const MS_PER_DAY: int := 86400000
  /** Colombia is five hours behind UTC all year. */
  const OFFSET_MS: int := 18000000

  datatype Date = Date(year: int, month: int, day: int)

  // ---- Years ----

  predicate Leap(y: int) { y % 4 == 0 && (y % 100 != 0 || y % 400 == 0) }

  function DaysInYear(y: int): int { if Leap(y) then 366 else 365 }

  function DayFromYear(y: int): int { 365 * (y - 1970) + (y - 1969) / 4 - (y - 1901) / 100 + (y - 1601) / 400 }

  lemma Quarter(y: int)
    ensures (y + 1 - 1969) / 4 == (y - 1969) / 4 + (if y % 4 == 0 then 1 else 0)
  {
  }

  lemma Century(y: int)
    ensures (y + 1 - 1901) / 100 == (y - 1901) / 100 + (if y % 100 == 0 then 1 else 0)
  {
  }

  lemma FourCenturies(y: int)
    ensures (y + 1 - 1601) / 400 == (y - 1601) / 400 + (if y % 400 == 0 then 1 else 0)
  {
  }

  lemma Multiples(y: int)
    ensures y % 400 == 0 ==> y % 100 == 0
    ensures y % 100 == 0 ==> y % 4 == 0
  {
  }

  lemma YearLength(y: int)
    ensures DayFromYear(y + 1) == DayFromYear(y) + DaysInYear(y)
  {
    Quarter(y);
    Century(y);
    FourCenturies(y);
    Multiples(y);
  }

  lemma {:induction false} YearsGrow(a: int, b: int)
    requires a <= b
    ensures DayFromYear(a) + 365 * (b - a) <= DayFromYear(b)
    decreases b - a
  {
    if a < b {
      YearsGrow(a, b - 1);
      YearLength(b - 1);
    }
  }

  /** The year of a day number: `YearFromTime`, searched upwards from a year that is not later. */
  function YearFrom(n: int, y: int): (r: int)
    requires DayFromYear(y) <= n
    ensures DayFromYear(r) <= n < DayFromYear(r + 1)
    decreases n - DayFromYear(y)
  {
    YearLength(y);
    if n < DayFromYear(y + 1) then y else YearFrom(n, y + 1)
  }

  function YearOf(n: int): (r: int)
    ensures DayFromYear(r) <= n < DayFromYear(r + 1)
  {
    YearsGrow(if n < 0 then 1969 + n / 365 else 1970, 1970);
    assert DayFromYear(1970) == 0;
    YearFrom(n, if n < 0 then 1969 + n / 365 else 1970)
  }

  lemma YearUnique(n: int, y: int)
    requires DayFromYear(y) <= n < DayFromYear(y + 1)
    ensures YearOf(n) == y
  {
    hide DayFromYear;
    var r := YearOf(n);
    if r < y {
      YearsGrow(r + 1, y);
    } else if y < r {
      YearsGrow(y + 1, r);
    }
  }

  // ---- Months and days ----

  /** Days before the month in its year; month 13 is the year's end. */
  function MonthStart(leap: bool, m: int): int
    requires 1 <= m <= 13
  {
    var common := [0, 31, 59, 90, 120, 151, 181, 212, 243, 273, 304, 334, 365][m - 1];
    common + (if leap && m > 2 then 1 else 0)
  }

  function MonthOf(leap: bool, d: int): (m: int)
    requires 0 <= d < (if leap then 366 else 365)
    ensures 1 <= m <= 12 && MonthStart(leap, m) <= d < MonthStart(leap, m + 1)
  {
    var l := if leap then 1 else 0;
    if d < 31 then 1 else if d < 59 + l then 2 else if d < 90 + l then 3 else if d < 120 + l then 4
    else if d < 151 + l then 5 else if d < 181 + l then 6 else if d < 212 + l then 7 else if d < 243 + l then 8
    else if d < 273 + l then 9 else if d < 304 + l then 10 else if d < 334 + l then 11 else 12
  }

  lemma MonthsGrow(leap: bool, a: int, b: int)
    requires 1 <= a <= b <= 13
    ensures MonthStart(leap, a) <= MonthStart(leap, b)
  {
  }

  lemma MonthUnique(leap: bool, d: int, m: int)
    requires 1 <= m <= 12 && 0 <= d < (if leap then 366 else 365) && MonthStart(leap, m) <= d < MonthStart(leap, m + 1)
    ensures MonthOf(leap, d) == m
  {
    var r := MonthOf(leap, d);
    if r < m {
      MonthsGrow(leap, r + 1, m);
    } else if m < r {
      MonthsGrow(leap, m + 1, r);
    }
  }

  predicate Exists(d: Date) {
    1 <= d.month <= 12 && 1 <= d.day <= MonthStart(Leap(d.year), d.month + 1) - MonthStart(Leap(d.year), d.month)
  }

  function DayNumber(d: Date): int
    requires 1 <= d.month <= 12
  {
    DayFromYear(d.year) + MonthStart(Leap(d.year), d.month) + d.day - 1
  }

  function DateOf(n: int): Date {
    var y := YearOf(n);
    YearLength(y);
    var d := n - DayFromYear(y);
    var m := MonthOf(Leap(y), d);
    Date(y, m, d - MonthStart(Leap(y), m) + 1)
  }

  /** Dates and day numbers are inverse to each other, for every integer and every date that exists. */
  lemma DateOfDayNumber(d: Date)
    requires Exists(d)
    ensures DateOf(DayNumber(d)) == d
  {
    var n := DayNumber(d);
    YearLength(d.year);
    MonthsGrow(Leap(d.year), 1, d.month);
    MonthsGrow(Leap(d.year), d.month + 1, 13);
    YearUnique(n, d.year);
    MonthUnique(Leap(d.year), n - DayFromYear(d.year), d.month);
  }

  lemma DayNumberOfDate(n: int)
    ensures Exists(DateOf(n)) && DayNumber(DateOf(n)) == n
  {
    YearLength(YearOf(n));
  }

  // ---- What the API and the form accept ----

  /** `new Date(v + 'T00:00:00Z')` on a YYYY-MM-DD text: a month and a day of 1 to 31, rolled over. */
  function ParsedDay(v: Date): Option<int> {
    if 1 <= v.month <= 12 && 1 <= v.day <= 31 then Some(DayNumber(v)) else None
  }

  /** `isRealCalendarDay`: the parsed day prints back as what was typed. */
  predicate IsRealCalendarDay(v: Date) { ParsedDay(v).Some? && DateOf(ParsedDay(v).value) == v }

  /** The check accepts a day if and only if it exists: everything that rolls over is rejected. */
  lemma RealDaysExist(v: Date)
    ensures IsRealCalendarDay(v) <==> Exists(v)
  {
    hide DateOf, DayNumber;
    if Exists(v) {
      DateOfDayNumber(v);
    }
    if ParsedDay(v).Some? {
      DayNumberOfDate(ParsedDay(v).value);
    }
  }

  /** The last millisecond of the day in Bogotá. */
  function EndOfDay(v: Date): int
    requires 1 <= v.month <= 12
  {
    DayNumber(v) * MS_PER_DAY + (MS_PER_DAY - 1) + OFFSET_MS
  }

  function UtcYear(ms: int): int { YearOf(ms / MS_PER_DAY) }

  /** `paidUntilSchema` on a date-only text: the stored instant, if accepted. */
  function ServerPaidUntil(v: Date): Option<int> {
    if IsRealCalendarDay(v) && 2020 <= UtcYear(EndOfDay(v)) <= 2100 then Some(EndOfDay(v)) else None
  }

  /** `parseSubscriptionForm`'s check of the typed date. */
  predicate FormAccepts(v: Date) { IsRealCalendarDay(v) && 2020 <= v.year <= 2100 }

  /** `toBogotaDateInput` */
  function BogotaDay(ms: int): Date { DateOf((ms - OFFSET_MS) / MS_PER_DAY) }

  lemma EndOfDayDivision(n: int)
    ensures (n * MS_PER_DAY + (MS_PER_DAY - 1)) / MS_PER_DAY == n
    ensures (n * MS_PER_DAY + (MS_PER_DAY - 1) + OFFSET_MS) / MS_PER_DAY == n + 1
  {
  }

  /** Every day the API stores renders back as the same day. */
  lemma StoredDayRendersBack(v: Date)
    ensures ServerPaidUntil(v).Some? ==> BogotaDay(ServerPaidUntil(v).value) == v
  {
    hide DateOf, DayNumber, UtcYear;
    if ServerPaidUntil(v).Some? {
      EndOfDayDivision(DayNumber(v));
    }
  }

  /** The stored instant is the day's last millisecond: it is on the day, and nothing after it is. */
  lemma EndOfDayIsLast(v: Date, ms: int)
    requires Exists(v)
    ensures BogotaDay(EndOfDay(v)) == v
    ensures BogotaDay(ms) == v ==> ms <= EndOfDay(v)
    ensures BogotaDay(EndOfDay(v) + 1) != v
  {
    hide DateOf, DayNumber;
    DateOfDayNumber(v);
    EndOfDayDivision(DayNumber(v));
    DayNumberOfDate((ms - OFFSET_MS) / MS_PER_DAY);
    DayNumberOfDate((EndOfDay(v) + 1 - OFFSET_MS) / MS_PER_DAY);
  }

  /** One day fixes the calendar's origin: the first of January 2020 ends at this Unix time. */
  lemma FirstOf2020()
    ensures EndOfDay(Date(2020, 1, 1)) == 1577941199999
  {
  }

  /** The days that exist: thirty days have April, June, September and November, and February has 28, or 29
      in the years divisible by four that are not centuries, or are every fourth century. */
  lemma DaysThatExist(d: Date)
    ensures Exists(d) <==>
      1 <= d.month <= 12 && 1 <= d.day
      && d.day <= (if d.month in {4, 6, 9, 11} then 30
                   else if d.month != 2 then 31
                   else if d.year % 400 == 0 || (d.year % 4 == 0 && d.year % 100 != 0) then 29
                   else 28)
  {
    hide MonthStart, Leap;
    LeapYears(d.year);
    if 1 <= d.month <= 12 {
      MonthLength(Leap(d.year), d.month);
    }
  }

  lemma LeapYears(y: int)
    ensures Leap(y) <==> y % 400 == 0 || (y % 4 == 0 && y % 100 != 0)
  {
  }

  lemma MonthLength(leap: bool, m: int)
    requires 1 <= m <= 12
    ensures MonthStart(leap, m + 1) - MonthStart(leap, m)
         == if m in {4, 6, 9, 11} then 30 else if m != 2 then 31 else if leap then 29 else 28
  {
  }

  /** The next day starts the next year exactly after the 31st of December. */
  lemma NextDayBounds(v: Date)
    requires Exists(v)
    ensures DayFromYear(v.year) <= DayNumber(v) + 1 <= DayFromYear(v.year + 1)
    ensures DayNumber(v) + 1 == DayFromYear(v.year + 1) <==> v.month == 12 && v.day == 31
  {
    hide DayFromYear;
    YearLength(v.year);
    MonthsGrow(Leap(v.year), 1, v.month);
    MonthsGrow(Leap(v.year), v.month + 1, 13);
    if v.month < 12 {
      MonthsGrow(Leap(v.year), v.month + 1, 12);
    }
  }

  lemma YearOfNextDay(v: Date)
    requires Exists(v)
    ensures UtcYear(EndOfDay(v)) == if v.month == 12 && v.day == 31 then v.year + 1 else v.year
  {
    hide DayFromYear, YearOf, MonthStart, DayNumber;
    EndOfDayDivision(DayNumber(v));
    NextDayBounds(v);
    if v.month == 12 && v.day == 31 {
      YearStrict(v.year + 1);
      YearUnique(DayNumber(v) + 1, v.year + 1);
    } else {
      YearUnique(DayNumber(v) + 1, v.year);
    }
  }

  lemma YearStrict(y: int)
    ensures DayFromYear(y) < DayFromYear(y + 1)
  {
    hide DayFromYear;
    YearLength(y);
  }

  /** The form and the API accept the same typed days, except the last day of 2100, which the form lets
      through and the API refuses, and the last day of 2019, the other way round: the stored instant
      falls in the next UTC year. */
  lemma FormMirrorsServer(v: Date)
    ensures (FormAccepts(v) <==> ServerPaidUntil(v).Some?) <==> v != Date(2100, 12, 31) && v != Date(2019, 12, 31)
  {
    hide IsRealCalendarDay, UtcYear, EndOfDay;
    RealDaysExist(v);
    if Exists(v) {
      YearOfNextDay(v);
    }
  }
}
