/**
 Proleptic Gregorian dates as ECMA-262 numbers them (section 21.4.1): day numbers count
 from 1 January 1970, months from 0. `MakeDay` is proved to do what stepping through the
 calendar a day at a time does.
 */
module Calendar {

  predicate IsLeap(y: int) {
    y % 4 == 0 && (y % 100 != 0 || y % 400 == 0)
  }

  function DaysInYear(y: int): int {
    if IsLeap(y) then 366 else 365
  }

  function DaysInMonth(y: int, m: nat): int
    requires m < 12
  {
    if m == 1 then (if IsLeap(y) then 29 else 28)
    else if m == 3 || m == 5 || m == 8 || m == 10 then 30
    else 31
  }

  /** The closed form of the standard. */
  function DayFromYear(y: int): int {
    365 * (y - 1970) + (y - 1969) / 4 - (y - 1901) / 100 + (y - 1601) / 400
  }

  /** Days of the year before month `m`. */
  function MonthOffset(y: int, m: nat): (n: nat)
    requires m <= 12
  {
    if m == 0 then 0 else MonthOffset(y, m - 1) + DaysInMonth(y, m - 1)
  }

  datatype Date = Date(year: int, month: nat, day: int)

  predicate IsDate(c: Date) {
    c.month < 12 && 1 <= c.day <= DaysInMonth(c.year, c.month)
  }

  function DayNumber(c: Date): int
    requires c.month < 12
  {
    DayFromYear(c.year) + MonthOffset(c.year, c.month) + c.day - 1
  }

  /** `MakeDay`: months and days out of range carry over. */
  function MakeDay(year: int, month: int, day: int): int {
    DayNumber(Date(year + month / 12, month % 12, 1)) + day - 1
  }

  // ---------- from day numbers to dates ----------

  lemma FourthYears(y: int)
    ensures (y - 1968) / 4 - (y - 1969) / 4 == if y % 4 == 0 then 1 else 0
  {
  }

  lemma HundredthYears(y: int)
    ensures (y - 1900) / 100 - (y - 1901) / 100 == if y % 100 == 0 then 1 else 0
  {
  }

  lemma FourHundredthYears(y: int)
    ensures (y - 1600) / 400 - (y - 1601) / 400 == if y % 400 == 0 then 1 else 0
  {
  }

  lemma YearLength(y: int)
    ensures DayFromYear(y + 1) == DayFromYear(y) + DaysInYear(y)
  {
    FourthYears(y);
    HundredthYears(y);
    FourHundredthYears(y);
    CenturiesNest(y);
  }

  lemma CenturiesNest(y: int)
    ensures y % 400 == 0 ==> y % 100 == 0
    ensures y % 100 == 0 ==> y % 4 == 0
  {
    assert y == 400 * (y / 400) + y % 400 && y == 100 * (y / 100) + y % 100;
    if y % 400 == 0 {
      assert y == 100 * (4 * (y / 400));
    }
    if y % 100 == 0 {
      assert y == 4 * (25 * (y / 100));
    }
  }

  lemma YearHasTwelveMonths(y: int)
    ensures MonthOffset(y, 12) == DaysInYear(y)
  {
    var leap := DaysInYear(y) - 365;
    assert MonthOffset(y, 1) == 31;
    assert MonthOffset(y, 2) == 59 + leap;
    assert MonthOffset(y, 3) == 90 + leap;
    assert MonthOffset(y, 4) == 120 + leap;
    assert MonthOffset(y, 5) == 151 + leap;
    assert MonthOffset(y, 6) == 181 + leap;
    assert MonthOffset(y, 7) == 212 + leap;
    assert MonthOffset(y, 8) == 243 + leap;
    assert MonthOffset(y, 9) == 273 + leap;
    assert MonthOffset(y, 10) == 304 + leap;
    assert MonthOffset(y, 11) == 334 + leap;
  }

  function YearUp(y: int, d: int): (r: int)
    requires DayFromYear(y) <= d
    ensures DayFromYear(r) <= d < DayFromYear(r + 1)
    decreases d - DayFromYear(y)
  {
    YearLength(y);
    if d < DayFromYear(y + 1) then y else YearUp(y + 1, d)
  }

  function YearDown(y: int, d: int): (r: int)
    requires d < DayFromYear(y + 1)
    ensures DayFromYear(r) <= d < DayFromYear(r + 1)
    decreases DayFromYear(y + 1) - d
  {
    YearLength(y);
    if DayFromYear(y) <= d then y else YearDown(y - 1, d)
  }

  /** `YearFromTime`, by search. */
  function YearOf(d: int): (r: int)
    ensures DayFromYear(r) <= d < DayFromYear(r + 1)
  {
    if d >= 0 then YearUp(1970, d) else YearDown(1969, d)
  }

  function MonthFrom(y: int, m: nat, left: int): (r: nat)
    requires m < 12 && MonthOffset(y, m) <= left < MonthOffset(y, 12)
    ensures r < 12 && MonthOffset(y, r) <= left < MonthOffset(y, r + 1)
    decreases 12 - m
  {
    if left < MonthOffset(y, m + 1) then m else MonthFrom(y, m + 1, left)
  }

  function DateOf(d: int): (c: Date)
    ensures IsDate(c) && DayNumber(c) == d
  {
    var y := YearOf(d);
    YearLength(y);
    YearHasTwelveMonths(y);
    var left := d - DayFromYear(y);
    var m := MonthFrom(y, 0, left);
    Date(y, m, left - MonthOffset(y, m) + 1)
  }

  lemma {:induction false} LaterYear(y: int, z: int)
    requires y <= z
    ensures DayFromYear(y) <= DayFromYear(z)
    decreases z - y
  {
    if y < z {
      YearLength(y);
      LaterYear(y + 1, z);
    }
  }

  lemma {:induction false} LaterMonth(y: int, m: nat, n: nat)
    requires m <= n <= 12
    ensures MonthOffset(y, m) <= MonthOffset(y, n)
    decreases n - m
  {
    if m < n {
      LaterMonth(y, m, n - 1);
    }
  }

  lemma WithinYear(c: Date)
    requires IsDate(c)
    ensures DayFromYear(c.year) <= DayNumber(c) < DayFromYear(c.year + 1)
  {
    YearLength(c.year);
    YearHasTwelveMonths(c.year);
    LaterMonth(c.year, c.month + 1, 12);
  }

  lemma SameYear(c: Date, e: Date)
    requires IsDate(c) && IsDate(e) && DayNumber(c) == DayNumber(e)
    ensures c.year == e.year
  {
    WithinYear(c);
    WithinYear(e);
    if c.year < e.year {
      LaterYear(c.year + 1, e.year);
    } else if e.year < c.year {
      LaterYear(e.year + 1, c.year);
    }
  }

  /** A day has one date. */
  lemma DatesAreUnique(c: Date, e: Date)
    requires IsDate(c) && IsDate(e) && DayNumber(c) == DayNumber(e)
    ensures c == e
  {
    SameYear(c, e);
    if c.month < e.month {
      LaterMonth(c.year, c.month + 1, e.month);
    } else if e.month < c.month {
      LaterMonth(c.year, e.month + 1, c.month);
    }
  }

  // ---------- stepping through the calendar ----------

  function Yesterday(c: Date): (r: Date)
    requires IsDate(c)
    ensures IsDate(r)
  {
    if c.day > 1 then c.(day := c.day - 1)
    else if c.month > 0 then Date(c.year, c.month - 1, DaysInMonth(c.year, c.month - 1))
    else Date(c.year - 1, 11, 31)
  }

  function Back(c: Date, k: nat): (r: Date)
    requires IsDate(c)
    ensures IsDate(r)
  {
    if k == 0 then c else Yesterday(Back(c, k - 1))
  }

  lemma YesterdayIsOneLess(c: Date)
    requires IsDate(c)
    ensures DayNumber(Yesterday(c)) == DayNumber(c) - 1
  {
    if c.day == 1 && c.month == 0 {
      YearLength(c.year - 1);
      YearHasTwelveMonths(c.year - 1);
    }
  }

  lemma {:induction false} BackCounts(c: Date, k: nat)
    requires IsDate(c)
    ensures DayNumber(Back(c, k)) == DayNumber(c) - k
  {
    if k > 0 {
      BackCounts(c, k - 1);
      YesterdayIsOneLess(Back(c, k - 1));
    }
  }

  lemma DateBack(d: int, k: nat, e: int)
    requires e == d - k
    ensures DateOf(e) == Back(DateOf(d), k)
  {
    var c := DateOf(d);
    BackCounts(c, k);
    DatesAreUnique(DateOf(e), Back(c, k));
  }

  lemma MakeDayAdds(c: Date, n: int)
    requires IsDate(c)
    ensures MakeDay(c.year, c.month, c.day + n) == DayNumber(c) + n
  {
    assert c.month / 12 == 0 && c.month % 12 == c.month;
    var first := Date(c.year, c.month, 1);
    assert DayNumber(c) == DayNumber(first) + c.day - 1;
  }

  /** Subtracting from the day of the month walks back through the calendar. */
  lemma MakeDayWalksBack(c: Date, k: nat)
    requires IsDate(c)
    ensures DateOf(MakeDay(c.year, c.month, c.day - k)) == Back(c, k)
  {
    var d := MakeDay(c.year, c.month, c.day - k);
    MakeDayAdds(c, 0 - k);
    DatesAreUnique(DateOf(DayNumber(c)), c);
    DateBack(DayNumber(c), k, d);
  }
}
