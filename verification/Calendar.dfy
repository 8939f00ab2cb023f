/**
 * Civil dates as ECMA-262 computes them from time values (sections 21.4.1.3 to 21.4.1.12), and the
 * "same day next month" step that subscription periods use. Time zones are not part of this model.
 */
module Calendar {
  import opened Arithmetic

  const MS_PER_DAY: nat := 86_400_000

  function DayFromYear(y: int): int {
    365 * (y - 1970) + (y - 1969) / 4 - (y - 1901) / 100 + (y - 1601) / 400
  }

  predicate IsLeap(y: int) {
    y % 4 == 0 && (y % 100 != 0 || y % 400 == 0)
  }

  /** Days of the year before the first of month m; m = 12 gives the length of the year. */
  function DaysBefore(y: int, m: nat): nat
    requires m <= 12
  {
    var leap := if IsLeap(y) then 1 else 0;
    match m
    case 0 => 0
    case 1 => 31
    case 2 => 59 + leap
    case 3 => 90 + leap
    case 4 => 120 + leap
    case 5 => 151 + leap
    case 6 => 181 + leap
    case 7 => 212 + leap
    case 8 => 243 + leap
    case 9 => 273 + leap
    case 10 => 304 + leap
    case 11 => 334 + leap
    case 12 => 365 + leap
  }

  function DaysInMonth(y: int, m: nat): nat
    requires m < 12
    ensures 28 <= DaysInMonth(y, m) <= 31
  {
    DaysBefore(y, m + 1) - DaysBefore(y, m)
  }

  lemma YearLength(y: int)
    ensures DayFromYear(y + 1) == DayFromYear(y) + DaysBefore(y, 12)
  {
    Carry(y - 1969, 1, 4);
    Carry(y - 1901, 1, 100);
    Carry(y - 1601, 1, 400);
    Residues(y);
  }

  lemma Residues(y: int)
    ensures (y - 1969) % 4 == 3 <==> y % 4 == 0
    ensures (y - 1901) % 100 == 99 <==> y % 100 == 0
    ensures (y - 1601) % 400 == 399 <==> y % 400 == 0
    ensures y % 100 == 0 ==> y % 4 == 0
    ensures y % 400 == 0 ==> y % 100 == 0
  {
    assert y - 1969 == (y + 3) - 4 * 493;
    assert y - 1901 == (y + 99) - 100 * 20;
    assert y - 1601 == (y + 399) - 400 * 5;
  }

  /** How far a year is from containing a day. */
  function Off(day: int, y: int): nat {
    if day < DayFromYear(y) then DayFromYear(y) - day
    else if day >= DayFromYear(y + 1) then day - DayFromYear(y + 1) + 1
    else 0
  }

  lemma Nearer(day: int, y: int)
    ensures day < DayFromYear(y) ==> Off(day, y - 1) < Off(day, y)
    ensures day >= DayFromYear(y + 1) ==> Off(day, y + 1) < Off(day, y)
  {
    YearGrows(y - 1);
    YearGrows(y);
    YearGrows(y + 1);
    hide DayFromYear;
  }

  lemma YearGrows(y: int)
    ensures DayFromYear(y) < DayFromYear(y + 1)
  {
    hide DayFromYear;
    YearLength(y);
  }

  function YearFrom(day: int, y: int): (r: int)
    ensures DayFromYear(r) <= day < DayFromYear(r + 1)
    decreases Off(day, y)
  {
    Nearer(day, y);
    if day < DayFromYear(y) then YearFrom(day, y - 1)
    else if day >= DayFromYear(y + 1) then YearFrom(day, y + 1)
    else y
  }

  function Day(t: int): int {
    t / MS_PER_DAY
  }

  function Year(t: int): int {
    YearFrom(Day(t), 1970)
  }

  function DayWithinYear(t: int): (d: nat)
    ensures d < DaysBefore(Year(t), 12)
  {
    YearLength(Year(t));
    Day(t) - DayFromYear(Year(t))
  }

  /** The month, 0 to 11, that contains a day of the year. */
  function MonthWithin(y: int, d: nat, m: nat): (r: nat)
    requires m < 12 && DaysBefore(y, m) <= d < DaysBefore(y, 12)
    ensures r < 12 && DaysBefore(y, r) <= d < DaysBefore(y, r + 1)
    decreases 12 - m
  {
    if d < DaysBefore(y, m + 1) then m else MonthWithin(y, d, m + 1)
  }

  function Month(t: int): (m: nat)
    ensures m < 12
  {
    MonthWithin(Year(t), DayWithinYear(t), 0)
  }

  /** The day of the month, counted from 1. */
  function Date(t: int): (d: nat)
    ensures 1 <= d <= DaysInMonth(Year(t), Month(t))
  {
    DayWithinYear(t) - DaysBefore(Year(t), Month(t)) + 1
  }

  /** Months beyond the year and days beyond the month roll over. */
  function MakeDay(y: int, m: int, d: int): int {
    var ym := y + m / 12;
    DayFromYear(ym) + DaysBefore(ym, m % 12) + d - 1
  }

  function SetMonth(t: int, m: int): int {
    MakeDay(Year(t), m, Date(t)) * MS_PER_DAY + t % MS_PER_DAY
  }

  function SetDate(t: int, d: int): int {
    MakeDay(Year(t), Month(t), d) * MS_PER_DAY + t % MS_PER_DAY
  }

  /** `end.setMonth(end.getMonth() + 1)` */
  function NextMonth(t: int): int {
    SetMonth(t, Month(t) + 1)
  }

  /** `end.setDate(end.getDate() + days)` */
  function AddDays(t: int, days: int): int {
    SetDate(t, Date(t) + days)
  }

  lemma Decompose(t: int)
    ensures Day(t) == DayFromYear(Year(t)) + DaysBefore(Year(t), Month(t)) + Date(t) - 1
    ensures t == Day(t) * MS_PER_DAY + t % MS_PER_DAY
  {
  }

  /** The first of the next month comes one month's length later, across the end of a year too. */
  lemma NextFirst(y: int, m: nat, d: int)
    requires m < 12
    ensures MakeDay(y, m + 1, d) == MakeDay(y, m, d) + DaysInMonth(y, m)
  {
    hide DayFromYear;
    YearLength(y);
    if m == 11 {
      assert (m + 1) / 12 == 1 && (m + 1) % 12 == 0;
    } else {
      assert (m + 1) / 12 == 0 && (m + 1) % 12 == m + 1;
    }
  }

  /**
   * A period of "one month" is exactly as many days as the month it starts in, whatever day it starts
   * on: days past the end of a short month spill into the month after.
   */
  lemma NextMonthLength(t: int)
    ensures NextMonth(t) == t + DaysInMonth(Year(t), Month(t)) * MS_PER_DAY
    ensures t + 28 * MS_PER_DAY <= NextMonth(t) <= t + 31 * MS_PER_DAY
  {
    hide DayFromYear, DaysBefore, Year, Month, Date, YearFrom;
    Decompose(t);
    NextFirst(Year(t), Month(t), Date(t));
    SameMonth(t);
  }

  lemma SameMonth(t: int)
    ensures MakeDay(Year(t), Month(t), Date(t)) == Day(t)
  {
    assert Month(t) / 12 == 0 && Month(t) % 12 == Month(t);
  }

  /** Extending by days adds whole days, forwards or backwards. */
  lemma AddDaysLength(t: int, days: int)
    ensures AddDays(t, days) == t + days * MS_PER_DAY
  {
    hide DayFromYear, DaysBefore, Year, Month, Date, YearFrom;
    Decompose(t);
    SameMonth(t);
  }

  // ---- where the next period ends ----

  lemma {:induction false} YearsOrdered(a: int, b: int)
    requires a <= b
    ensures DayFromYear(a) <= DayFromYear(b)
    decreases b - a
  {
    if a < b {
      YearLength(a);
      YearsOrdered(a + 1, b);
    }
  }

  lemma YearUnique(day: int, y: int)
    requires DayFromYear(y) <= day < DayFromYear(y + 1)
    ensures YearFrom(day, 1970) == y
  {
    var r := YearFrom(day, 1970);
    hide DayFromYear;
    if r < y {
      YearsOrdered(r + 1, y);
    } else if y < r {
      YearsOrdered(y + 1, r);
    }
  }

  lemma {:induction false} MonthsOrdered(y: int, a: nat, b: nat)
    requires a <= b <= 12
    ensures DaysBefore(y, a) <= DaysBefore(y, b)
    decreases b - a
  {
    if a < b {
      MonthsOrdered(y, a + 1, b);
    }
  }

  lemma MonthUnique(y: int, m: nat, d: nat)
    requires m < 12 && DaysBefore(y, m) <= d < DaysBefore(y, m + 1) && d < DaysBefore(y, 12)
    ensures MonthWithin(y, d, 0) == m
  {
    var r := MonthWithin(y, d, 0);
    hide DaysBefore;
    if r < m {
      MonthsOrdered(y, r + 1, m);
    } else if m < r {
      MonthsOrdered(y, m + 1, r);
    }
  }

  /** Computing a date from its parts and taking it apart again gives the parts back. */
  lemma Recompose(y: int, m: nat, d: nat, t: int)
    requires m < 12 && 1 <= d <= DaysInMonth(y, m) && Day(t) == MakeDay(y, m, d)
    ensures Year(t) == y && Month(t) == m && Date(t) == d
  {
    hide DayFromYear, DaysBefore, YearFrom, MonthWithin, Day;
    assert m / 12 == 0 && m % 12 == m;
    MonthsOrdered(y, m + 1, 12);
    YearLength(y);
    YearUnique(Day(t), y);
    MonthUnique(y, m, DaysBefore(y, m) + d - 1);
  }

  /** The day after which a date is missing from the following month. */
  function NextMonthDays(t: int): nat {
    if Month(t) == 11 then DaysInMonth(Year(t) + 1, 0) else DaysInMonth(Year(t), Month(t) + 1)
  }

  /** The period ends on the same day of the next month exactly when the next month has that day. */
  lemma SameDayIffItExists(t: int)
    ensures Date(NextMonth(t)) == Date(t) <==> Date(t) <= NextMonthDays(t)
    ensures Date(NextMonth(t)) != Date(t) ==> Date(NextMonth(t)) == Date(t) - NextMonthDays(t) <= 3
  {
    hide DayFromYear, DaysBefore, YearFrom, MonthWithin, Day, Year, Month, Date, DaysInMonth;
    var y, m, d := Year(t), Month(t), Date(t);
    var y1, m1 := if m == 11 then y + 1 else y, if m == 11 then 0 else m + 1;
    NextDay(t, y1, m1);
    if d <= NextMonthDays(t) {
      Recompose(y1, m1, d, NextMonth(t));
    } else {
      Spill(y1, m1, d, NextMonth(t));
    }
  }

  /** The day that the next period ends on, as the same day number counted from the next month's first. */
  lemma NextDay(t: int, y1: int, m1: nat)
    requires y1 == if Month(t) == 11 then Year(t) + 1 else Year(t)
    requires m1 == if Month(t) == 11 then 0 else Month(t) + 1
    ensures Day(NextMonth(t)) == MakeDay(y1, m1, Date(t))
  {
    hide DayFromYear, DaysBefore, YearFrom, MonthWithin, Day, Year, Month, Date, DaysInMonth;
    var m := Month(t);
    assert (m + 1) % 12 == m1 && Year(t) + (m + 1) / 12 == y1 && m1 % 12 == m1 && m1 / 12 == 0;
    DayOfSum(MakeDay(Year(t), m + 1, Date(t)), t % MS_PER_DAY);
  }

  lemma DayOfSum(day: int, ms: nat)
    requires ms < MS_PER_DAY
    ensures Day(day * MS_PER_DAY + ms) == day
  {
    DivUnique(day * MS_PER_DAY + ms, MS_PER_DAY, day, ms);
  }

  lemma Spill(y: int, m: nat, d: nat, t: int)
    requires m < 12 && DaysInMonth(y, m) < d <= 31 && Day(t) == MakeDay(y, m, d)
    ensures Date(t) == d - DaysInMonth(y, m)
  {
    hide DayFromYear, DaysBefore, YearFrom, MonthWithin, Day, Year, Month, Date, DaysInMonth;
    var y1, m1 := if m == 11 then y + 1 else y, if m == 11 then 0 else m + 1;
    var e := d - DaysInMonth(y, m);
    assert (m + 1) % 12 == m1 && (m + 1) / 12 == y1 - y && m1 / 12 == 0 && m1 % 12 == m1;
    assert m / 12 == 0 && m % 12 == m;
    NextFirst(y, m, e);
    Recompose(y1, m1, e, t);
  }
}
