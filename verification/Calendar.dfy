/**
 * The proleptic Gregorian calendar, with days as ordinals: day 1 is Monday, 1 January
 * of year 1, as in `date.toordinal`.
 */
module Calendar {

  predicate IsLeap(y: int) {
    y % 4 == 0 && (y % 100 != 0 || y % 400 == 0)
  }

  function YearLength(y: int): int {
    if IsLeap(y) then 366 else 365
  }

  /** The ordinal of 1 January. */
  function YearStart(y: nat): int
    requires y >= 1
  {
    if y == 1 then 1 else YearStart(y - 1) + YearLength(y - 1)
  }

  lemma {:induction false} YearStartIncreases(y: nat, z: nat)
    requires 1 <= y < z
    ensures YearStart(y) + 365 <= YearStart(z)
    decreases z
  {
    if z > y + 1 {
      YearStartIncreases(y, z - 1);
    }
  }

  function YearFrom(y: nat, n: int): (r: nat)
    requires y >= 1 && YearStart(y) <= n
    ensures r >= y && YearStart(r) <= n < YearStart(r + 1)
    decreases n - YearStart(y)
  {
    if n < YearStart(y + 1) then y else YearFrom(y + 1, n)
  }

  /** The year a day is in. */
  function YearOf(n: int): (y: nat)
    requires n >= 1
    ensures y >= 1 && YearStart(y) <= n < YearStart(y + 1)
  {
    YearFrom(1, n)
  }

  lemma YearIsUnique(n: int, y: nat)
    requires n >= 1 && y >= 1 && YearStart(y) <= n < YearStart(y + 1)
    ensures YearOf(n) == y
  {
    var z := YearOf(n);
    if z < y {
      if z + 1 < y {
        YearStartIncreases(z + 1, y);
      }
    } else if y < z {
      if y + 1 < z {
        YearStartIncreases(y + 1, z);
      }
    }
  }

  lemma YearOfIncreases(m: int, n: int)
    requires 1 <= m <= n
    ensures YearOf(m) <= YearOf(n)
  {
    var y, z := YearOf(m), YearOf(n);
    if z < y && z + 1 < y {
      YearStartIncreases(z + 1, y);
    }
  }

  function MonthLength(y: nat, m: nat): int
    requires 1 <= m <= 12
  {
    if m == 2 then (if IsLeap(y) then 29 else 28)
    else if m == 4 || m == 6 || m == 9 || m == 11 then 30
    else 31
  }

  /** The ordinal of the first day of a month; month 13 is the next January. */
  function MonthStart(y: nat, m: nat): int
    requires y >= 1 && 1 <= m <= 13
  {
    if m == 1 then YearStart(y) else MonthStart(y, m - 1) + MonthLength(y, m - 1)
  }

  lemma {:induction false} MonthStartIncreases(y: nat, m: nat, k: nat)
    requires y >= 1 && 1 <= m < k <= 13
    ensures MonthStart(y, m) + 28 <= MonthStart(y, k)
    decreases k
  {
    if k > m + 1 {
      MonthStartIncreases(y, m, k - 1);
    }
  }

  /** Twelve months make the year. */
  lemma MonthsFillYear(y: nat)
    requires y >= 1
    ensures MonthStart(y, 13) == YearStart(y + 1)
  {
    assert MonthStart(y, 2) == YearStart(y) + 31;
    assert MonthStart(y, 3) == YearStart(y) + 31 + MonthLength(y, 2);
    assert MonthStart(y, 5) == MonthStart(y, 3) + 61;
    assert MonthStart(y, 7) == MonthStart(y, 5) + 61;
    assert MonthStart(y, 9) == MonthStart(y, 7) + 62;
    assert MonthStart(y, 11) == MonthStart(y, 9) + 61;
    assert MonthStart(y, 13) == MonthStart(y, 11) + 61;
  }

  function MonthFrom(y: nat, m: nat, n: int): (r: nat)
    requires y >= 1 && 1 <= m <= 12 && MonthStart(y, m) <= n < MonthStart(y, 13)
    ensures m <= r <= 12 && MonthStart(y, r) <= n < MonthStart(y, r + 1)
    decreases 12 - m
  {
    if n < MonthStart(y, m + 1) then m else MonthFrom(y, m + 1, n)
  }

  /** The month a day is in. */
  function MonthOf(n: int): (m: nat)
    requires n >= 1
    ensures 1 <= m <= 12 && MonthStart(YearOf(n), m) <= n < MonthStart(YearOf(n), m + 1)
  {
    MonthsFillYear(YearOf(n));
    MonthFrom(YearOf(n), 1, n)
  }

  lemma MonthIsUnique(n: int, y: nat, m: nat)
    requires n >= 1 && y >= 1 && 1 <= m <= 12 && MonthStart(y, m) <= n < MonthStart(y, m + 1)
    ensures YearOf(n) == y && MonthOf(n) == m
  {
    MonthsFillYear(y);
    if m > 1 {
      MonthStartIncreases(y, 1, m);
    }
    if m + 1 < 13 {
      MonthStartIncreases(y, m + 1, 13);
    }
    YearIsUnique(n, y);
    var k := MonthOf(n);
    if k < m && k + 1 < m {
      MonthStartIncreases(y, k + 1, m);
    }
    if m < k && m + 1 < k {
      MonthStartIncreases(y, m + 1, k);
    }
  }

  /** The day of the month, from 1. */
  function DayOfMonth(n: int): (d: nat)
    requires n >= 1
    ensures 1 <= d <= 31
  {
    n - MonthStart(YearOf(n), MonthOf(n)) + 1
  }

  /** `day.weekday()`: Monday is 0. */
  function Weekday(n: int): (w: nat)
    ensures w < 7
  {
    (n + 6) % 7
  }

  function MondayOf(n: int): (m: int)
    ensures m <= n < m + 7
  {
    n - Weekday(n)
  }

  lemma MondayIsUnique(m: int, n: int)
    requires MondayOf(n) <= m < MondayOf(n) + 7
    ensures MondayOf(m) == MondayOf(n)
  {
    assert MondayOf(n) % 7 == 1;
    assert MondayOf(m) % 7 == 1;
  }

  /** A week belongs to the year its Thursday is in. */
  function IsoYear(n: int): (y: nat)
    requires n >= 1
    ensures y >= 1
  {
    YearOf(MondayOf(n) + 3)
  }

  function IsoWeek(n: int): (w: nat)
    requires n >= 1
    ensures 1 <= w <= 53
  {
    (MondayOf(n) + 3 - YearStart(IsoYear(n))) / 7 + 1
  }

  /** The Monday of week 1 of a year: the week that holds 4 January. */
  function FirstMonday(y: nat): int
    requires y >= 1
  {
    MondayOf(YearStart(y) + 3)
  }

  /** The pair of ISO year and week counts Mondays: week `w` begins `w - 1` weeks after
      the Monday of the week with 4 January. */
  lemma IsoWeekCountsMondays(n: int)
    requires n >= 1
    ensures MondayOf(n) == FirstMonday(IsoYear(n)) + 7 * (IsoWeek(n) - 1)
  {
    var start := YearStart(IsoYear(n));
    var thursday, first := MondayOf(n) + 3, FirstMonday(IsoYear(n)) + 3;
    assert start <= first <= start + 6;
    assert (thursday - first) % 7 == 0;
    var weeks := (thursday - first) / 7;
    assert (thursday - start) / 7 == weeks;
  }

  /** ISO year and week identify the Monday. */
  lemma IsoWeekIdentifiesMonday(a: int, b: int)
    requires a >= 1 && b >= 1
    ensures IsoYear(a) == IsoYear(b) && IsoWeek(a) == IsoWeek(b) <==> MondayOf(a) == MondayOf(b)
  {
    IsoWeekCountsMondays(a);
    IsoWeekCountsMondays(b);
  }

  /** They grow with the Monday. */
  lemma IsoWeekOrdersMondays(a: int, b: int)
    requires 1 <= a && 1 <= b && MondayOf(a) < MondayOf(b)
    ensures IsoYear(a) < IsoYear(b) || (IsoYear(a) == IsoYear(b) && IsoWeek(a) < IsoWeek(b))
  {
    YearOfIncreases(MondayOf(a) + 3, MondayOf(b) + 3);
    IsoWeekCountsMondays(a);
    IsoWeekCountsMondays(b);
  }
}
