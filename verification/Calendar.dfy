/** The proleptic Gregorian calendar, counted in days from 1970-01-01. */
module Calendar {

  datatype Date = Date(year: int, month: int, day: int) {
    predicate Valid() {
      1 <= month <= 12 && 1 <= day <= DaysIn(year, month)
    }
  }

  predicate IsLeap(year: int) {
    year % 4 == 0 && (year % 100 != 0 || year % 400 == 0)
  }

  function DaysIn(year: int, month: int): (n: int)
    ensures 28 <= n <= 31
  {
    if month == 2 then if IsLeap(year) then 29 else 28
    else if month in {4, 6, 9, 11} then 30
    else 31
  }

  function Next(d: Date): (n: Date)
    requires d.Valid()
    ensures n.Valid()
  {
    if d.day < DaysIn(d.year, d.month) then Date(d.year, d.month, d.day + 1)
    else if d.month < 12 then Date(d.year, d.month + 1, 1)
    else Date(d.year + 1, 1, 1)
  }

  function Previous(d: Date): (p: Date)
    requires d.Valid()
    ensures p.Valid() && Next(p) == d
  {
    if d.day > 1 then Date(d.year, d.month, d.day - 1)
    else if d.month > 1 then Date(d.year, d.month - 1, DaysIn(d.year, d.month - 1))
    else Date(d.year - 1, 12, 31)
  }

  function DateOf(n: int): (d: Date)
    ensures d.Valid()
    decreases if n < 0 then -n else n
  {
    if n == 0 then Date(1970, 1, 1) else if n > 0 then Next(DateOf(n - 1)) else Previous(DateOf(n + 1))
  }

  /** 0 for Monday to 6 for Sunday; 1970-01-01 was a Thursday. */
  function Weekday(n: int): (w: int)
    ensures 0 <= w < 7
  {
    (n + 3) % 7
  }

  lemma {:induction false} WithinFourWeeks(n: int, k: nat)
    requires k < 28
    ensures
      var d, e := DateOf(n), DateOf(n + k);
      if d.day + k <= DaysIn(d.year, d.month) then e == Date(d.year, d.month, d.day + k)
      else e.day == d.day + k - DaysIn(d.year, d.month)
  {
    if k > 0 {
      WithinFourWeeks(n, k - 1);
      assert DateOf(n + k) == Next(DateOf(n + k - 1));
    }
  }

  /** The same day of the month comes back no sooner than after 28 days. */
  lemma SameDayOfMonth(a: int, b: int)
    requires a < b && DateOf(a).day == DateOf(b).day
    ensures b - a >= 28
  {
    if b - a < 28 {
      WithinFourWeeks(a, b - a);
    }
  }

  lemma SameWeekday(a: int, b: int)
    requires a < b && Weekday(a) == Weekday(b)
    ensures (b - a) % 7 == 0 && b - a >= 7
  {}

  // ----- The closed forms -----

  /** January and February count as months 13 and 14 of the year before. */
  function MarchYear(d: Date): int {
    if d.month <= 2 then d.year - 1 else d.year
  }

  function MarchMonth(d: Date): int {
    if d.month <= 2 then d.month + 9 else d.month - 3
  }

  /** The Gregorian rule: every fourth year, but not every hundredth, but every four hundredth. */
  function LeapDays(y: int): int {
    y / 4 - y / 100 + y / 400
  }

  /** The days before a month, counted from March: 153 for each five months. */
  function MonthStart(m: int): int {
    (153 * m + 2) / 5
  }

  /** The days from 1970-01-01 to a civil date. */
  function DayCount(d: Date): int {
    365 * MarchYear(d) + LeapDays(MarchYear(d)) + MonthStart(MarchMonth(d)) + d.day - 1 - 719468
  }

  /** The weekday of a civil date, 0 for Monday to 6 for Sunday. */
  function CivilWeekday(d: Date): int
    requires d.Valid()
  {
    var y := if d.month <= 2 then d.year - 1 else d.year;
    (y + y / 4 - y / 100 + y / 400 + [0, 3, 2, 5, 0, 3, 5, 1, 4, 6, 2, 4][d.month - 1] + d.day + 6) % 7
  }

  lemma FourthStep(y: int)
    ensures (y + 1) / 4 - y / 4 == if (y + 1) % 4 == 0 then 1 else 0
  {}

  lemma HundredthStep(y: int)
    ensures (y + 1) / 100 - y / 100 == if (y + 1) % 100 == 0 then 1 else 0
  {}

  lemma FourHundredthStep(y: int)
    ensures (y + 1) / 400 - y / 400 == if (y + 1) % 400 == 0 then 1 else 0
  {}

  lemma HundredTimes(k: int)
    ensures 100 * k % 100 == 0 && 4 * k % 4 == 0
  {}

  lemma Multiples(y: int)
    ensures y % 400 == 0 ==> y % 100 == 0
    ensures y % 100 == 0 ==> y % 4 == 0
  {
    if y % 400 == 0 {
      var q := y / 400;
      assert y == 100 * (4 * q);
      HundredTimes(4 * q);
    }
    if y % 100 == 0 {
      var q := y / 100;
      assert y == 4 * (25 * q);
      HundredTimes(25 * q);
    }
  }

  lemma YearStep(y: int)
    ensures LeapDays(y + 1) - LeapDays(y) == if IsLeap(y + 1) then 1 else 0
  {
    FourthStep(y);
    HundredthStep(y);
    FourHundredthStep(y);
    Multiples(y + 1);
  }

  lemma MonthStarts(m: int)
    requires 0 <= m < 12
    ensures MonthStart(m) == [0, 31, 61, 92, 122, 153, 184, 214, 245, 275, 306, 337][m]
  {}

  /** The days of a month in the count. */
  lemma MonthLength(d: Date)
    requires d.Valid()
    ensures MarchMonth(d) < 11 ==> MonthStart(MarchMonth(d) + 1) == MonthStart(MarchMonth(d)) + DaysIn(d.year, d.month)
    ensures MarchMonth(d) == 11 ==> d.month == 2 && MonthStart(MarchMonth(d)) + 28 == 365
  {
    var m := MarchMonth(d);
    MonthStarts(m);
    if m < 11 {
      MonthStarts(m + 1);
    }
  }

  lemma CountNext(d: Date)
    requires d.Valid()
    ensures DayCount(Next(d)) == DayCount(d) + 1
  {
    hide IsLeap, LeapDays, MonthStart;
    MonthStarts(0);
    MonthLength(d);
    YearStep(d.year - 1);
  }

  lemma Epoch()
    ensures DayCount(Date(1970, 1, 1)) == 0
  {}

  /** The day number of a date is its closed count, */
  lemma {:induction false} DateOfCounts(n: int)
    ensures DayCount(DateOf(n)) == n
    decreases if n < 0 then -n else n
  {
    Epoch();
    hide DayCount;
    if n > 0 {
      DateOfCounts(n - 1);
      CountNext(DateOf(n - 1));
    } else if n < 0 {
      DateOfCounts(n + 1);
      CountNext(DateOf(n));
    }
  }

  lemma {:induction false} LaterYear(y: int, z: int)
    requires y < z
    ensures 365 * y + LeapDays(y) + (if IsLeap(y + 1) then 366 else 365) <= 365 * z + LeapDays(z)
    decreases z - y
  {
    hide LeapDays;
    YearStep(z - 1);
    if y < z - 1 {
      LaterYear(y, z - 1);
    }
  }

  /** A date lies within its month and its year, in the count. */
  lemma WithinYear(d: Date)
    requires d.Valid()
    ensures
      var y, rest := MarchYear(d), MonthStart(MarchMonth(d)) + d.day - 1;
      && 0 <= rest < (if IsLeap(y + 1) then 366 else 365)
      && forall m :: MarchMonth(d) < m < 12 ==> rest < MonthStart(m)
  {
    hide MonthStart;
    MonthLength(d);
    MonthStarts(MarchMonth(d));
    forall m | MarchMonth(d) < m < 12
      ensures MonthStart(MarchMonth(d)) + d.day - 1 < MonthStart(m)
    {
      MonthStarts(m);
      MonthStarts(MarchMonth(d) + 1);
    }
  }

  /** and no two dates have the same one. */
  lemma CountDetermines(d: Date, e: Date)
    requires d.Valid() && e.Valid()
    ensures DayCount(d) == DayCount(e) ==> d == e
  {
    if DayCount(d) != DayCount(e) {
      return;
    }
    hide IsLeap, LeapDays, MonthStart;
    WithinYear(d);
    WithinYear(e);
    var y, z := MarchYear(d), MarchYear(e);
    if y < z {
      LaterYear(y, z);
    } else if z < y {
      LaterYear(z, y);
    }
    assert y == z && MarchMonth(d) == MarchMonth(e);
  }

  /** So the date of a day is the one with its count, */
  lemma DateOfIsCivil(n: int, d: Date)
    requires d.Valid()
    ensures DateOf(n) == d <==> DayCount(d) == n
  {
    hide DayCount, DateOf;
    DateOfCounts(n);
    if DayCount(d) == n {
      CountDetermines(DateOf(n), d);
    }
  }

  lemma Congruent(a: int, b: int, k: int)
    requires a == b + 7 * k
    ensures a % 7 == b % 7
  {}

  /** and its weekday the civil one of that date. */
  lemma WeekdayIsCivil(n: int)
    ensures Weekday(n) == CivilWeekday(DateOf(n))
  {
    hide DateOf, LeapDays, IsLeap, MonthStart;
    DateOfCounts(n);
    var d := DateOf(n);
    var y, t := MarchYear(d), [0, 3, 2, 5, 0, 3, 5, 1, 4, 6, 2, 4][d.month - 1];
    MonthStarts(MarchMonth(d));
    var m := MonthStart(MarchMonth(d));
    var c := (m - t - 5) / 7;
    assert m == t + 5 + 7 * c;
    var sum := y + LeapDays(y) + t + d.day + 6;
    assert n + 3 == sum + 7 * (52 * y + c - 102781);
    Congruent(n + 3, sum, 52 * y + c - 102781);
    assert CivilWeekday(d) == sum % 7 by {
      LeapSum(y);
    }
  }

  lemma LeapSum(y: int)
    ensures LeapDays(y) == y / 4 - y / 100 + y / 400
  {}
}
