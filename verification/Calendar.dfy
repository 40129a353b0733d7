/** The proleptic Gregorian calendar as Go's `time` package walks it. */
module Calendar {

  datatype Date = Date(year: int, month: int, day: int)

  predicate Leap(y: int) {
    y % 4 == 0 && (y % 100 != 0 || y % 400 == 0)
  }

  function MonthLength(y: int, m: int): (n: int)
    ensures 28 <= n <= 31
  {
    if m == 2 then (if Leap(y) then 29 else 28)
    else if m == 4 || m == 6 || m == 9 || m == 11 then 30
    else 31
  }

  predicate Valid(d: Date) {
    1 <= d.year && 1 <= d.month <= 12 && 1 <= d.day <= MonthLength(d.year, d.month)
  }

  /** The next calendar day. */
  function Next(d: Date): (n: Date)
    requires Valid(d)
    ensures Valid(n)
  {
    if d.day < MonthLength(d.year, d.month) then d.(day := d.day + 1)
    else if d.month < 12 then Date(d.year, d.month + 1, 1)
    else Date(d.year + 1, 1, 1)
  }

  /** `AddDate(0, 0, n)`. */
  function AddDays(d: Date, n: nat): (r: Date)
    requires Valid(d)
    ensures Valid(r)
  {
    if n == 0 then d else Next(AddDays(d, n - 1))
  }

  /** Days of the year before the first of month `m`. */
  function BeforeMonth(y: int, m: int): int
    requires 1 <= m <= 12
  {
    if m == 1 then 0 else BeforeMonth(y, m - 1) + MonthLength(y, m - 1)
  }

  /** Days before 1 January of year `y`, counted from 1 January of year 1. */
  function BeforeYear(y: int): int {
    365 * (y - 1) + (y - 1) / 4 - (y - 1) / 100 + (y - 1) / 400
  }

  /** The day number: 1 January of year 1, a Monday, is 1. */
  function Ordinal(d: Date): int
    requires Valid(d)
  {
    BeforeYear(d.year) + BeforeMonth(d.year, d.month) + d.day
  }

  /** Sunday is 0. */
  function Weekday(d: Date): (w: int)
    requires Valid(d)
    ensures 0 <= w < 7
  {
    Ordinal(d) % 7
  }

  function Multiple(y: int, k: int): int
    requires k > 0
  {
    if y % k == 0 then 1 else 0
  }

  lemma Quotient4(y: int)
    ensures y / 4 == (y - 1) / 4 + Multiple(y, 4)
  {
  }

  lemma Quotient100(y: int)
    ensures y / 100 == (y - 1) / 100 + Multiple(y, 100)
  {
  }

  lemma Quotient400(y: int)
    ensures y / 400 == (y - 1) / 400 + Multiple(y, 400)
  {
  }

  lemma LeapCount(y: int)
    ensures Multiple(y, 4) - Multiple(y, 100) + Multiple(y, 400) == (if Leap(y) then 1 else 0)
  {
    if y % 400 == 0 {
      assert y == 100 * (4 * (y / 400));
    }
    if y % 100 == 0 {
      assert y == 4 * (25 * (y / 100));
    }
  }

  lemma YearLength(y: int)
    ensures BeforeYear(y + 1) == BeforeYear(y) + (if Leap(y) then 366 else 365)
  {
    Quotient4(y);
    Quotient100(y);
    Quotient400(y);
    LeapCount(y);
    var a, b, c := Multiple(y, 4), Multiple(y, 100), Multiple(y, 400);
    assert BeforeYear(y + 1) == BeforeYear(y) + 365 + a - b + c;
  }

  lemma DecemberEnds(y: int)
    ensures BeforeMonth(y, 12) + 31 == (if Leap(y) then 366 else 365)
  {
    var n := MonthLength(y, 2);
    assert BeforeMonth(y, 2) == 31;
    assert BeforeMonth(y, 3) == 31 + n;
    assert BeforeMonth(y, 4) == 62 + n;
    assert BeforeMonth(y, 5) == 92 + n;
    assert BeforeMonth(y, 6) == 123 + n;
    assert BeforeMonth(y, 7) == 153 + n;
    assert BeforeMonth(y, 8) == 184 + n;
    assert BeforeMonth(y, 9) == 215 + n;
    assert BeforeMonth(y, 10) == 245 + n;
    assert BeforeMonth(y, 11) == 276 + n;
    assert BeforeMonth(y, 12) == 306 + n;
  }

  lemma NextIsSuccessor(d: Date)
    requires Valid(d)
    ensures Ordinal(Next(d)) == Ordinal(d) + 1
  {
    if d.day == MonthLength(d.year, d.month) && d.month == 12 {
      DecemberEnds(d.year);
      YearLength(d.year);
    }
  }

  /** Walking n days raises the day number by n. */
  lemma {:induction false} AddDaysOrdinal(d: Date, n: nat)
    requires Valid(d)
    ensures Ordinal(AddDays(d, n)) == Ordinal(d) + n
  {
    if n > 0 {
      AddDaysOrdinal(d, n - 1);
      NextIsSuccessor(AddDays(d, n - 1));
    }
  }

  lemma WeekTurns(o: int, n: nat)
    ensures (o + n) % 7 == (o % 7 + n) % 7
  {
  }

  lemma AddDaysWeekday(d: Date, n: nat)
    requires Valid(d)
    ensures Weekday(AddDays(d, n)) == (Weekday(d) + n) % 7
  {
    AddDaysOrdinal(d, n);
    var o, p := Ordinal(d), Ordinal(AddDays(d, n));
    WeekTurns(o, n);
    assert p % 7 == (o % 7 + n) % 7;
  }

  predicate Earlier(a: Date, b: Date) {
    a.year < b.year
    || (a.year == b.year && (a.month < b.month || (a.month == b.month && a.day < b.day)))
  }

  lemma {:induction false} MonthsAccumulate(y: int, m: int, k: int)
    requires 1 <= m < k <= 12
    ensures BeforeMonth(y, m) + MonthLength(y, m) <= BeforeMonth(y, k)
    decreases k
  {
    if m < k - 1 {
      MonthsAccumulate(y, m, k - 1);
    }
  }

  lemma {:induction false} YearsAccumulate(y: int, z: int)
    requires y < z
    ensures BeforeYear(y + 1) <= BeforeYear(z)
    decreases z - y
  {
    if y + 1 < z {
      YearsAccumulate(y + 1, z);
      YearLength(y + 1);
    }
  }

  lemma WithinYear(d: Date)
    requires Valid(d)
    ensures BeforeYear(d.year) < Ordinal(d) <= BeforeYear(d.year + 1)
  {
    YearLength(d.year);
    DecemberEnds(d.year);
    if d.month < 12 {
      MonthsAccumulate(d.year, d.month, 12);
    }
    if d.month > 1 {
      MonthsAccumulate(d.year, 1, d.month);
    }
  }

  /** Day numbers grow with the date. */
  lemma OrdinalIsMonotone(a: Date, b: Date)
    requires Valid(a) && Valid(b) && Earlier(a, b)
    ensures Ordinal(a) < Ordinal(b)
  {
    if a.year < b.year {
      WithinYear(a);
      WithinYear(b);
      YearsAccumulate(a.year, b.year);
    } else if a.month < b.month {
      MonthsAccumulate(a.year, a.month, b.month);
    }
  }

  /** A walk of days passes every calendar date between its ends, in its place. */
  lemma EveryDateIsWalked(start: Date, d: Date)
    requires Valid(start) && Valid(d)
    requires Ordinal(start) <= Ordinal(d)
    ensures AddDays(start, Ordinal(d) - Ordinal(start)) == d
  {
    var r := AddDays(start, Ordinal(d) - Ordinal(start));
    AddDaysOrdinal(start, Ordinal(d) - Ordinal(start));
    if Earlier(r, d) {
      OrdinalIsMonotone(r, d);
    } else if Earlier(d, r) {
      OrdinalIsMonotone(d, r);
    }
  }

  lemma LeapDayOrdinal(y: int)
    requires y >= 1 && Leap(y)
    ensures Valid(Date(y, 2, 29)) && Ordinal(Date(y, 2, 29)) == BeforeYear(y) + 60
  {
    assert BeforeMonth(y, 2) == 31;
  }

  lemma ThreeYears(y: int)
    ensures BeforeYear(y + 3) >= BeforeYear(y + 1) + 730
  {
    YearLength(y + 1);
    YearLength(y + 2);
  }

  lemma LaterYears(y: int, z: int)
    requires y <= z
    ensures BeforeYear(y) <= BeforeYear(z)
  {
    if y < z {
      YearLength(y);
      YearsAccumulate(y, z);
    }
  }

  // ---------- Anchors ----------

  const Epoch: Date := Date(1970, 1, 1)

  /** 1 January 1970 was a Thursday, and 719162 days precede it. */
  lemma EpochIsThursday()
    ensures Valid(Epoch) && Ordinal(Epoch) == 719163 && Weekday(Epoch) == 4
  {
    assert BeforeYear(1970) == 719162;
    assert BeforeMonth(1970, 1) == 0;
  }

  /** The weekday of every date is told by its distance from that Thursday. */
  lemma WeekdayByDistance(d: Date, n: nat)
    requires Valid(d)
    ensures Valid(Epoch)
    ensures AddDays(Epoch, n) == d ==> Weekday(d) == (4 + n) % 7
    ensures AddDays(d, n) == Epoch ==> Weekday(d) == (4 - n) % 7
  {
    EpochIsThursday();
    AddDaysWeekday(Epoch, n);
    AddDaysWeekday(d, n);
    TurnBack(Weekday(d), n);
  }

  lemma TurnBack(w: int, n: nat)
    requires 0 <= w < 7
    ensures (w + n) % 7 == 4 ==> w == (4 - n) % 7
  {
  }

  /** And every date has such a distance, forwards or backwards. */
  lemma DistanceExists(d: Date) returns (n: nat)
    requires Valid(d)
    ensures Valid(Epoch)
    ensures AddDays(Epoch, n) == d || AddDays(d, n) == Epoch
  {
    EpochIsThursday();
    if Ordinal(Epoch) <= Ordinal(d) {
      n := Ordinal(d) - Ordinal(Epoch);
      EveryDateIsWalked(Epoch, d);
    } else {
      n := Ordinal(Epoch) - Ordinal(d);
      EveryDateIsWalked(d, Epoch);
    }
  }

  /** The lengths of the months of a common year. */
  lemma MonthLengths(y: int, m: int)
    requires 1 <= m <= 12
    ensures MonthLength(y, m) ==
            [31, 28, 31, 30, 31, 30, 31, 31, 30, 31, 30, 31][m - 1] + (if m == 2 && Leap(y) then 1 else 0)
    ensures Leap(y) <==> (y % 4 == 0 && y % 100 != 0) || y % 400 == 0
  {
    if y % 400 == 0 {
      assert y == 4 * (100 * (y / 400));
    }
  }
}
