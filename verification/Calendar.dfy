/** UTC days and Gregorian months, counted from 1 January 1970, in microseconds
    (the resolution of timestamptz). */
module Calendar {
  const DAY: nat := 86_400_000_000

  predicate IsLeap(year: nat) {
    year % 4 == 0 && (year % 100 != 0 || year % 400 == 0)
  }

  /** Length of month m, where month 0 is January 1970. */
  function MonthLength(m: nat): (days: nat)
    ensures 28 <= days <= 31
  {
    var year := 1970 + m / 12;
    match m % 12
    case 1 => if IsLeap(year) then 29 else 28
    case 3 => 30
    case 5 => 30
    case 8 => 30
    case 10 => 30
    case _ => 31
  }

  /** Index of the first day of month m. */
  function FirstDay(m: nat): (day: nat)
    ensures m <= day
  {
    if m == 0 then 0 else FirstDay(m - 1) + MonthLength(m - 1)
  }

  function MonthFrom(day: nat, m: nat): (r: nat)
    requires FirstDay(m) <= day
    ensures FirstDay(r) <= day < FirstDay(r + 1)
    decreases day - FirstDay(m)
  {
    if day < FirstDay(m + 1) then m else MonthFrom(day, m + 1)
  }

  /** The month containing a day. */
  function MonthOf(day: nat): (m: nat)
    ensures FirstDay(m) <= day < FirstDay(m + 1)
  {
    MonthFrom(day, 0)
  }

  lemma {:induction false} FirstDayMonotone(m: nat, n: nat)
    requires m <= n
    ensures FirstDay(m) <= FirstDay(n)
    decreases n - m
  {
    if m < n {
      FirstDayMonotone(m, n - 1);
    }
  }

  /** A day belongs to exactly one month. */
  lemma MonthUnique(day: nat, m: nat)
    ensures FirstDay(m) <= day < FirstDay(m + 1) <==> m == MonthOf(day)
  {
    var k := MonthOf(day);
    if m < k {
      FirstDayMonotone(m + 1, k);
    } else if k < m {
      FirstDayMonotone(k + 1, m);
    }
  }

  // ----- the Gregorian calendar in closed form -------------------------------------------

  /** Days from 1 January 1970 to the first of a month, from the length of a year on
      average and of five months from March on: `month` is 1 to 12, years begin in March. */
  function CivilFirst(year: int, month: int): int {
    var y := if month <= 2 then year - 1 else year;
    var sinceMarch := (month + 9) % 12;
    365 * y + y / 4 - y / 100 + y / 400 + (153 * sinceMarch + 2) / 5 - 719468
  }

  /** The leap days of the years up to y. */
  function LeapDays(y: int): int {
    y / 4 - y / 100 + y / 400
  }

  lemma Fourth(y: nat)
    ensures (y + 1) / 4 - y / 4 == if (y + 1) % 4 == 0 then 1 else 0
  {
  }

  lemma Hundredth(y: nat)
    ensures (y + 1) / 100 - y / 100 == if (y + 1) % 100 == 0 then 1 else 0
  {
  }

  lemma FourHundredth(y: nat)
    ensures (y + 1) / 400 - y / 400 == if (y + 1) % 400 == 0 then 1 else 0
  {
  }

  lemma Multiples(y: nat)
    ensures y % 400 == 0 ==> y % 100 == 0
    ensures y % 100 == 0 ==> y % 4 == 0
  {
    if y % 400 == 0 { assert y == 100 * (4 * (y / 400)); }
    if y % 100 == 0 { assert y == 4 * (25 * (y / 100)); }
  }

  lemma LeapStep(y: nat)
    ensures LeapDays(y + 1) - LeapDays(y) == if IsLeap(y + 1) then 1 else 0
  {
    Fourth(y);
    Hundredth(y);
    FourHundredth(y);
    Multiples(y + 1);
  }

  /** Each month but December ends where the next begins. */
  lemma MonthGap(year: nat, month: nat)
    requires 1970 <= year && 1 <= month <= 11
    ensures CivilFirst(year, month + 1) == CivilFirst(year, month) + MonthLength(12 * (year - 1970) + month - 1)
  {
    var m := 12 * (year - 1970) + month - 1;
    assert m / 12 == year - 1970 && m % 12 == month - 1;
    if month == 2 {
      LeapStep((year - 1) as nat);
      assert CivilFirst(year, 3) - CivilFirst(year, 2) == 365 + LeapDays(year) - LeapDays(year - 1) - 337;
    } else {
      MonthGapInYear(year, month);
    }
  }

  lemma MonthGapInYear(year: nat, month: nat)
    requires 1970 <= year && 1 <= month <= 11 && month != 2
    ensures CivilFirst(year, month + 1) - CivilFirst(year, month) == if month in {4, 6, 9, 11} then 30 else 31
  {
    var since := [306, 337, 0, 31, 61, 92, 122, 153, 184, 214, 245, 275];
    SinceMarch(month);
    SinceMarch(month + 1);
  }

  /** The days from 1 March to the first of a month. */
  lemma SinceMarch(month: nat)
    requires 1 <= month <= 12
    ensures (153 * ((month + 9) % 12) + 2) / 5 == [306, 337, 0, 31, 61, 92, 122, 153, 184, 214, 245, 275][month - 1]
  {
    var table := [306, 337, 0, 31, 61, 92, 122, 153, 184, 214, 245, 275];
    if month <= 3 {
      assert month == 1 || month == 2 || month == 3;
    } else {
      assert (month + 9) % 12 == month - 3;
    }
  }

  lemma DecemberGap(year: nat)
    requires 1970 <= year
    ensures CivilFirst(year + 1, 1) == CivilFirst(year, 12) + 31
  {
  }

  /** The civil first day of the month after a month. */
  function CivilNext(year: int, month: int): int {
    if month == 12 then CivilFirst(year + 1, 1) else CivilFirst(year, month + 1)
  }

  function YearOf(m: nat): nat { 1970 + m / 12 }

  function MonthNumber(m: nat): nat { m % 12 + 1 }

  function CivilOf(m: nat): int { CivilFirst(YearOf(m), MonthNumber(m)) }

  lemma NextOf(m: nat)
    ensures 1 <= MonthNumber(m) <= 12 && m == 12 * (YearOf(m) - 1970) + MonthNumber(m) - 1
    ensures YearOf(m + 1) == (if MonthNumber(m) == 12 then YearOf(m) + 1 else YearOf(m))
    ensures MonthNumber(m + 1) == if MonthNumber(m) == 12 then 1 else MonthNumber(m) + 1
  {
  }

  lemma MonthStep(m: nat)
    ensures CivilOf(m + 1) == CivilNext(YearOf(m), MonthNumber(m)) == CivilOf(m) + MonthLength(m)
  {
    NextOf(m);
    if MonthNumber(m) == 12 {
      DecemberGap(YearOf(m));
    } else {
      MonthGap(YearOf(m), MonthNumber(m));
    }
  }

  lemma FirstStep(m: nat, civil: int, next: int)
    requires FirstDay(m) == civil && next == civil + MonthLength(m)
    ensures FirstDay(m + 1) == next
  {
  }

  lemma Epoch()
    ensures CivilOf(0) == 0
  {
  }

  lemma {:induction false} FirstDayIsCivilOf(m: nat)
    ensures FirstDay(m) == CivilOf(m)
  {
    if m == 0 {
      Epoch();
    } else {
      FirstDayIsCivilOf(m - 1);
      MonthStep(m - 1);
      FirstStep(m - 1, CivilOf(m - 1), CivilOf(m));
    }
  }

  /** The months are the Gregorian ones: every month begins where the civil calendar's
      closed form says. */
  lemma FirstDayIsCivil(m: nat)
    ensures FirstDay(m) == CivilFirst(1970 + m / 12, m % 12 + 1)
  {
    FirstDayIsCivilOf(m);
  }

  function StartOfDay(t: nat): nat {
    t / DAY * DAY
  }

  function StartOfMonth(t: nat): nat {
    FirstDay(MonthOf(t / DAY)) * DAY
  }

  /** Instant t lies in UTC day d exactly when that day's bounds contain it. */
  lemma DayBounds(t: nat, d: nat)
    ensures t / DAY == d <==> d * DAY <= t < (d + 1) * DAY
  {
  }

  /** Instant t lies in month m exactly when that month's bounds contain it. */
  lemma MonthBounds(t: nat, m: nat)
    ensures MonthOf(t / DAY) == m <==> FirstDay(m) * DAY <= t < FirstDay(m + 1) * DAY
  {
    MonthUnique(t / DAY, m);
  }

  /** Later instants never start an earlier day or month. */
  lemma StartsMonotone(t: nat, u: nat)
    requires t <= u
    ensures StartOfDay(t) <= StartOfDay(u) && StartOfMonth(t) <= StartOfMonth(u)
    ensures StartOfMonth(t) <= StartOfDay(t) <= t
  {
    var m, n := MonthOf(t / DAY), MonthOf(u / DAY);
    if n < m {
      FirstDayMonotone(n + 1, m);
    } else {
      FirstDayMonotone(m, n);
    }
  }

  /** The start of an instant's month, in the civil calendar: the first instant of the one
      month that contains it. */
  lemma StartOfMonthIsCivil(t: nat) returns (year: nat, month: nat)
    ensures 1970 <= year && 1 <= month <= 12
    ensures StartOfMonth(t) == CivilFirst(year, month) * 86_400_000_000
    ensures CivilFirst(year, month) * 86_400_000_000 <= t < CivilNext(year, month) * 86_400_000_000
  {
    var m := MonthOf(t / DAY);
    FirstDayIsCivilOf(m);
    FirstDayIsCivilOf(m + 1);
    MonthStep(m);
    NextOf(m);
    MonthBounds(t, m);
    year, month := YearOf(m), MonthNumber(m);
  }

  /** The start of an instant's UTC day, in microseconds. */
  lemma StartOfDayIs(t: nat)
    ensures StartOfDay(t) <= t < StartOfDay(t) + 86_400_000_000 && StartOfDay(t) % 86_400_000_000 == 0
  {
  }
}
