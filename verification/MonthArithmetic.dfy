/** Month arithmetic of seed_b2b_demo: consecutive month starts, and the last day of
    a month by way of its 28th. */
module MonthArithmetic {
  import opened Base
  import opened Dates

  // ---- days, counted ------------------------------------------------------------------

  function DaysBeforeYear(year: int): int { 365 * (year - 1) + (year - 1) / 4 - (year - 1) / 100 + (year - 1) / 400 }

  function DaysBeforeMonth(year: int, month: int): int
    requires 1 <= month <= 12
    decreases month
  {
    if month == 1 then 0 else DaysBeforeMonth(year, month - 1) + DaysInMonth(year, month - 1)
  }

  /** The day number `datetime.date` adds and subtracts by; 1 January of year 1 is 1. */
  function Ordinal(d: Date): int { DaysBeforeYear(d.year) + DaysBeforeMonth(d.year, d.month) + d.day }

  /** `d + timedelta(days=1)`, None where it raises OverflowError. */
  function NextDay(d: Date): Option<Date> {
    if d.day < DaysInMonth(d.year, d.month) then Some(Date(d.year, d.month, d.day + 1))
    else if d.month < 12 then Some(Date(d.year, d.month + 1, 1))
    else if d.year < 9999 then Some(Date(d.year + 1, 1, 1))
    else None
  }

  /** `d - timedelta(days=1)` */
  function PreviousDay(d: Date): Option<Date> {
    if d.day > 1 then Some(Date(d.year, d.month, d.day - 1))
    else if d.month > 1 then Some(Date(d.year, d.month - 1, DaysInMonth(d.year, d.month - 1)))
    else if d.year > 1 then Some(Date(d.year - 1, 12, 31))
    else None
  }

  function AddDays(d: Date, n: nat): Option<Date> {
    if n == 0 then Some(d)
    else match AddDays(d, n - 1) case None => None case Some(x) => NextDay(x)
  }

  /** A quotient steps up exactly at the multiples of the divisor. */
  lemma {:induction false} QuotientStep(n: nat, k: nat, q: nat, r: nat)
    requires k > 1 && n >= 1 && n == k * q + r && r < k
    ensures n / k == q && n % k == r
    ensures (n - 1) / k == if r == 0 then q - 1 else q
  {
    QuotientIs(n, k, q, r);
    if r == 0 {
      assert k * (q - 1) == k * q - k;
      QuotientIs(n - 1, k, q - 1, k - 1);
    } else {
      QuotientIs(n - 1, k, q, r - 1);
    }
  }

  lemma {:induction false} QuotientIs(n: int, k: int, q: int, r: int)
    requires k > 0 && n == k * q + r && 0 <= r < k
    ensures n / k == q && n % k == r
  {
    var d := n / k - q;
    assert k * (n / k) + n % k == n;
    assert k * d == k * (n / k) - k * q;
    assert k * d == r - n % k;
    assert d > 0 ==> k * d >= k;
    assert d < 0 ==> k * d <= -k;
  }

  lemma {:induction false} Multiples(n: nat)
    ensures n % 100 == 0 ==> n % 4 == 0
    ensures n % 400 == 0 ==> n % 100 == 0
  {
    if n % 100 == 0 { QuotientIs(n, 4, 25 * (n / 100), 0); }
    if n % 400 == 0 { QuotientIs(n, 100, 4 * (n / 400), 0); }
  }

  lemma {:induction false} YearLength(year: int)
    requires year >= 1
    ensures DaysBeforeYear(year + 1) == DaysBeforeYear(year) + if Leap(year) then 366 else 365
  {
    QuotientStep(year, 4, year / 4, year % 4);
    QuotientStep(year, 100, year / 100, year % 100);
    QuotientStep(year, 400, year / 400, year % 400);
    Multiples(year);
  }

  lemma {:induction false} DecemberStart(year: int)
    ensures DaysBeforeMonth(year, 12) + 31 == if Leap(year) then 366 else 365
  {
    assert DaysBeforeMonth(year, 2) == 31;
    assert DaysBeforeMonth(year, 4) == DaysBeforeMonth(year, 3) + 31;
    assert DaysBeforeMonth(year, 6) == DaysBeforeMonth(year, 4) + 61;
    assert DaysBeforeMonth(year, 8) == DaysBeforeMonth(year, 6) + 61;
    assert DaysBeforeMonth(year, 10) == DaysBeforeMonth(year, 8) + 61;
    assert DaysBeforeMonth(year, 12) == DaysBeforeMonth(year, 10) + 61;
  }

  /** The calendar step is one day, across months, years and leap years, and stepping
      back undoes it. */
  lemma {:induction false} NextDayIsOneDay(d: Date)
    requires NextDay(d).Some?
    ensures Ordinal(NextDay(d).value) == Ordinal(d) + 1 && PreviousDay(NextDay(d).value) == Some(d)
  {
    if d.day == DaysInMonth(d.year, d.month) && d.month == 12 {
      YearLength(d.year);
      DecemberStart(d.year);
    }
  }

  lemma {:induction false} AddDaysIsExact(d: Date, n: nat)
    requires AddDays(d, n).Some?
    ensures Ordinal(AddDays(d, n).value) == Ordinal(d) + n
  {
    hide Ordinal, NextDay;
    if n > 0 {
      AddDaysIsExact(d, n - 1);
      NextDayIsOneDay(AddDays(d, n - 1).value);
    }
  }

  // ---- the last day of a month ------------------------------------------------------------

  /** (start.replace(day=28) + timedelta(days=4)).replace(day=1) - timedelta(days=1) */
  function MonthEnd(start: Date): Option<Date> {
    match AddDays(Date(start.year, start.month, 28), 4)
    case None => None
    case Some(d) => PreviousDay(Date(d.year, d.month, 1))
  }

  /** That is the last day of the month, for every month but the last one dates reach. */
  lemma {:induction false} MonthEndIsLastDay(start: Date)
    ensures MonthEnd(start) == if start.year == 9999 && start.month == 12 then None
                               else Some(Date(start.year, start.month, DaysInMonth(start.year, start.month)))
  {
    var a := Date(start.year, start.month, 28);
    assert AddDays(a, 0) == Some(a);
    var b, c, d := AddDays(a, 1), AddDays(a, 2), AddDays(a, 3);
    assert b == NextDay(a);
    assert c == if b.None? then None else NextDay(b.value);
    assert d == if c.None? then None else NextDay(c.value);
    assert AddDays(a, 4) == if d.None? then None else NextDay(d.value);
  }

  /** By day numbers, which is how timedelta adds: four days on from the 28th, and
      back by the day of the month reached. */
  lemma {:induction false} MonthEndByDayNumber(start: Date)
    requires MonthEnd(start).Some?
    ensures var later := AddDays(Date(start.year, start.month, 28), 4);
            && later.Some? && Ordinal(later.value) == Ordinal(Date(start.year, start.month, 28)) + 4
            && Ordinal(MonthEnd(start).value) == Ordinal(later.value) - later.value.day
  {
    hide AddDays, NextDay, DaysBeforeYear, DaysBeforeMonth;
    var later := AddDays(Date(start.year, start.month, 28), 4).value;
    AddDaysIsExact(Date(start.year, start.month, 28), 4);
    StepBackIsOneDay(Date(later.year, later.month, 1));
  }

  lemma {:induction false} StepBackIsOneDay(d: Date)
    requires PreviousDay(d).Some?
    ensures NextDay(PreviousDay(d).value) == Some(d) && Ordinal(PreviousDay(d).value) == Ordinal(d) - 1
  {
    hide Ordinal;
    NextDayIsOneDay(PreviousDay(d).value);
  }

  // ---- month starts --------------------------------------------------------------------------

  /** Months counted from the start of year 0. */
  function MonthIndex(d: RawDate): int { 12 * d.year + d.month - 1 }

  /** `date(y, m, 1)`, None where it raises ValueError. */
  function MakeStart(year: int, month: int): Option<Date> {
    if 1 <= year <= 9999 && 1 <= month <= 12 then Some(Date(year, month, 1)) else None
  }

  ghost predicate StartsAt(d: Date, index: int) { d.day == 1 && MonthIndex(d) == index }

  /** The first of the months asked for. */
  function FirstIndex(today: Date, count: int, offset: int): int { MonthIndex(today) - offset - (count - 1) }

  /** month_starts: None where it raises. A negative offset past December raises;
      otherwise only running off the front of the calendar does. */
  method MonthStarts(today: Date, count: int, offset: int) returns (months: Option<seq<Date>>)
    ensures months.Some? <==> count <= 0 || (today.month - offset <= 12 && FirstIndex(today, count, offset) >= 12)
    ensures months.Some? ==> |months.value| == if count <= 0 then 0 else count
    ensures months.Some? ==> forall i :: 0 <= i < |months.value| ==> StartsAt(months.value[i], FirstIndex(today, count, offset) + i)
  {
    var anchorYear, anchorMonth := today.year, today.month - offset;
    while anchorMonth <= 0
      invariant 12 * anchorYear + anchorMonth - 1 == MonthIndex(today) - offset
      invariant anchorMonth == today.month - offset || anchorMonth <= 12
      invariant anchorYear <= today.year
      invariant today.month - offset <= 12 ==> anchorMonth <= 12
      decreases -anchorMonth
    {
      anchorMonth := anchorMonth + 12;
      anchorYear := anchorYear - 1;
    }
    var starts: seq<Date> := [];
    var back := count - 1;
    while back >= 0
      invariant count <= 0 ==> back == count - 1
      invariant count > 0 ==> -1 <= back < count
      invariant |starts| == if count <= 0 then 0 else count - 1 - back
      invariant forall i :: 0 <= i < |starts| ==> StartsAt(starts[i], FirstIndex(today, count, offset) + i)
      invariant |starts| > 0 ==> FirstIndex(today, count, offset) >= 12
      invariant count > 0 && back == -1 ==> anchorMonth <= 12
    {
      var m, y := anchorMonth - back, anchorYear;
      while m <= 0
        invariant 12 * y + m - 1 == MonthIndex(today) - offset - back
        invariant y <= anchorYear
        invariant m <= 12 || m == anchorMonth - back
        decreases -m
      {
        m := m + 12;
        y := y - 1;
      }
      var start := MakeStart(y, m);
      if start.None? { return None; }
      starts := starts + [start.value];
      back := back - 1;
    }
    months := Some(starts);
  }

  lemma {:induction false} StartOrdinal(a: Date, b: Date)
    requires a.day == 1 && b.day == 1 && MonthIndex(b) == MonthIndex(a) + 1
    ensures Ordinal(b) == Ordinal(a) + DaysInMonth(a.year, a.month)
  {
    if a.month == 12 {
      assert b.year == a.year + 1 && b.month == 1;
      YearLength(a.year);
      DecemberStart(a.year);
    } else {
      assert b.year == a.year && b.month == a.month + 1;
    }
  }

  /** Two starts with neighbouring month numbers are consecutive months: the second
      is the day after the last day of the first. */
  lemma {:induction false} StartsAreConsecutive(a: Date, b: Date)
    requires a.day == 1 && b.day == 1 && MonthIndex(b) == MonthIndex(a) + 1
    ensures Before(a, b) && MonthEnd(a).Some? && NextDay(MonthEnd(a).value) == Some(b)
    ensures Ordinal(b) == Ordinal(a) + DaysInMonth(a.year, a.month)
  {
    hide Ordinal, MonthEnd;
    StartOrdinal(a, b);
    MonthEndIsLastDay(a);
  }
}
