/** Proleptic Gregorian dates as `datetime.date` has them: years 1 to 9999. */
module Dates {
  import opened Text

  datatype RawDate = Date(year: int, month: int, day: int)

  predicate Leap(year: int) { year % 4 == 0 && (year % 100 != 0 || year % 400 == 0) }

  function DaysInMonth(year: int, month: int): (n: int)
    ensures 28 <= n <= 31
  {
    if month == 2 then (if Leap(year) then 29 else 28)
    else if month == 4 || month == 6 || month == 9 || month == 11 then 30
    else 31
  }

  predicate Valid(d: RawDate) {
    1 <= d.year <= 9999 && 1 <= d.month <= 12 && 1 <= d.day <= DaysInMonth(d.year, d.month)
  }

  type Date = d: RawDate | Valid(d) witness Date(1, 1, 1)

  /** `n` in exactly two digits. */
  function TwoDigits(n: nat): (s: string)
    requires n < 100
    ensures |s| == 2 && Free(':', s)
  {
    [DigitChar(n / 10), DigitChar(n % 10)]
  }

  lemma {:induction false} TwoDigitsInjective(m: nat, n: nat)
    requires m < 100 && n < 100 && TwoDigits(m) == TwoDigits(n)
    ensures m == n
  {
  }

  /** `str(date)`: YYYY-MM-DD, zero padded. */
  function IsoText(d: Date): (s: string)
    ensures |s| == 10 && Free(':', s)
  {
    TwoDigits(d.year / 100) + TwoDigits(d.year % 100) + "-" + TwoDigits(d.month) + "-" + TwoDigits(d.day)
  }

  /** Year, month and day stand in that order, four, two and two digits between dashes. */
  lemma {:induction false} IsoTextReads(d: Date)
    ensures var s := IsoText(d);
            && s[4] == '-' && s[7] == '-' && AllDigits(s[..4]) && AllDigits(s[5..7]) && AllDigits(s[8..])
            && Numeral(s[..4]) == d.year && Numeral(s[5..7]) == d.month && Numeral(s[8..]) == d.day
  {
    var s := IsoText(d);
    TwoDigitsRead(d.year / 100);
    TwoDigitsRead(d.year % 100);
    TwoDigitsRead(d.month);
    TwoDigitsRead(d.day);
    var y, c := TwoDigits(d.year / 100), TwoDigits(d.year % 100);
    assert s[..4] == y + c && s[5..7] == TwoDigits(d.month) && s[8..] == TwoDigits(d.day);
    FourDigitsRead(y, c);
  }

  lemma {:induction false} TwoDigitsRead(n: nat)
    requires n < 100
    ensures AllDigits(TwoDigits(n)) && Numeral(TwoDigits(n)) == n
  {
    var s := TwoDigits(n);
    assert s[..1] == [s[0]] && s[..1][..0] == "";
    assert Numeral(s[..1]) == DigitValue(s[0]);
  }

  lemma {:induction false} FourDigitsRead(y: string, c: string)
    requires |y| == 2 && |c| == 2 && AllDigits(y) && AllDigits(c)
    ensures AllDigits(y + c) && Numeral(y + c) == 100 * Numeral(y) + Numeral(c)
  {
    var s := y + c;
    assert s[..3] == y + [c[0]] && s[..3][..2] == y;
    assert c[..1] == [c[0]] && c[..1][..0] == "";
    assert Numeral(s[..3]) == 10 * Numeral(y) + DigitValue(c[0]);
    assert Numeral(c[..1]) == DigitValue(c[0]);
  }

  /** The lengths of the months. */
  lemma {:induction false} MonthLengths(year: int)
    ensures DaysInMonth(year, 1) == 31 && DaysInMonth(year, 3) == 31 && DaysInMonth(year, 4) == 30 && DaysInMonth(year, 5) == 31
    ensures DaysInMonth(year, 6) == 30 && DaysInMonth(year, 7) == 31 && DaysInMonth(year, 8) == 31 && DaysInMonth(year, 9) == 30
    ensures DaysInMonth(year, 10) == 31 && DaysInMonth(year, 11) == 30 && DaysInMonth(year, 12) == 31
    ensures DaysInMonth(year, 2) == if Leap(year) then 29 else 28
  {
    hide Leap;
  }

  lemma {:induction false} IsoTextInjective(a: Date, b: Date)
    requires IsoText(a) == IsoText(b)
    ensures a == b
  {
    var s, t := IsoText(a), IsoText(b);
    assert s[..2] == TwoDigits(a.year / 100) && t[..2] == TwoDigits(b.year / 100);
    assert s[2..4] == TwoDigits(a.year % 100) && t[2..4] == TwoDigits(b.year % 100);
    assert s[5..7] == TwoDigits(a.month) && t[5..7] == TwoDigits(b.month);
    assert s[8..] == TwoDigits(a.day) && t[8..] == TwoDigits(b.day);
    TwoDigitsInjective(a.year / 100, b.year / 100);
    TwoDigitsInjective(a.year % 100, b.year % 100);
    TwoDigitsInjective(a.month, b.month);
    TwoDigitsInjective(a.day, b.day);
  }

  predicate Before(a: Date, b: Date) {
    a.year < b.year || (a.year == b.year && (a.month < b.month || (a.month == b.month && a.day < b.day)))
  }

  predicate NotAfter(a: Date, b: Date) { a == b || Before(a, b) }
}
