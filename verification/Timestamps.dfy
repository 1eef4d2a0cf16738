// Stored timestamps are texts `YYYY-MM-DDTHH:MM:SSZ`, compared as strings by
// SQL.  Their order is the order of the instants they name.
module Timestamps {
  import opened Basics

  datatype Stamp = Stamp(year: nat, month: nat, day: nat, hour: nat, minute: nat, second: nat)

  predicate LeapYear(y: nat) { y % 4 == 0 && (y % 100 != 0 || y % 400 == 0) }

  function DaysInMonth(y: nat, m: nat): nat {
    if m == 2 then (if LeapYear(y) then 29 else 28)
    else if m == 4 || m == 6 || m == 9 || m == 11 then 30
    else 31
  }

  lemma MonthLengths(y: nat)
    ensures forall m :: m == 1 || m == 3 || m == 5 || m == 7 || m == 8 || m == 10 || m == 12 ==> DaysInMonth(y, m) == 31
    ensures forall m :: m == 4 || m == 6 || m == 9 || m == 11 ==> DaysInMonth(y, m) == 30
    ensures DaysInMonth(y, 2) == if (y % 4 == 0 && y % 100 != 0) || y % 400 == 0 then 29 else 28
  {
  }

  predicate Valid(s: Stamp) {
    && 1 <= s.year <= 9999 && 1 <= s.month <= 12 && 1 <= s.day <= DaysInMonth(s.year, s.month)
    && s.hour < 24 && s.minute < 60 && s.second < 60
  }

  // Days of the proleptic Gregorian calendar before a year, and before a month of it.
  function DaysBeforeYear(y: nat): nat
    requires y >= 1
  {
    365 * (y - 1) + (y - 1) / 4 - (y - 1) / 100 + (y - 1) / 400
  }

  function DaysBeforeMonth(y: nat, m: nat): nat {
    if m <= 1 then 0 else DaysBeforeMonth(y, m - 1) + DaysInMonth(y, m - 1)
  }

  function Days(s: Stamp): nat
    requires Valid(s)
  {
    DaysBeforeYear(s.year) + DaysBeforeMonth(s.year, s.month) + s.day - 1
  }

  function Instant(s: Stamp): nat
    requires Valid(s)
  {
    ((Days(s) * 24 + s.hour) * 60 + s.minute) * 60 + s.second
  }

  // ---- the text --------------------------------------------------------------------

  function Digit(d: nat): char
    requires d < 10
  {
    '0' + d as char
  }

  // Zero-padded to a width.
  function Padded(n: nat, width: nat): (text: string)
    ensures |text| == width
  {
    if width == 0 then "" else Padded(n / 10, width - 1) + [Digit(n % 10)]
  }

  function Text(s: Stamp): string {
    Padded(s.year, 4) + ("-" + (Padded(s.month, 2) + ("-" + (Padded(s.day, 2) + ("T" + (Padded(s.hour, 2) + (":"
    + (Padded(s.minute, 2) + (":" + (Padded(s.second, 2) + "Z"))))))))))
  }

  // Such a text: the last second but one of a leap day.
  lemma OneText()
    ensures Text(Stamp(2024, 2, 29, 23, 59, 58)) == "2024-02-29T23:59:58Z"
  {
    hide Padded, Digit;
    OneDate();
    OneTime();
    assert Text(Stamp(2024, 2, 29, 23, 59, 58)) == "2024" + ("-" + ("02" + ("-" + ("29" + ("T" + "23:59:58Z")))));
  }

  lemma OneDate()
    ensures Padded(2024, 4) == "2024" && Padded(2, 2) == "02" && Padded(29, 2) == "29"
  {
    hide Padded, Digit;
    FourDigits(2024);
    TwoDigits(2);
    TwoDigits(29);
    DigitsAre();
  }

  lemma OneTime()
    ensures Padded(23, 2) + (":" + (Padded(59, 2) + (":" + (Padded(58, 2) + "Z")))) == "23:59:58Z"
  {
    hide Padded, Digit;
    TwoDigits(23);
    TwoDigits(59);
    TwoDigits(58);
    DigitsAre();
  }

  lemma DigitsAre()
    ensures forall d :: 0 <= d < 10 ==> Digit(d) == "0123456789"[d]
  {
  }

  lemma TwoDigits(n: nat)
    requires n < 100
    ensures Padded(n, 2) == [Digit(n / 10), Digit(n % 10)]
  {
    hide Padded, Digit;
    PaddedStep(n, 2);
    OneDigit(n / 10);
  }

  lemma OneDigit(d: nat)
    requires d < 10
    ensures Padded(d, 1) == [Digit(d)]
  {
    hide Padded, Digit;
    PaddedStep(d, 1);
    assert d % 10 == d && Padded(d / 10, 0) + [Digit(d)] == [Digit(d)];
  }

  lemma PaddedStep(n: nat, width: nat)
    requires width > 0
    ensures Padded(n, width) == Padded(n / 10, width - 1) + [Digit(n % 10)]
  {
  }

  lemma FourDigits(n: nat)
    requires n < 10000
    ensures Padded(n, 4) == [Digit(n / 1000), Digit(n / 100 % 10), Digit(n / 10 % 10), Digit(n % 10)]
  {
    hide Padded, Digit;
    TwoDigits(n / 100);
    PaddedStep(n, 4);
    PaddedStep(n / 10, 3);
    assert n / 10 / 10 == n / 100 && n / 100 / 10 == n / 1000;
  }

  // Comparison by code points.
  predicate TextLess(a: string, b: string) {
    b != "" && (a == "" || a[0] < b[0] || (a[0] == b[0] && TextLess(a[1..], b[1..])))
  }

  predicate TextAtMost(a: string, b: string) { !TextLess(b, a) }

  lemma {:induction false} EqualWidthOrder(p: string, q: string, a: string, b: string)
    requires |p| == |q|
    ensures TextLess(p + a, q + b) <==> TextLess(p, q) || (p == q && TextLess(a, b))
  {
    if p == "" {
      assert p + a == a && q + b == b;
    } else {
      assert (p + a)[1..] == p[1..] + a && (q + b)[1..] == q[1..] + b;
      EqualWidthOrder(p[1..], q[1..], a, b);
      assert p == [p[0]] + p[1..] && q == [q[0]] + q[1..];
    }
  }

  function Pow10(width: nat): nat { if width == 0 then 1 else 10 * Pow10(width - 1) }

  lemma {:induction false} PaddedOrder(m: nat, n: nat, width: nat)
    requires m < Pow10(width) && n < Pow10(width)
    ensures TextLess(Padded(m, width), Padded(n, width)) <==> m < n
    ensures Padded(m, width) == Padded(n, width) <==> m == n
  {
    if width > 0 {
      PaddedOrder(m / 10, n / 10, width - 1);
      var p, q, x, y := Padded(m / 10, width - 1), Padded(n / 10, width - 1), [Digit(m % 10)], [Digit(n % 10)];
      EqualWidthOrder(p, q, x, y);
      assert (p + x)[..width - 1] == p && (q + y)[..width - 1] == q;
      assert (p + x)[width - 1] == x[0] && (q + y)[width - 1] == y[0];
    }
  }

  // One zero-padded field, then the rest.
  lemma FieldOrder(m: nat, n: nat, width: nat, a: string, b: string)
    requires m < Pow10(width) && n < Pow10(width)
    ensures TextLess(Padded(m, width) + a, Padded(n, width) + b) <==> m < n || (m == n && TextLess(a, b))
  {
    PaddedOrder(m, n, width);
    EqualWidthOrder(Padded(m, width), Padded(n, width), a, b);
  }

  lemma MarkOrder(mark: string, a: string, b: string)
    ensures TextLess(mark + a, mark + b) <==> TextLess(a, b)
  {
    EqualWidthOrder(mark, mark, a, b);
    NotLessThanItself(mark);
  }

  lemma {:induction false} NotLessThanItself(a: string)
    ensures !TextLess(a, a)
  {
    if a != "" {
      NotLessThanItself(a[1..]);
    }
  }

  predicate Earlier(a: Stamp, b: Stamp) {
    a.year < b.year || (a.year == b.year && (a.month < b.month || (a.month == b.month && (a.day < b.day || (a.day == b.day
    && (a.hour < b.hour || (a.hour == b.hour && (a.minute < b.minute || (a.minute == b.minute && a.second < b.second)))))))))
  }

  lemma TextOrderIsFieldOrder(a: Stamp, b: Stamp)
    requires Valid(a) && Valid(b)
    ensures TextLess(Text(a), Text(b)) <==> Earlier(a, b)
  {
    assert Pow10(2) == 100 && Pow10(4) == 10000 by { assert Pow10(3) == 10 * Pow10(2); }
    var a6, b6 := Padded(a.second, 2) + "Z", Padded(b.second, 2) + "Z";
    var a5, b5 := Padded(a.minute, 2) + (":" + a6), Padded(b.minute, 2) + (":" + b6);
    var a4, b4 := Padded(a.hour, 2) + (":" + a5), Padded(b.hour, 2) + (":" + b5);
    var a3, b3 := Padded(a.day, 2) + ("T" + a4), Padded(b.day, 2) + ("T" + b4);
    var a2, b2 := Padded(a.month, 2) + ("-" + a3), Padded(b.month, 2) + ("-" + b3);
    FieldOrder(a.second, b.second, 2, "Z", "Z");
    NotLessThanItself("Z");
    MarkOrder(":", a6, b6);
    FieldOrder(a.minute, b.minute, 2, ":" + a6, ":" + b6);
    MarkOrder(":", a5, b5);
    FieldOrder(a.hour, b.hour, 2, ":" + a5, ":" + b5);
    MarkOrder("T", a4, b4);
    FieldOrder(a.day, b.day, 2, "T" + a4, "T" + b4);
    MarkOrder("-", a3, b3);
    FieldOrder(a.month, b.month, 2, "-" + a3, "-" + b3);
    MarkOrder("-", a2, b2);
    FieldOrder(a.year, b.year, 4, "-" + a2, "-" + b2);
  }

  // ---- the calendar ------------------------------------------------------------------

  function DaysInYear(y: nat): nat { if LeapYear(y) then 366 else 365 }

  lemma LeapYearsAddUp(y: nat)
    requires y >= 1
    ensures y / 4 - (y - 1) / 4 == if y % 4 == 0 then 1 else 0
    ensures y / 100 - (y - 1) / 100 == if y % 100 == 0 then 1 else 0
    ensures y / 400 - (y - 1) / 400 == if y % 400 == 0 then 1 else 0
  {
  }

  lemma CenturiesAreMultiplesOfFour(y: nat)
    ensures y % 100 == 0 ==> y % 4 == 0
    ensures y % 400 == 0 ==> y % 100 == 0
  {
    if y % 100 == 0 {
      assert 4 * (25 * (y / 100) - y / 4) == y % 4;
    }
    if y % 400 == 0 {
      assert 100 * (4 * (y / 400) - y / 100) == y % 100;
    }
  }

  lemma YearLength(y: nat)
    requires y >= 1
    ensures DaysBeforeYear(y + 1) == DaysBeforeYear(y) + DaysInYear(y)
  {
    LeapYearsAddUp(y);
    CenturiesAreMultiplesOfFour(y);
  }

  lemma {:induction false} EarlierYears(y: nat, y': nat)
    requires 1 <= y < y'
    ensures DaysBeforeYear(y) + DaysInYear(y) <= DaysBeforeYear(y')
    decreases y'
  {
    YearLength(y' - 1);
    if y < y' - 1 {
      EarlierYears(y, y' - 1);
    }
  }

  lemma {:induction false} EarlierMonths(y: nat, m: nat, m': nat)
    requires 1 <= m < m'
    ensures DaysBeforeMonth(y, m) + DaysInMonth(y, m) <= DaysBeforeMonth(y, m')
    decreases m'
  {
    if m < m' - 1 {
      EarlierMonths(y, m, m' - 1);
    }
  }

  lemma YearIsTwelveMonths(y: nat)
    ensures DaysBeforeMonth(y, 13) == DaysInYear(y)
  {
    assert DaysBeforeMonth(y, 2) == 31;
    assert DaysBeforeMonth(y, 3) == 31 + DaysInMonth(y, 2);
    assert DaysBeforeMonth(y, 5) == DaysBeforeMonth(y, 3) + 61;
    assert DaysBeforeMonth(y, 7) == DaysBeforeMonth(y, 5) + 61;
    assert DaysBeforeMonth(y, 9) == DaysBeforeMonth(y, 7) + 62;
    assert DaysBeforeMonth(y, 11) == DaysBeforeMonth(y, 9) + 61;
    assert DaysBeforeMonth(y, 13) == DaysBeforeMonth(y, 11) + 61;
  }

  lemma EarlierDays(a: Stamp, b: Stamp)
    requires Valid(a) && Valid(b)
    requires a.year < b.year || (a.year == b.year && (a.month < b.month || (a.month == b.month && a.day < b.day)))
    ensures Days(a) < Days(b)
  {
    if a.year < b.year {
      EarlierYears(a.year, b.year);
      YearIsTwelveMonths(a.year);
      EarlierMonths(a.year, a.month, 13);
    } else if a.month < b.month {
      EarlierMonths(a.year, a.month, b.month);
    }
  }

  lemma EarlierInstant(a: Stamp, b: Stamp)
    requires Valid(a) && Valid(b) && Earlier(a, b)
    ensures Instant(a) < Instant(b)
  {
    if a.year != b.year || a.month != b.month || a.day != b.day {
      EarlierDays(a, b);
    }
  }

  // Comparing the texts is comparing the instants.
  lemma TextOrderIsTimeOrder(a: Stamp, b: Stamp)
    requires Valid(a) && Valid(b)
    ensures TextLess(Text(a), Text(b)) <==> Instant(a) < Instant(b)
    ensures TextAtMost(Text(a), Text(b)) <==> Instant(a) <= Instant(b)
    ensures Text(a) == Text(b) <==> a == b
  {
    TextOrderIsFieldOrder(a, b);
    TextOrderIsFieldOrder(b, a);
    if Earlier(a, b) { EarlierInstant(a, b); } else if Earlier(b, a) { EarlierInstant(b, a); } else { assert a == b; }
    NotLessThanItself(Text(a));
  }

  // ---- add_seconds -------------------------------------------------------------------

  // One second later, with carries; None past the last representable second.
  function NextSecond(s: Stamp): Option<Stamp> {
    if s.second < 59 then Some(s.(second := s.second + 1))
    else if s.minute < 59 then Some(s.(second := 0, minute := s.minute + 1))
    else if s.hour < 23 then Some(s.(second := 0, minute := 0, hour := s.hour + 1))
    else if s.day < DaysInMonth(s.year, s.month) then Some(Stamp(s.year, s.month, s.day + 1, 0, 0, 0))
    else if s.month < 12 then Some(Stamp(s.year, s.month + 1, 1, 0, 0, 0))
    else if s.year < 9999 then Some(Stamp(s.year + 1, 1, 1, 0, 0, 0))
    else None
  }

  function AddSeconds(s: Stamp, seconds: nat): Option<Stamp> {
    if seconds == 0 then Some(s)
    else
      match AddSeconds(s, seconds - 1)
      case None => None
      case Some(t) => NextSecond(t)
  }

  lemma NextDayIsNext(s: Stamp)
    requires Valid(s) && s.second == 59 && s.minute == 59 && s.hour == 23
    ensures NextSecond(s).Some? ==> Valid(NextSecond(s).value) && Days(NextSecond(s).value) == Days(s) + 1
    ensures NextSecond(s).None? ==> s == Stamp(9999, 12, 31, 23, 59, 59)
  {
    if s.day == DaysInMonth(s.year, s.month) && s.month == 12 {
      YearIsTwelveMonths(s.year);
      YearLength(s.year);
    }
  }

  lemma NextSecondIsNext(s: Stamp)
    requires Valid(s)
    ensures NextSecond(s).Some? ==> Valid(NextSecond(s).value) && Instant(NextSecond(s).value) == Instant(s) + 1
    ensures NextSecond(s).None? ==> s == Stamp(9999, 12, 31, 23, 59, 59)
  {
    hide DaysBeforeYear, DaysBeforeMonth, DaysInMonth;
    if s.second == 59 && s.minute == 59 && s.hour == 23 {
      NextDayIsNext(s);
    }
  }

  lemma {:induction false} AddSecondsAddsUp(s: Stamp, seconds: nat)
    requires Valid(s)
    ensures AddSeconds(s, seconds).Some? ==>
              Valid(AddSeconds(s, seconds).value) && Instant(AddSeconds(s, seconds).value) == Instant(s) + seconds
    ensures AddSeconds(s, seconds).None? ==> Instant(s) + seconds > Instant(Stamp(9999, 12, 31, 23, 59, 59))
  {
    hide Instant, Valid, NextSecond;
    if seconds > 0 {
      AddSecondsAddsUp(s, seconds - 1);
      if AddSeconds(s, seconds - 1).Some? {
        NextSecondIsNext(AddSeconds(s, seconds - 1).value);
      }
    }
  }

  // The SQL expiry test on texts, `locked_until <= now` with
  // `locked_until = add_seconds(claimed, lease)`, is the test on instants.
  lemma ExpiryTestOnTexts(claimed: Stamp, lease: nat, now: Stamp)
    requires Valid(claimed) && Valid(now) && AddSeconds(claimed, lease).Some?
    ensures TextAtMost(Text(AddSeconds(claimed, lease).value), Text(now)) <==> Instant(claimed) + lease <= Instant(now)
  {
    AddSecondsAddsUp(claimed, lease);
    TextOrderIsTimeOrder(AddSeconds(claimed, lease).value, now);
  }
}
