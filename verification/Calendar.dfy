/** The three-month boundary of the order-history query and its YYYYMMDD comparison (kis.py). */
module Calendar {
  import opened Strings

  const BOUNDARY_MONTHS := 3

  datatype Date = Date(year: nat, month: nat, day: nat)

  predicate Leap(year: nat) { year % 4 == 0 && (year % 100 != 0 || year % 400 == 0) }

  function MonthLength(year: nat, month: nat): nat
  {
    if month == 2 then if Leap(year) then 29 else 28
    else if month in {4, 6, 9, 11} then 30 else 31
  }

  /** A date of the Gregorian calendar that Python's `datetime` can hold. */
  predicate Valid(d: Date)
  {
    1 <= d.year <= 9999 && 1 <= d.month <= 12 && 1 <= d.day <= MonthLength(d.year, d.month)
  }

  predicate Earlier(a: Date, b: Date)
  {
    a.year < b.year || (a.year == b.year && (a.month < b.month || (a.month == b.month && a.day < b.day)))
  }

  function Cutoff(today: Date): Date
    requires Valid(today)
  {
    var total := today.year * 12 + (today.month - 1) - BOUNDARY_MONTHS;
    var year, month := total / 12, total % 12 + 1;
    var lastDay := MonthLength(year, month);
    Date(year, month, if today.day < lastDay then today.day else lastDay)
  }

  // ---------------------------------------------------------------- counting days

  function DaysBeforeYear(year: nat): nat
  {
    if year <= 1 then 0 else DaysBeforeYear(year - 1) + if Leap(year - 1) then 366 else 365
  }

  function DaysBeforeMonth(year: nat, month: nat): nat
  {
    if month <= 1 then 0 else DaysBeforeMonth(year, month - 1) + MonthLength(year, month - 1)
  }

  /** The number of days from 1 January of year 1. */
  function Ordinal(d: Date): nat { DaysBeforeYear(d.year) + DaysBeforeMonth(d.year, d.month) + d.day }

  /** Leap years are every fourth but for three centuries out of four. */
  lemma {:induction false} DaysBeforeYearIs(year: nat)
    requires year >= 1
    ensures var y := year - 1; DaysBeforeYear(year) == 365 * y + y / 4 - y / 100 + y / 400
  {
    if year > 1 {
      DaysBeforeYearIs(year - 1);
      Quotients(year - 1);
    }
  }

  lemma Quotients(n: nat)
    requires n >= 1
    ensures n / 4 == (n - 1) / 4 + (if n % 4 == 0 then 1 else 0)
    ensures n / 100 == (n - 1) / 100 + (if n % 100 == 0 then 1 else 0)
    ensures n / 400 == (n - 1) / 400 + (if n % 400 == 0 then 1 else 0)
    ensures n % 400 == 0 ==> n % 100 == 0
    ensures n % 100 == 0 ==> n % 4 == 0
  {
  }

  lemma MonthTable(year: nat)
    ensures var leap := if Leap(year) then 1 else 0;
            && DaysBeforeMonth(year, 1) == 0 && DaysBeforeMonth(year, 2) == 31
            && DaysBeforeMonth(year, 3) == 59 + leap && DaysBeforeMonth(year, 4) == 90 + leap
            && DaysBeforeMonth(year, 5) == 120 + leap && DaysBeforeMonth(year, 6) == 151 + leap
            && DaysBeforeMonth(year, 7) == 181 + leap && DaysBeforeMonth(year, 8) == 212 + leap
            && DaysBeforeMonth(year, 9) == 243 + leap && DaysBeforeMonth(year, 10) == 273 + leap
            && DaysBeforeMonth(year, 11) == 304 + leap && DaysBeforeMonth(year, 12) == 334 + leap
  {
    assert DaysBeforeMonth(year, 4) == DaysBeforeMonth(year, 3) + 31;
    assert DaysBeforeMonth(year, 7) == DaysBeforeMonth(year, 6) + 30;
    assert DaysBeforeMonth(year, 10) == DaysBeforeMonth(year, 9) + 30;
  }

  lemma {:induction false} YearsGrow(a: nat, b: nat)
    requires 1 <= a < b
    ensures DaysBeforeYear(a) + (if Leap(a) then 366 else 365) <= DaysBeforeYear(b)
  {
    if a < b - 1 { YearsGrow(a, b - 1); }
  }

  /** Counting days orders the dates the way the calendar does. */
  lemma OrdinalOrders(a: Date, b: Date)
    requires Valid(a) && Valid(b)
    ensures Earlier(a, b) <==> Ordinal(a) < Ordinal(b)
  {
    MonthTable(a.year);
    MonthTable(b.year);
    if a.year < b.year { YearsGrow(a.year, b.year); }
    if b.year < a.year { YearsGrow(b.year, a.year); }
  }

  // ---------------------------------------------------------------- the cutoff

  /** Three months back on the same day, or on the last day of a month too short to have it. */
  lemma CutoffIsThreeMonthsBack(today: Date)
    requires Valid(today)
    ensures var c := Cutoff(today);
            && today.year * 12 + today.month == c.year * 12 + c.month + 3
            && (if today.day <= MonthLength(c.year, c.month) then c.day == today.day
                else c.day == MonthLength(c.year, c.month))
            && (Valid(c) <==> today.year >= 2 || today.month >= 4)
  {
    var total := today.year * 12 + (today.month - 1) - BOUNDARY_MONTHS;
    assert total == total / 12 * 12 + total % 12;
  }

  /** From the first of `month` to the first of the third month after it. */
  function Span(year: nat, month: nat): nat
  {
    MonthLength(year, month) + LengthFrom(year, month + 1) + LengthFrom(year, month + 2)
  }

  /** The length of a month that may lie in the following year. */
  function LengthFrom(year: nat, month: nat): nat
  {
    if month <= 12 then MonthLength(year, month) else MonthLength(year + 1, month - 12)
  }

  lemma SpanWithinYear(year: nat, month: nat)
    requires 1 <= month <= 9
    ensures DaysBeforeMonth(year, month + 3) == DaysBeforeMonth(year, month) + Span(year, month)
  {
    assert DaysBeforeMonth(year, month + 2) == DaysBeforeMonth(year, month + 1) + MonthLength(year, month + 1);
  }

  lemma SpanAcrossYears(year: nat, month: nat)
    requires 1 <= year && 10 <= month <= 12
    ensures DaysBeforeYear(year + 1) + DaysBeforeMonth(year + 1, month - 9)
            == DaysBeforeYear(year) + DaysBeforeMonth(year, month) + Span(year, month)
  {
    MonthTable(year);
    MonthTable(year + 1);
  }

  /** Between 89 and 92 days before today, both bounds included. */
  lemma CutoffDistance(today: Date)
    requires Valid(today) && Valid(Cutoff(today))
    ensures Ordinal(today) - 92 <= Ordinal(Cutoff(today)) <= Ordinal(today) - 89
  {
    CutoffIsThreeMonthsBack(today);
    var c := Cutoff(today);
    OrdinalsApart(today, c);
    SpanBounds(c.year, c.month);
  }

  /** Two days three calendar months apart lie a span and the difference of their days apart. */
  lemma OrdinalsApart(today: Date, c: Date)
    requires Valid(today) && Valid(c) && today.year * 12 + today.month == c.year * 12 + c.month + 3
    ensures Ordinal(today) - Ordinal(c) == Span(c.year, c.month) + today.day - c.day
  {
    if c.month <= 9 {
      SpanWithinYear(c.year, c.month);
      assert today.year == c.year && today.month == c.month + 3;
    } else {
      SpanAcrossYears(c.year, c.month);
      assert today.year == c.year + 1 && today.month == c.month - 9;
    }
  }

  /** Three months in a row, and what the third of them may be short of the fourth. */
  lemma SpanBounds(year: nat, month: nat)
    requires 1 <= month <= 12
    ensures 89 <= Span(year, month) <= 92
    ensures Span(year, month) + LengthFrom(year, month + 3) - MonthLength(year, month) <= 92
  {
  }

  /** A later day never has an earlier cutoff. */
  lemma CutoffMonotone(a: Date, b: Date)
    requires Valid(a) && Valid(b) && !Earlier(b, a)
    ensures !Earlier(Cutoff(b), Cutoff(a))
  {
    CutoffIsThreeMonthsBack(a);
    CutoffIsThreeMonthsBack(b);
  }

  // ---------------------------------------------------------------- dates as strings

  function Pow10(w: nat): nat { if w == 0 then 1 else 10 * Pow10(w - 1) }

  function Digit(k: nat): char
    requires k < 10
  {
    ('0' as int + k) as char
  }

  predicate Digits(s: string) { forall i :: 0 <= i < |s| ==> '0' <= s[i] <= '9' }

  /** Zero-padded decimal. */
  function Padded(n: nat, w: nat): string
  {
    if w == 0 then "" else Padded(n / 10, w - 1) + [Digit(n % 10)]
  }

  function Number(s: string): nat
    requires Digits(s)
  {
    if s == "" then 0 else Number(s[..|s| - 1]) * 10 + (s[|s| - 1] as int - '0' as int)
  }

  function Format(d: Date): string { Padded(d.year, 4) + Padded(d.month, 2) + Padded(d.day, 2) }

  function Parse(s: string): Date
    requires |s| >= 8 && Digits(s)
  {
    Date(Number(s[..4]), Number(s[4..6]), Number(s[6..8]))
  }

  lemma {:induction false} PaddedDigits(n: nat, w: nat)
    ensures |Padded(n, w)| == w && Digits(Padded(n, w))
  {
    if w > 0 { PaddedDigits(n / 10, w - 1); }
  }

  lemma {:induction false} NumberOfPadded(n: nat, w: nat)
    requires n < Pow10(w)
    ensures Digits(Padded(n, w)) && Number(Padded(n, w)) == n
  {
    PaddedDigits(n, w);
    if w > 0 {
      NumberOfPadded(n / 10, w - 1);
      assert Padded(n, w)[..w - 1] == Padded(n / 10, w - 1);
    }
  }

  lemma {:induction false} LessConcat(a: string, b: string, c: string, d: string)
    requires |a| == |b|
    ensures Less(a + c, b + d) <==> Less(a, b) || (a == b && Less(c, d))
  {
    if a == "" {
      assert a + c == c && b + d == d;
    } else {
      LessConcat(a[1..], b[1..], c, d);
      assert (a + c)[1..] == a[1..] + c && (b + d)[1..] == b[1..] + d;
      assert a == b <==> a[0] == b[0] && a[1..] == b[1..] by {
        assert a == [a[0]] + a[1..] && b == [b[0]] + b[1..];
      }
    }
  }

  lemma {:induction false} PaddedOrder(n: nat, m: nat, w: nat)
    requires n < Pow10(w) && m < Pow10(w)
    ensures Less(Padded(n, w), Padded(m, w)) <==> n < m
    ensures Padded(n, w) == Padded(m, w) <==> n == m
  {
    if w > 0 {
      PaddedOrder(n / 10, m / 10, w - 1);
      PaddedDigits(n / 10, w - 1);
      PaddedDigits(m / 10, w - 1);
      LessConcat(Padded(n / 10, w - 1), Padded(m / 10, w - 1), [Digit(n % 10)], [Digit(m % 10)]);
      assert Padded(n, w)[..w - 1] == Padded(n / 10, w - 1) && Padded(m, w)[..w - 1] == Padded(m / 10, w - 1);
      assert Padded(n, w)[w - 1] == Digit(n % 10) && Padded(m, w)[w - 1] == Digit(m % 10);
      LastDigit(n, m);
    }
  }

  lemma LastDigit(n: nat, m: nat)
    ensures Less([Digit(n % 10)], [Digit(m % 10)]) <==> n % 10 < m % 10
    ensures Digit(n % 10) == Digit(m % 10) <==> n % 10 == m % 10
    ensures n < m <==> n / 10 < m / 10 || (n / 10 == m / 10 && n % 10 < m % 10)
    ensures n == m <==> n / 10 == m / 10 && n % 10 == m % 10
  {
    assert n == n / 10 * 10 + n % 10 && m == m / 10 * 10 + m % 10;
  }

  lemma Powers()
    ensures Pow10(2) == 100 && Pow10(4) == 10000
  {
    assert Pow10(2) == 10 * Pow10(1) && Pow10(4) == 10 * Pow10(3);
  }

  /** A formatted date reads back as itself. */
  lemma ParseFormat(d: Date)
    requires Valid(d)
    ensures |Format(d)| == 8 && Digits(Format(d)) && Parse(Format(d)) == d
  {
    Powers();
    NumberOfPadded(d.year, 4);
    NumberOfPadded(d.month, 2);
    NumberOfPadded(d.day, 2);
    PaddedDigits(d.year, 4);
    PaddedDigits(d.month, 2);
    PaddedDigits(d.day, 2);
    ThreePieces(Padded(d.year, 4), Padded(d.month, 2), Padded(d.day, 2));
  }

  /** The pieces of a formatted date are found again. */
  lemma ThreePieces(a: string, b: string, c: string)
    requires |a| == 4 && |b| == |c| == 2 && Digits(a) && Digits(b) && Digits(c)
    ensures var s := a + b + c; |s| == 8 && Digits(s) && s[..4] == a && s[4..6] == b && s[6..8] == c
  {
  }

  /** Comparing the strings compares the dates. */
  lemma FormatOrders(a: Date, b: Date)
    requires Valid(a) && Valid(b)
    ensures Less(Format(a), Format(b)) <==> Earlier(a, b)
    ensures Format(a) == Format(b) <==> a == b
  {
    Powers();
    PaddedDigits(a.year, 4);
    PaddedDigits(b.year, 4);
    PaddedDigits(a.month, 2);
    PaddedDigits(b.month, 2);
    PaddedOrder(a.year, b.year, 4);
    PaddedOrder(a.month, b.month, 2);
    PaddedOrder(a.day, b.day, 2);
    LessConcat(Padded(a.year, 4), Padded(b.year, 4), Padded(a.month, 2), Padded(b.month, 2));
    LessConcat(Padded(a.year, 4) + Padded(a.month, 2), Padded(b.year, 4) + Padded(b.month, 2),
               Padded(a.day, 2), Padded(b.day, 2));
    ParseFormat(a);
    ParseFormat(b);
    SamePieces(Padded(a.year, 4), Padded(b.year, 4), Padded(a.month, 2), Padded(b.month, 2));
  }

  lemma SamePieces(a: string, b: string, c: string, d: string)
    requires |a| == |b| && |c| == |d|
    ensures a + c == b + d <==> a == b && c == d
  {
    if a + c == b + d {
      assert a == (a + c)[..|a|] && b == (b + d)[..|b|] && c == (a + c)[|a|..] && d == (b + d)[|b|..];
    }
  }

  function CcldThreeMonthCutoff(today: string): string
    requires |today| >= 8 && Digits(today) && Valid(Parse(today))
  {
    Format(Cutoff(Parse(today)))
  }

  /** Whether the query uses the recent ledger: `start >= cutoff` on strings. */
  predicate IsInner(start: string, today: string)
    requires |today| >= 8 && Digits(today) && Valid(Parse(today))
  {
    AtMost(CcldThreeMonthCutoff(today), start)
  }

  /** The string comparison of the query decides exactly "not earlier than three months before today". */
  lemma BoundaryIsTheDateComparison(start: Date, today: Date)
    requires Valid(start) && Valid(today) && Valid(Cutoff(today))
    ensures |Format(today)| == 8 && Digits(Format(today)) && Parse(Format(today)) == today
    ensures IsInner(Format(start), Format(today)) <==> Ordinal(Cutoff(today)) <= Ordinal(start)
  {
    ParseFormat(today);
    CutoffIsThreeMonthsBack(today);
    FormatOrders(Cutoff(today), start);
    OrdinalOrders(start, Cutoff(today));
    OrdinalOrders(Cutoff(today), start);
    assert start == Cutoff(today) || Earlier(start, Cutoff(today)) || Earlier(Cutoff(today), start);
  }
}
