/**
 * Calendar dates as the cleaned `Date` column holds them, their order, and
 * the `Month` helper label (`to_period("M").astype(str)`, "YYYY-MM").
 */
module Calendar {
  import opened Text

  datatype Date = Date(year: int, month: int, day: int)

  predicate IsLeapYear(y: int) {
    y % 4 == 0 && (y % 100 != 0 || y % 400 == 0)
  }

  function DaysInMonth(y: int, m: int): int
    requires 1 <= m <= 12
  {
    if m == 2 then (if IsLeapYear(y) then 29 else 28)
    else if m == 4 || m == 6 || m == 9 || m == 11 then 30
    else 31
  }

  /** A real day of the proleptic Gregorian calendar with a four-digit year. */
  predicate ValidDate(d: Date) {
    && 1 <= d.year <= 9999
    && 1 <= d.month <= 12
    && 1 <= d.day <= DaysInMonth(d.year, d.month)
  }

  type CalendarDate = d: Date | ValidDate(d) witness Date(1970, 1, 1)

  /** Calendar order: `a` is the same day as `b` or an earlier one. */
  predicate OnOrBefore(a: CalendarDate, b: CalendarDate) {
    || a.year < b.year
    || (a.year == b.year && a.month < b.month)
    || (a.year == b.year && a.month == b.month && a.day <= b.day)
  }

  /** An integer that orders dates as the calendar does (yyyymmdd). */
  function Ordinal(d: CalendarDate): int {
    d.year * 10000 + d.month * 100 + d.day
  }

  /** The ordinal is faithful to calendar order and tells dates apart. */
  lemma OrdinalOrder(a: CalendarDate, b: CalendarDate)
    ensures Ordinal(a) <= Ordinal(b) <==> OnOrBefore(a, b)
    ensures Ordinal(a) == Ordinal(b) <==> a == b
  {
    var mdA, mdB := a.month * 100 + a.day, b.month * 100 + b.day;
    assert 0 < mdA < 10000 && 0 < mdB < 10000;
    if a.year < b.year {
      assert a.year * 10000 + 10000 <= b.year * 10000;
    } else if a.year > b.year {
      assert b.year * 10000 + 10000 <= a.year * 10000;
    } else if a.month < b.month {
      assert a.month * 100 + 100 <= b.month * 100;
    } else if a.month > b.month {
      assert b.month * 100 + 100 <= a.month * 100;
    }
  }

  /** `n` in decimal, left-padded with zeros to at least `width` characters. */
  function ZeroPadded(n: nat, width: nat): (s: string)
    ensures |s| == if |Digits(n)| < width then width else |Digits(n)|
    ensures forall i :: 0 <= i < |s| ==> IsDigit(s[i])
  {
    var d := Digits(n);
    if |d| < width then seq(width - |d|, _ => '0') + d else d
  }

  /** Leading zeros do not change the value of a digit string. */
  lemma {:induction false} LeadingZerosValue(k: nat, d: string)
    requires forall i :: 0 <= i < |d| ==> IsDigit(d[i])
    ensures var z := seq(k, _ => '0') + d;
      (forall i :: 0 <= i < |z| ==> IsDigit(z[i])) && DigitsValue(z) == DigitsValue(d)
    decreases |d|
  {
    var z := seq(k, _ => '0') + d;
    if d == [] {
      assert z == seq(k, _ => '0');
      ZerosValue(k);
    } else {
      var d' := d[..|d| - 1];
      assert z[..|z| - 1] == seq(k, _ => '0') + d';
      LeadingZerosValue(k, d');
    }
  }

  lemma {:induction false} ZerosValue(k: nat)
    ensures DigitsValue(seq(k, _ => '0')) == 0
  {
    if k > 0 {
      assert seq(k, _ => '0')[..k - 1] == seq(k - 1, _ => '0');
      ZerosValue(k - 1);
    }
  }

  lemma ZeroPaddedValue(n: nat, width: nat)
    ensures DigitsValue(ZeroPadded(n, width)) == n
  {
    DigitsValueOfDigits(n);
    if |Digits(n)| < width {
      LeadingZerosValue(width - |Digits(n)|, Digits(n));
    }
  }

  function Pow10(k: nat): nat {
    if k == 0 then 1 else 10 * Pow10(k - 1)
  }

  /** A number below 10^k has at most k digits. */
  lemma {:induction false} DigitsLength(n: nat, k: nat)
    requires 1 <= k && n < Pow10(k)
    ensures |Digits(n)| <= k
  {
    if n >= 10 {
      DigitsLength(n / 10, k - 1);
    }
  }

  /**
   * The `Month` helper column: "YYYY-MM", the year as four digits and the
   * month as two, zero-padded.
   */
  function MonthLabel(d: CalendarDate): (s: string)
    ensures |s| == 7 && s[4] == '-'
    ensures forall i :: 0 <= i < 7 && i != 4 ==> IsDigit(s[i])
  {
    DigitsLength(d.year, 4);
    DigitsLength(d.month, 2);
    ZeroPadded(d.year, 4) + "-" + ZeroPadded(d.month, 2)
  }

  /** The label names exactly the year and the month of the date. */
  lemma MonthLabelReadsBack(d: CalendarDate)
    ensures var s := MonthLabel(d);
      (forall i :: 0 <= i < 4 ==> IsDigit(s[i])) && (forall i :: 5 <= i < 7 ==> IsDigit(s[i]))
    ensures DigitsValue(MonthLabel(d)[..4]) == d.year
    ensures DigitsValue(MonthLabel(d)[5..]) == d.month
  {
    var s := MonthLabel(d);
    assert s[..4] == ZeroPadded(d.year, 4);
    assert s[5..] == ZeroPadded(d.month, 2);
    ZeroPaddedValue(d.year, 4);
    ZeroPaddedValue(d.month, 2);
  }
}
