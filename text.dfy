/**
 * Text helpers used by the cleaning stage and the KPI formatting:
 * whitespace stripping as Python's `str.strip()` does it, and the
 * thousands-separated rendering of an integer (`f"{n:,}"`).
 */
module Text {

  /** The characters Python's `str.strip()` removes (those for which `str.isspace()` holds). */
  predicate IsSpace(c: char) {
    || '\t' <= c <= '\r'
    || '\U{1C}' <= c <= '\U{1F}'
    || c == ' '
    || c == '\U{85}'
    || c == '\U{A0}'
    || c == '\U{1680}'
    || '\U{2000}' <= c <= '\U{200A}'
    || c == '\U{2028}'
    || c == '\U{2029}'
    || c == '\U{202F}'
    || c == '\U{205F}'
    || c == '\U{3000}'
  }

  /** True when `s` neither starts nor ends with whitespace. */
  predicate Trimmed(s: string) {
    s == [] || (!IsSpace(s[0]) && !IsSpace(s[|s| - 1]))
  }

  /** The number of whitespace characters at the start of `s`. */
  function LeadingSpaces(s: string): (k: nat)
    ensures k <= |s|
    ensures forall i :: 0 <= i < k ==> IsSpace(s[i])
    ensures k < |s| ==> !IsSpace(s[k])
  {
    if s != [] && IsSpace(s[0]) then 1 + LeadingSpaces(s[1..]) else 0
  }

  /** The number of whitespace characters at the end of `s`. */
  function TrailingSpaces(s: string): (k: nat)
    ensures k <= |s|
    ensures forall i :: |s| - k <= i < |s| ==> IsSpace(s[i])
    ensures k < |s| ==> !IsSpace(s[|s| - 1 - k])
  {
    if s != [] && IsSpace(s[|s| - 1]) then 1 + TrailingSpaces(s[..|s| - 1]) else 0
  }

  /** `s.strip()`: `s` without its leading and trailing whitespace. */
  function Strip(s: string): string {
    var t := s[LeadingSpaces(s)..];
    t[..|t| - TrailingSpaces(t)]
  }

  /**
   * What `Strip` computes: a contiguous piece of `s` that is trimmed, and
   * everything cut off on either side is whitespace.
   */
  lemma StripSpec(s: string)
    ensures Trimmed(Strip(s))
    ensures exists a, b :: 0 <= a <= b <= |s| && Strip(s) == s[a..b]
              && (forall i :: 0 <= i < a ==> IsSpace(s[i]))
              && (forall i :: b <= i < |s| ==> IsSpace(s[i]))
  {
    var a := LeadingSpaces(s);
    var t := s[a..];
    var b := a + |t| - TrailingSpaces(t);
    assert Strip(s) == s[a..b];
    if Strip(s) != [] {
      assert s[a] == t[0];
    }
  }

  /** A string without surrounding whitespace is left alone. */
  lemma StripTrimmed(s: string)
    requires Trimmed(s)
    ensures Strip(s) == s
  {
    assert LeadingSpaces(s) == 0;
    assert TrailingSpaces(s) == 0;
  }

  /** Stripping twice is stripping once. */
  lemma StripIdempotent(s: string)
    ensures Strip(Strip(s)) == Strip(s)
  {
    StripSpec(s);
    StripTrimmed(Strip(s));
  }

  // ---------------------------------------------------------------------
  // Integers with thousands separators, as Python's `f"{n:,}"`.
  // ---------------------------------------------------------------------

  predicate IsDigit(c: char) {
    '0' <= c <= '9'
  }

  /** The decimal digits of `n`, most significant first, without leading zeros. */
  function Digits(n: nat): (d: string)
    ensures |d| >= 1
    ensures forall i :: 0 <= i < |d| ==> IsDigit(d[i])
    ensures |d| > 1 ==> d[0] != '0'
  {
    if n < 10 then [('0' as int + n) as char]
    else Digits(n / 10) + [('0' as int + n % 10) as char]
  }

  /** The number a string of decimal digits denotes. */
  function DigitsValue(d: string): nat
    requires forall i :: 0 <= i < |d| ==> IsDigit(d[i])
  {
    if d == [] then 0
    else
      assert IsDigit(d[|d| - 1]);
      10 * DigitsValue(d[..|d| - 1]) + (d[|d| - 1] as int - '0' as int)
  }

  /** A digit string with a comma inserted before every third digit counted from the right. */
  function Grouped(d: string): string
    decreases |d|
  {
    if |d| <= 3 then d else Grouped(d[..|d| - 3]) + "," + d[|d| - 3..]
  }

  /** The characters a formatted integer is made of: digits, commas and a leading minus sign. */
  predicate Numeral(s: string) {
    forall i :: 0 <= i < |s| ==> IsDigit(s[i]) || s[i] == ',' || (i == 0 && s[i] == '-')
  }

  /** `f"{n:,}"`: the decimal rendering of `n` with a comma between groups of three digits. */
  function FormatThousands(n: int): (s: string)
    ensures Numeral(s)
  {
    var m: nat := if n < 0 then -n else n;
    GroupedShape(Digits(m));
    if n < 0 then "-" + Grouped(Digits(m)) else Grouped(Digits(m))
  }

  /** `s` with its commas removed. */
  function WithoutCommas(s: string): string {
    if s == [] then []
    else WithoutCommas(s[..|s| - 1]) + (if s[|s| - 1] == ',' then [] else [s[|s| - 1]])
  }

  /**
   * The shape of a grouped number: non-empty, every other character a digit,
   * and a comma exactly where the rest of the string (the comma included)
   * has a length divisible by four, so that every group after the first has
   * three digits and the first has one to three.
   */
  predicate WellGrouped(s: string) {
    && |s| % 4 != 0
    && forall i :: 0 <= i < |s| ==> if (|s| - i) % 4 == 0 then s[i] == ',' else IsDigit(s[i])
  }

  lemma {:induction false} DigitsValueOfDigits(n: nat)
    ensures DigitsValue(Digits(n)) == n
  {
    if n >= 10 {
      var d := Digits(n);
      assert d[..|d| - 1] == Digits(n / 10);
      DigitsValueOfDigits(n / 10);
    }
  }

  lemma {:induction false} WithoutCommasAppend(a: string, b: string)
    ensures WithoutCommas(a + b) == WithoutCommas(a) + WithoutCommas(b)
    decreases |b|
  {
    if b == [] {
      assert a + b == a;
    } else {
      assert (a + b)[..|a + b| - 1] == a + b[..|b| - 1];
      WithoutCommasAppend(a, b[..|b| - 1]);
    }
  }

  lemma {:induction false} WithoutCommasOfDigits(d: string)
    requires forall i :: 0 <= i < |d| ==> IsDigit(d[i])
    ensures WithoutCommas(d) == d
    decreases |d|
  {
    if d != [] {
      assert d == d[..|d| - 1] + [d[|d| - 1]];
      WithoutCommasOfDigits(d[..|d| - 1]);
    }
  }

  /** Removing the separators gives the digits back. */
  lemma {:induction false} UngroupGrouped(d: string)
    requires forall i :: 0 <= i < |d| ==> IsDigit(d[i])
    ensures WithoutCommas(Grouped(d)) == d
    decreases |d|
  {
    if |d| <= 3 {
      WithoutCommasOfDigits(d);
    } else {
      var head, tail := d[..|d| - 3], d[|d| - 3..];
      var g := Grouped(head);
      assert Grouped(d) == g + "," + tail;
      UngroupGrouped(head);
      WithoutCommasAppend(g + ",", tail);
      WithoutCommasAppend(g, ",");
      WithoutCommasOfDigits(tail);
      assert WithoutCommas(",") == WithoutCommas([]) + [];
      calc {
        WithoutCommas(Grouped(d));
        WithoutCommas(g + ",") + WithoutCommas(tail);
        WithoutCommas(g) + WithoutCommas(",") + tail;
        head + tail;
        d;
      }
    }
  }

  lemma ModFourShift(a: int)
    ensures (a + 4) % 4 == a % 4
  {
  }

  lemma DivThreeShift(a: int)
    ensures (a + 3) / 3 == a / 3 + 1
  {
  }

  /** Grouping a digit string yields a well-grouped string of length |d| + (|d| - 1) / 3. */
  lemma {:induction false} GroupedShape(d: string)
    requires |d| >= 1
    requires forall i :: 0 <= i < |d| ==> IsDigit(d[i])
    ensures |Grouped(d)| == |d| + (|d| - 1) / 3
    ensures WellGrouped(Grouped(d))
    decreases |d|
  {
    if |d| > 3 {
      var head, tail := d[..|d| - 3], d[|d| - 3..];
      assert forall k :: 0 <= k < |head| ==> head[k] == d[k];
      assert forall k :: 0 <= k < |tail| ==> tail[k] == d[|d| - 3 + k];
      GroupedShape(head);
      var g := Grouped(head);
      assert Grouped(d) == g + "," + tail;
      DivThreeShift(|head| - 1);
      GroupedStep(g, tail);
    }
  }

  /** A well-grouped string, a comma and three digits form a well-grouped string. */
  lemma GroupedStep(g: string, tail: string)
    requires WellGrouped(g)
    requires |tail| == 3 && forall k :: 0 <= k < 3 ==> IsDigit(tail[k])
    ensures WellGrouped(g + "," + tail)
  {
    var s := g + "," + tail;
    assert |s| == |g| + 4;
    ModFourShift(|g|);
    forall i | 0 <= i < |s|
      ensures if (|s| - i) % 4 == 0 then s[i] == ',' else IsDigit(s[i])
    {
      if i < |g| {
        assert s[i] == g[i];
        ModFourShift(|g| - i);
      } else if i == |g| {
        assert |s| - i == 4;
      } else {
        assert s[i] == tail[i - |g| - 1];
        assert 0 < |s| - i < 4;
      }
    }
  }

  /** Reads back a string produced by `FormatThousands`. */
  function ParseThousands(s: string): int
    requires Numeral(s)
  {
    if s != [] && s[0] == '-' then -(NumberValue(s[1..]) as int) else NumberValue(s)
  }

  /** The value of a comma-grouped string of digits. */
  function NumberValue(s: string): nat
    requires forall i :: 0 <= i < |s| ==> IsDigit(s[i]) || s[i] == ','
  {
    WithoutCommasDigits(s);
    DigitsValue(WithoutCommas(s))
  }

  lemma {:induction false} WithoutCommasDigits(s: string)
    requires forall i :: 0 <= i < |s| ==> IsDigit(s[i]) || s[i] == ','
    ensures forall i :: 0 <= i < |WithoutCommas(s)| ==> IsDigit(WithoutCommas(s)[i])
    decreases |s|
  {
    if s != [] {
      WithoutCommasDigits(s[..|s| - 1]);
    }
  }

  /** Grouping keeps the leading digit in front. */
  lemma {:induction false} GroupedHead(d: string)
    requires |d| >= 1
    ensures |Grouped(d)| >= 1 && Grouped(d)[0] == d[0]
    decreases |d|
  {
    if |d| > 3 {
      GroupedHead(d[..|d| - 3]);
    }
  }

  /**
   * `f"{n:,}"` is well formed and loses nothing: it is an optional minus sign
   * followed by a well-grouped digit string with no leading zero, and
   * reading it back gives `n`.
   */
  lemma FormatThousandsSpec(n: int)
    ensures var s := FormatThousands(n);
      && (n < 0 <==> s[0] == '-')
      && WellGrouped(if n < 0 then s[1..] else s)
      && ParseThousands(s) == n
      && (var g := if n < 0 then s[1..] else s; |g| > 1 ==> g[0] != '0')
  {
    var m: nat := if n < 0 then -n else n;
    var g := Grouped(Digits(m));
    GroupedShape(Digits(m));
    GroupedHead(Digits(m));
    UngroupGrouped(Digits(m));
    DigitsValueOfDigits(m);
    var s := FormatThousands(n);
    if n < 0 {
      assert s == "-" + g && s[1..] == g;
    } else {
      assert s == g;
      assert (|g| - 0) % 4 != 0;
      assert IsDigit(g[0]);
    }
  }
}
