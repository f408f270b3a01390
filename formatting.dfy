/** The pieces of Python's string formatting that the display code relies on:
    `str(n)` of an int, `format(n, ",")` (thousands separators),
    `format(n, "3d")` (right-aligned in a field of width three) and the
    two-decimal figure of `format(x, ".2f")` for an exactly representable
    quotient, which rounds half to even. */
module Formatting {

  predicate IsDigit(c: char) { '0' <= c <= '9' }

  predicate AllDigits(s: string) { forall i | 0 <= i < |s| :: IsDigit(s[i]) }

  function DigitValue(c: char): (d: nat)
    requires IsDigit(c)
    ensures d < 10
  {
    c as int - '0' as int
  }

  function DigitChar(d: nat): (c: char)
    requires d < 10
    ensures IsDigit(c) && DigitValue(c) == d
  {
    ('0' as int + d) as char
  }

  /** `str(n)` for a non-negative int. */
  function NatToString(n: nat): (s: string)
    ensures |s| >= 1
    decreases n
  {
    if n < 10 then [DigitChar(n)] else NatToString(n / 10) + [DigitChar(n % 10)]
  }

  /** The value of a string of decimal digits (the inverse of NatToString). */
  function DigitsValue(s: string): nat
    requires AllDigits(s)
  {
    if s == [] then 0 else DigitsValue(s[..|s| - 1]) * 10 + DigitValue(s[|s| - 1])
  }

  /** NatToString writes decimal digits, with no leading zero, that read
      back as `n`. */
  lemma {:induction false} NatToStringRoundTrip(n: nat)
    ensures var s := NatToString(n);
      AllDigits(s) && (s[0] == '0' ==> n == 0) && DigitsValue(s) == n
  {
    var s := NatToString(n);
    if n >= 10 {
      NatToStringRoundTrip(n / 10);
      assert s[..|s| - 1] == NatToString(n / 10);
    }
  }

  /** `str(i)` for any int: a minus sign before the digits of a negative value. */
  function IntToString(i: int): string
  {
    if i < 0 then "-" + NatToString(-i) else NatToString(i)
  }

  /** Reads back what IntToString writes. */
  function ParseInt(s: string): int
    requires s != [] && (if s[0] == '-' then AllDigits(s[1..]) else AllDigits(s))
  {
    if s[0] == '-' then -(DigitsValue(s[1..]) as int) else DigitsValue(s)
  }

  lemma IntToStringRoundTrip(i: int)
    ensures var s := IntToString(i);
      s != [] && (if s[0] == '-' then AllDigits(s[1..]) else AllDigits(s)) && ParseInt(s) == i
  {
    var s := IntToString(i);
    if i < 0 {
      assert s[1..] == NatToString(-i);
      NatToStringRoundTrip(-i);
    } else {
      NatToStringRoundTrip(i);
    }
  }

  /** Inserts a comma before every group of three digits, counted from the right. */
  function GroupDigits(s: string): string
    decreases |s|
  {
    if |s| <= 3 then s else GroupDigits(s[..|s| - 3]) + "," + s[|s| - 3..]
  }

  /** `format(i, ",")`: the decimal digits of `i` with comma thousands separators. */
  function Grouped(i: int): string
  {
    if i < 0 then "-" + GroupDigits(NatToString(-i)) else GroupDigits(NatToString(i))
  }

  function RemoveCommas(s: string): string
  {
    if s == [] then []
    else if s[|s| - 1] == ',' then RemoveCommas(s[..|s| - 1])
    else RemoveCommas(s[..|s| - 1]) + [s[|s| - 1]]
  }

  lemma {:induction false} RemoveCommasConcat(a: string, b: string)
    ensures RemoveCommas(a + b) == RemoveCommas(a) + RemoveCommas(b)
  {
    if b != [] {
      RemoveCommasConcat(a, b[..|b| - 1]);
      assert (a + b)[..|a + b| - 1] == a + b[..|b| - 1];
    } else {
      assert a + b == a;
    }
  }

  lemma {:induction false} RemoveCommasNoCommas(s: string)
    requires ',' !in s
    ensures RemoveCommas(s) == s
  {
    if s != [] {
      assert s[|s| - 1] in s;
      RemoveCommasNoCommas(s[..|s| - 1]);
    }
  }

  /** Removing the separators gives back the digits that were grouped. */
  lemma {:induction false} GroupDigitsRoundTrip(s: string)
    requires ',' !in s
    ensures RemoveCommas(GroupDigits(s)) == s
    decreases |s|
  {
    if |s| <= 3 {
      RemoveCommasNoCommas(s);
    } else {
      var p, t := s[..|s| - 3], s[|s| - 3..];
      assert s == p + t;
      GroupDigitsRoundTrip(p);
      RemoveCommasConcat(GroupDigits(p) + ",", t);
      RemoveCommasConcat(GroupDigits(p), ",");
      RemoveCommasNoCommas(t);
    }
  }

  /** One comma per complete group of three digits after the first group. */
  lemma {:induction false} GroupDigitsLength(s: string)
    requires 1 <= |s|
    ensures |GroupDigits(s)| == |s| + (|s| - 1) / 3
    decreases |s|
  {
    if |s| > 3 {
      GroupDigitsLength(s[..|s| - 3]);
      assert (|s| - 1) / 3 == (|s| - 4) / 3 + 1;
    }
  }

  /** Commas stand exactly at every fourth position counted from the right,
      so each group after the first has exactly three digits. */
  lemma {:induction false} GroupDigitsCommaPositions(s: string)
    requires 1 <= |s| && ',' !in s
    ensures var r := GroupDigits(s);
      |r| == |s| + (|s| - 1) / 3 &&
      forall j | 0 <= j < |r| :: r[j] == ',' <==> (|r| - j) % 4 == 0
    decreases |s|
  {
    GroupDigitsLength(s);
    var r := GroupDigits(s);
    if |s| > 3 {
      var p, t := s[..|s| - 3], s[|s| - 3..];
      var g := GroupDigits(p);
      GroupDigitsCommaPositions(p);
      assert r == g + "," + t;
      assert |r| == |g| + 4;
      forall j | 0 <= j < |r|
        ensures r[j] == ',' <==> (|r| - j) % 4 == 0
      {
        if j < |g| {
          assert r[j] == g[j];
          assert (|r| - j) % 4 == (|g| - j) % 4;
        } else if j > |g| {
          assert r[j] == s[|s| - 3 + (j - |g| - 1)];
          assert s[|s| - 3 + (j - |g| - 1)] in s;
        }
      }
    } else {
      forall j | 0 <= j < |r|
        ensures r[j] == ',' <==> (|r| - j) % 4 == 0
      {
        assert r[j] in s;
      }
    }
  }

  /** The exact count written by Grouped can be read back. */
  lemma GroupedRoundTrip(n: nat)
    ensures AllDigits(RemoveCommas(Grouped(n)))
    ensures DigitsValue(RemoveCommas(Grouped(n))) == n
  {
    var s := NatToString(n);
    NatToStringRoundTrip(n);
    assert ',' !in s by {
      forall k | 0 <= k < |s| ensures s[k] != ',' { assert IsDigit(s[k]); }
    }
    GroupDigitsRoundTrip(s);
  }

  /** The three decimal digits of a number below 1000, zero-padded, as they
      stand at the end of a longer decimal. */
  function ThreeDigits(m: nat): (s: string)
    requires m < 1000
    ensures |s| == 3
  {
    [DigitChar(m / 100), DigitChar(m / 10 % 10), DigitChar(m % 10)]
  }

  /** From 1000 on, `str(n)` is `str(n // 1000)` followed by the last three
      digits of `n`. */
  lemma NatToStringThousands(n: nat)
    requires n >= 1000
    ensures NatToString(n) == NatToString(n / 1000) + ThreeDigits(n % 1000)
  {
    var r := n % 1000;
    ThousandsDigits(n);
    assert NatToString(n / 10) == NatToString(n / 100) + [DigitChar(r / 10 % 10)];
  }

  /** Division by ten, given the quotient and the remainder. */
  lemma DivTen(n: int, q: int, r: int)
    requires 0 <= r < 10 && n == 10 * q + r
    ensures n / 10 == q && n % 10 == r
  {
  }

  /** The last three decimal digits of `n` are those of `n % 1000`. */
  lemma ThousandsDigits(n: nat)
    ensures n % 10 == n % 1000 % 10
    ensures n / 10 % 10 == n % 1000 / 10 % 10 && n / 10 / 10 == n / 100
    ensures n / 100 % 10 == n % 1000 / 100 && n / 100 / 10 == n / 1000
  {
    var q, r := n / 1000, n % 1000;
    var s := r / 10;
    var t := s / 10;
    assert r / 100 == t;
    DivTen(n, 100 * q + s, r % 10);
    DivTen(n / 10, 10 * q + t, s % 10);
    DivTen(n / 10 / 10, q, t);
    assert n / 100 == n / 10 / 10;
  }

  /** From 1000 on, `format(n, ",")` is the grouping of `n // 1000`, a comma
      and the last three digits of `n`. */
  lemma GroupedThousands(n: nat)
    requires n >= 1000
    ensures Grouped(n) == Grouped(n / 1000) + "," + ThreeDigits(n % 1000)
  {
    var a, t := NatToString(n / 1000), ThreeDigits(n % 1000);
    NatToStringThousands(n);
    var s := a + t;
    assert s[..|s| - 3] == a && s[|s| - 3..] == t;
  }

  /** `k` blanks. */
  function Spaces(k: nat): (r: string)
    ensures |r| == k
  {
    if k == 0 then [] else [' '] + Spaces(k - 1)
  }

  /** `format(s, ">w")`: `s` right-aligned in a field of width `w`, that is
      preceded by just enough blanks; a longer `s` is kept whole. */
  function PadLeft(s: string, width: nat): string
  {
    if |s| >= width then s else Spaces(width - |s|) + s
  }

  /** `q` is an integer nearest to `x / d` and, when `x / d` lies halfway
      between two integers, the even one. */
  predicate NearestEven(x: nat, d: nat, q: nat)
  {
    2 * (x - q * d) <= d && 2 * (q * d - x) <= d &&
    (2 * (x - q * d) == d || 2 * (q * d - x) == d ==> q % 2 == 0)
  }

  /** The integer nearest to `x / d`, ties going to the even neighbour: the
      rounding Python's `format` applies to an exactly represented value. */
  function RoundHalfEven(x: nat, d: nat): nat
    requires d > 0
  {
    if RoundsDown(x, d) then x / d else x / d + 1
  }

  /** RoundHalfEven rounds to the nearest integer, ties to even. */
  lemma RoundHalfEvenNearest(x: nat, d: nat)
    requires d > 0
    ensures NearestEven(x, d, RoundHalfEven(x, d))
  {
    if RoundsDown(x, d) {
      RoundDownNearest(x, d);
    } else {
      RoundUpNearest(x, d);
    }
  }

  /** The remainder is below half of `d`, or exactly half with an even quotient. */
  predicate RoundsDown(x: nat, d: nat)
    requires d > 0
  {
    2 * (x % d) < d || (2 * (x % d) == d && (x / d) % 2 == 0)
  }

  lemma RoundDownNearest(x: nat, d: nat)
    requires d > 0 && RoundsDown(x, d)
    ensures NearestEven(x, d, x / d)
  {
    DivisionParts(x, d);
  }

  lemma RoundUpNearest(x: nat, d: nat)
    requires d > 0 && !RoundsDown(x, d)
    ensures NearestEven(x, d, x / d + 1)
  {
    DivisionParts(x, d);
  }

  /** How far `x` lies from the two multiples of `d` around it. */
  lemma DivisionParts(x: nat, d: nat)
    requires d > 0
    ensures x - (x / d) * d == x % d
    ensures (x / d + 1) * d - x == d - x % d
  {
  }

  /** `format(h / 100, ".2f")` for a count `h` of hundredths: the whole
      part, a dot, and the two digits of the hundredths. */
  function TwoDecimals(h: nat): string
  {
    NatToString(h / 100) + "." + [DigitChar(h / 10 % 10), DigitChar(h % 10)]
  }

  /** The figure has exactly two digits after its dot and, read without
      the dot, gives back the count of hundredths. */
  lemma TwoDecimalsReadsBack(h: nat)
    ensures var s := TwoDecimals(h);
      4 <= |s| && s[|s| - 3] == '.' &&
      AllDigits(s[..|s| - 3] + s[|s| - 2..]) && DigitsValue(s[..|s| - 3] + s[|s| - 2..]) == h
  {
    var whole := NatToString(h / 100);
    NatToStringRoundTrip(h / 100);
    var tens, units := DigitChar(h / 10 % 10), DigitChar(h % 10);
    var s := TwoDecimals(h);
    assert s == whole + ['.', tens, units];
    assert s[..|s| - 3] + s[|s| - 2..] == (whole + [tens]) + [units];
    DigitsAppend(whole, tens);
    DigitsAppend(whole + [tens], units);
    HundredthsSplit(h);
  }

  /** A digit written after others multiplies their value by ten and adds its own. */
  lemma DigitsAppend(d: string, c: char)
    requires AllDigits(d) && IsDigit(c)
    ensures AllDigits(d + [c]) && DigitsValue(d + [c]) == DigitsValue(d) * 10 + DigitValue(c)
  {
    assert (d + [c])[..|d|] == d;
  }

  lemma HundredthsSplit(h: nat)
    ensures h == (h / 100) * 100 + (h / 10 % 10) * 10 + h % 10
  {
  }
}
