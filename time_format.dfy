/** `formatTime`: the seconds left, written in decimal and padded on the left
    with zeros to two characters (`toString` followed by `padStart(2, "0")`). */
module TimeFormat {

  predicate IsDigit(c: char) {
    '0' <= c <= '9'
  }

  predicate AllDigits(s: string) {
    forall i :: 0 <= i < |s| ==> IsDigit(s[i])
  }

  function DigitValue(c: char): (d: nat)
    requires IsDigit(c)
    ensures d < 10
  {
    c as int - '0' as int
  }

  /** The decimal digit for `d`. */
  function Digit(d: int): (c: char)
    requires 0 <= d < 10
    ensures IsDigit(c) && DigitValue(c) == d
  {
    ('0' as int + d) as char
  }

  /** The number a string of decimal digits denotes (leading zeros allowed). */
  function Value(s: string): nat
    requires AllDigits(s)
  {
    if s == [] then 0 else Value(s[..|s| - 1]) * 10 + DigitValue(s[|s| - 1])
  }

  /** The decimal representation of a natural number, as `toString` gives it. */
  function NatToString(n: nat): (s: string)
    ensures 1 <= |s| && AllDigits(s)
    ensures |s| > 1 ==> s[0] != '0'
    ensures |s| == 1 <==> n < 10
  {
    if n < 10 then [Digit(n)] else NatToString(n / 10) + [Digit(n % 10)]
  }

  /** `toString` on an integer: a minus sign before the digits of a negative number. */
  function IntToString(n: int): (s: string)
    ensures n >= 0 ==> AllDigits(s) && Value(s) == n && (|s| > 1 ==> s[0] != '0')
    ensures n < 0 ==> && |s| >= 2 && s[0] == '-'
                      && AllDigits(s[1..]) && Value(s[1..]) == -n && (|s| > 2 ==> s[1] != '0')
  {
    if n < 0 then
      NatToStringValue(-n);
      assert ("-" + NatToString(-n))[1..] == NatToString(-n);
      "-" + NatToString(-n)
    else
      NatToStringValue(n);
      NatToString(n)
  }

  /** `s.padStart(width, [fill])`: `fill` repeated in front of `s` up to `width` characters. */
  function PadStart(s: string, width: nat, fill: char): (r: string)
    ensures |r| == if |s| >= width then |s| else width
    ensures r[|r| - |s|..] == s
    ensures forall i :: 0 <= i < |r| - |s| ==> r[i] == fill
  {
    if |s| >= width then s else seq(width - |s|, _ => fill) + s
  }

  /** `formatTime(seconds)`. */
  function FormatTime(seconds: int): (r: string)
    ensures |r| >= 2
    ensures seconds >= 0 ==> AllDigits(r)
  {
    PadStart(IntToString(seconds), 2, '0')
  }

  /** The decimal representation reads back as the number. */
  lemma {:induction false} NatToStringValue(n: nat)
    ensures Value(NatToString(n)) == n
  {
    if n >= 10 {
      NatToStringValue(n / 10);
      var s := NatToString(n / 10);
      assert (s + [Digit(n % 10)])[..|s|] == s;
    }
  }

  /** Zeros in front of a digit string do not change its value. */
  lemma {:induction false} LeadingZerosValue(z: string, s: string)
    requires forall i :: 0 <= i < |z| ==> z[i] == '0'
    requires AllDigits(s)
    ensures AllDigits(z + s) && Value(z + s) == Value(s)
    decreases |s|, |z|
  {
    if s == [] {
      assert z + s == z;
      if z != [] {
        LeadingZerosValue(z[..|z| - 1], []);
        assert z[..|z| - 1] + [] == z[..|z| - 1];
      }
    } else {
      var init := s[..|s| - 1];
      LeadingZerosValue(z, init);
      assert (z + s)[..|z + s| - 1] == z + init;
    }
  }

  /** Round trip: every non-negative count is displayed as digits that read back as itself. */
  lemma FormatTimeRoundTrip(n: nat)
    ensures AllDigits(FormatTime(n)) && Value(FormatTime(n)) == n
  {
    var s := NatToString(n);
    var r := FormatTime(n);
    NatToStringValue(n);
    LeadingZerosValue(r[..|r| - |s|], s);
    assert r == r[..|r| - |s|] + s;
  }

  /** On the values a countdown can hold the display is always two characters. */
  lemma FormatCountdownTime(n: int)
    requires 0 <= n <= 10
    ensures |FormatTime(n)| == 2
    ensures n < 10 ==> FormatTime(n) == ['0', Digit(n)]
    ensures n == 10 ==> FormatTime(n) == "10"
  {
    if n == 10 {
      assert NatToString(10) == NatToString(1) + [Digit(0)] == "10";
      assert IntToString(n) == "10";
    } else {
      assert IntToString(n) == NatToString(n) == [Digit(n)];
      assert FormatTime(n) == seq(1, _ => '0') + [Digit(n)];
    }
  }
}
