/** Decimal numerals, written and read back. The PDF writer puts numbers into the file in two forms,
    plain and padded with zeros to ten digits, and a reader finds them by scanning the digits at a
    position or before one. The lemmas connect the two: scanning what was written gives the number,
    and the padded form has its ten digits exactly for numbers below ten to the tenth. */
module Decimal {

  function Digit(n: nat): char
    requires n < 10
  {
    '0' + n as char
  }

  predicate IsDigit(c: char) { '0' <= c <= '9' }

  function Numeral(n: nat): (s: string)
    ensures s != "" && forall i :: 0 <= i < |s| ==> IsDigit(s[i])
  {
    if n < 10 then [Digit(n)] else Numeral(n / 10) + [Digit(n % 10)]
  }

  function Value(s: string): nat
    requires forall i :: 0 <= i < |s| ==> IsDigit(s[i])
  {
    if s == "" then 0 else
      assert IsDigit(s[|s| - 1]);
      10 * Value(s[..|s| - 1]) + (s[|s| - 1] as int - '0' as int)
  }

  lemma {:induction false} ValueOfNumeral(n: nat)
    ensures Value(Numeral(n)) == n
  {
    if n >= 10 {
      ValueOfNumeral(n / 10);
      var s := Numeral(n);
      assert s[..|s| - 1] == Numeral(n / 10);
    } else {
      assert [Digit(n)][..0] == "";
    }
  }

  function Zeros(n: nat): (s: string)
    ensures |s| == n && forall i :: 0 <= i < n ==> s[i] == '0'
  {
    seq(n, i => '0')
  }

  /** The format `{n:010d}`. */
  function Padded(n: nat): (s: string)
    ensures |s| >= 10 && forall i :: 0 <= i < |s| ==> IsDigit(s[i])
  {
    var s := Numeral(n);
    if |s| >= 10 then s else Zeros(10 - |s|) + s
  }

  lemma {:induction false} LeadingZeros(k: nat, s: string)
    requires forall i :: 0 <= i < |s| ==> IsDigit(s[i])
    ensures forall i :: 0 <= i < k + |s| ==> IsDigit((Zeros(k) + s)[i])
    ensures Value(Zeros(k) + s) == Value(s)
    decreases |s|, k
  {
    var t := Zeros(k) + s;
    if s != "" {
      assert t[..|t| - 1] == Zeros(k) + s[..|s| - 1];
      LeadingZeros(k, s[..|s| - 1]);
    } else if k > 0 {
      assert t[..|t| - 1] == Zeros(k - 1) + s;
      LeadingZeros(k - 1, s);
    }
  }

  lemma ValueOfPadded(n: nat)
    ensures Value(Padded(n)) == n
  {
    ValueOfNumeral(n);
    LeadingZeros(if |Numeral(n)| >= 10 then 0 else 10 - |Numeral(n)|, Numeral(n));
    assert Zeros(0) + Numeral(n) == Numeral(n);
  }

  function Pow10(k: nat): nat { if k == 0 then 1 else 10 * Pow10(k - 1) }

  lemma {:induction false} NumeralLength(n: nat, k: nat)
    requires k >= 1
    ensures |Numeral(n)| <= k <==> n < Pow10(k)
  {
    if n < 10 {
      assert Pow10(k) >= 10 by { PowerAtLeast(k); }
    } else if k == 1 {
      assert Pow10(1) == 10;
      assert |Numeral(n / 10)| >= 1;
    } else {
      NumeralLength(n / 10, k - 1);
    }
  }

  lemma {:induction false} PowerAtLeast(k: nat)
    requires k >= 1
    ensures Pow10(k) >= 10
  {
    if k > 1 { PowerAtLeast(k - 1); } else { assert Pow10(1) == 10 * Pow10(0); }
  }

  /** A padded offset fills exactly ten bytes as long as it is below ten to the tenth. */
  lemma PaddedLength(n: nat)
    ensures |Padded(n)| == 10 <==> n < 10_000_000_000
  {
    NumeralLength(n, 10);
    assert Pow10(10) == 10_000_000_000;
  }

  // ---------------------------------------------------------------------------------------
  // Reading a numeral out of a text

  /** The length of the run of digits at the front of `s`. */
  function DigitRun(s: string): (n: nat)
    ensures n <= |s|
    ensures forall i :: 0 <= i < n ==> IsDigit(s[i])
    ensures n < |s| ==> !IsDigit(s[n])
  {
    if s == "" || !IsDigit(s[0]) then 0 else 1 + DigitRun(s[1..])
  }

  function LeadingNumber(s: string): nat { Value(s[..DigitRun(s)]) }

  /** The length of the run of digits at the back of `s`. */
  function TrailingRun(s: string): (n: nat)
    ensures n <= |s|
    ensures forall i :: |s| - n <= i < |s| ==> IsDigit(s[i])
    ensures n < |s| ==> !IsDigit(s[|s| - n - 1])
  {
    if s == "" || !IsDigit(s[|s| - 1]) then 0 else 1 + TrailingRun(s[..|s| - 1])
  }

  function TrailingNumber(s: string): nat { Value(s[|s| - TrailingRun(s)..]) }

  lemma LeadingNumeral(n: nat, rest: string)
    requires rest != "" ==> !IsDigit(rest[0])
    ensures DigitRun(Numeral(n) + rest) == |Numeral(n)|
    ensures LeadingNumber(Numeral(n) + rest) == n
  {
    var s, d := Numeral(n) + rest, Numeral(n);
    assert forall i :: 0 <= i < |d| ==> s[i] == d[i];
    assert rest != "" ==> s[|d|] == rest[0];
    assert DigitRun(s) == |d|;
    assert s[..|d|] == d;
    ValueOfNumeral(n);
  }

  lemma TrailingNumeral(front: string, n: nat)
    requires front != "" && !IsDigit(front[|front| - 1])
    ensures TrailingNumber(front + Numeral(n)) == n
  {
    var s, d := front + Numeral(n), Numeral(n);
    assert forall i :: 0 <= i < |d| ==> s[|front| + i] == d[i];
    assert s[|front| - 1] == front[|front| - 1];
    assert TrailingRun(s) == |d|;
    assert s[|s| - |d|..] == d;
    ValueOfNumeral(n);
  }
}
