/** Python's decimal rendering of integers, `str(n)`, and the slice `s[-2:]`
    that market_year_flag applies to it. */
module Decimal {

  predicate IsDigit(c: char) {
    '0' <= c <= '9'
  }

  predicate IsDigits(s: string) {
    forall i :: 0 <= i < |s| ==> IsDigit(s[i])
  }

  function DigitChar(d: nat): (c: char)
    requires d < 10
    ensures IsDigit(c) && c as int - '0' as int == d
  {
    ('0' as int + d) as char
  }

  function DigitValue(c: char): (d: nat)
    requires IsDigit(c)
    ensures d < 10 && DigitChar(d) == c
  {
    c as int - '0' as int
  }

  /** `str(n)` for a natural number: the shortest decimal numeral, no leading zeros. */
  function NatToString(n: nat): (s: string)
    ensures IsDigits(s) && |s| >= 1
    ensures n >= 10 <==> |s| >= 2
    ensures s[0] == '0' <==> n == 0
    decreases n
  {
    if n < 10 then [DigitChar(n)] else NatToString(n / 10) + [DigitChar(n % 10)]
  }

  /** `str(n)` for any integer: a minus sign before the numeral of `-n`. */
  function IntToString(n: int): string {
    if n < 0 then "-" + NatToString(-n) else NatToString(n)
  }

  function Abs(n: int): nat {
    if n < 0 then -n else n
  }

  /** Python's slice `s[-2:]`: the last two characters, or all of `s` when it is shorter. */
  function LastTwo(s: string): (t: string)
    ensures |t| == if |s| < 2 then |s| else 2
    ensures t == s[|s| - |t|..]
  {
    if |s| <= 2 then s else s[|s| - 2..]
  }

  /** A number below 100 as two digits, zero-padded. */
  function TwoDigits(k: nat): (s: string)
    requires k < 100
    ensures |s| == 2 && IsDigits(s)
  {
    [DigitChar(k / 10), DigitChar(k % 10)]
  }

  /** The value a numeral denotes; the inverse of NatToString. */
  function DigitsValue(s: string): nat
    requires IsDigits(s)
    decreases |s|
  {
    if s == [] then 0 else DigitsValue(s[..|s| - 1]) * 10 + DigitValue(s[|s| - 1])
  }

  lemma {:induction false} NatToStringRoundTrip(n: nat)
    ensures DigitsValue(NatToString(n)) == n
    decreases n
  {
    var s := NatToString(n);
    if n >= 10 {
      assert s[..|s| - 1] == NatToString(n / 10);
      NatToStringRoundTrip(n / 10);
    }
  }

  lemma TwoDigitsRoundTrip(k: nat)
    requires k < 100
    ensures DigitsValue(TwoDigits(k)) == k
  {
    var s := TwoDigits(k);
    assert s[..1] == [DigitChar(k / 10)];
    assert s[..1][..0] == [];
    assert DigitsValue(s[..1]) == k / 10;
  }

  lemma NatToStringInjective(a: nat, b: nat)
    requires NatToString(a) == NatToString(b)
    ensures a == b
  {
    NatToStringRoundTrip(a);
    NatToStringRoundTrip(b);
  }

  lemma SignOfString(n: int)
    ensures IntToString(n)[0] == '-' <==> n < 0
  {
    if n >= 0 {
      assert IsDigit(NatToString(n)[0]);
    }
  }

  lemma IntToStringInjective(a: int, b: int)
    requires IntToString(a) == IntToString(b)
    ensures a == b
  {
    SignOfString(a);
    SignOfString(b);
    if a < 0 {
      assert NatToString(-a) == IntToString(a)[1..];
      assert NatToString(-b) == IntToString(b)[1..];
      NatToStringInjective(-a, -b);
    } else {
      NatToStringInjective(a, b);
    }
  }

  lemma DigitArithmetic(a: nat)
    ensures (a % 100) / 10 == (a / 10) % 10
    ensures (a % 100) % 10 == a % 10
  {
    var q, r := a / 100, a % 100;
    assert a == 100 * q + r;
    assert a / 10 == 10 * q + r / 10;
    assert a % 10 == r % 10;
  }

  lemma LastDigit(n: nat)
    ensures NatToString(n)[|NatToString(n)| - 1] == DigitChar(n % 10)
  {
  }

  lemma LastTwoDigitsNat(a: nat)
    requires a >= 10
    ensures LastTwo(NatToString(a)) == TwoDigits(a % 100)
  {
    var p := NatToString(a / 10);
    var d := DigitChar(a % 10);
    assert NatToString(a) == p + [d];
    LastTwoOfAppended(p, d);
    LastDigit(a / 10);
    DigitArithmetic(a);
  }

  lemma LastTwoOfAppended(p: string, d: char)
    requires |p| >= 1
    ensures LastTwo(p + [d]) == [p[|p| - 1], d]
  {
    var s := p + [d];
    assert s[|s| - 2..] == [p[|p| - 1], d];
  }

  /** For a numeral of at least two digits, `str(n)[-2:]` is the zero-padded
      value of |n| mod 100. */
  lemma LastTwoOfSigned(s: string)
    requires |s| >= 2
    ensures LastTwo("-" + s) == LastTwo(s)
  {
    var t := "-" + s;
    assert t[|t| - 2..] == s[|s| - 2..];
  }

  lemma LastTwoDigits(n: int)
    requires Abs(n) >= 10
    ensures LastTwo(IntToString(n)) == TwoDigits(Abs(n) % 100)
  {
    LastTwoDigitsNat(Abs(n));
    if n < 0 {
      LastTwoOfSigned(NatToString(-n));
    }
  }
}
