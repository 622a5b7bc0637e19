/** Decimal digit strings: their value, the canonical rendering of a natural
    number (Rust's `{}` on an unsigned integer) and Rust's `u64::from_str`.
    Digit strings are read most significant digit first, by recursion on
    their last character; every multiplication is by a literal. */
module Decimal {
  import opened Base

  predicate IsDigit(c: char) { '0' <= c <= '9' }

  /** Every character is an ASCII digit. */
  predicate AllDigits(s: string)
  {
    |s| == 0 || (AllDigits(s[..|s| - 1]) && IsDigit(s[|s| - 1]))
  }

  function DigitValue(c: char): (d: nat)
    requires IsDigit(c)
    ensures d < 10
  {
    c as int - '0' as int
  }

  function DigitChar(d: nat): (c: char)
    requires d < 10
    ensures IsDigit(c) && DigitValue(c) == d
  {
    ('0' as int + d) as char
  }

  function Pow10(n: nat): (p: nat)
    ensures p >= 1
  {
    if n == 0 then 1 else 10 * Pow10(n - 1)
  }

  /** The value of a digit string; "" is 0. */
  function DigitsValue(s: string): nat
    requires AllDigits(s)
  {
    if |s| == 0 then 0 else DigitsValue(s[..|s| - 1]) * 10 + DigitValue(s[|s| - 1])
  }

  /** Every position of a digit string holds a digit. */
  lemma {:induction false} DigitAt(s: string, i: nat)
    requires AllDigits(s) && i < |s|
    ensures IsDigit(s[i])
  {
    if i < |s| - 1 {
      DigitAt(s[..|s| - 1], i);
    }
  }

  /** A string with a character other than a digit is not a digit string. */
  lemma NotAllDigits(s: string, i: nat)
    requires i < |s| && !IsDigit(s[i])
    ensures !AllDigits(s)
  {
    if AllDigits(s) {
      DigitAt(s, i);
    }
  }

  /** Conversely, a string whose every position holds a digit is a digit string. */
  lemma {:induction false} DigitsFromIndex(s: string)
    requires forall i :: 0 <= i < |s| ==> IsDigit(s[i])
    ensures AllDigits(s)
  {
    if |s| > 0 {
      var p := s[..|s| - 1];
      assert forall i :: 0 <= i < |p| ==> p[i] == s[i];
      DigitsFromIndex(p);
    }
  }

  /** Appending a digit shifts the value one place to the left. */
  lemma AppendDigit(s: string, c: char)
    requires AllDigits(s) && IsDigit(c)
    ensures AllDigits(s + [c])
    ensures DigitsValue(s + [c]) == DigitsValue(s) * 10 + DigitValue(c)
  {
    assert (s + [c])[..|s|] == s;
  }

  /** A concatenation is a digit string exactly when both parts are. */
  lemma {:induction false} AllDigitsConcat(a: string, b: string)
    ensures AllDigits(a + b) <==> AllDigits(a) && AllDigits(b)
  {
    if b == [] {
      assert a + b == a;
    } else {
      var b' := b[..|b| - 1];
      assert (a + b)[..|a + b| - 1] == a + b';
      AllDigitsConcat(a, b');
    }
  }

  /** The first `n` characters of a digit string form one too. */
  lemma {:induction false} AllDigitsPrefix(s: string, n: nat)
    requires AllDigits(s) && n <= |s|
    ensures AllDigits(s[..n])
  {
    if n < |s| {
      AllDigitsPrefix(s[..|s| - 1], n);
      assert s[..|s| - 1][..n] == s[..n];
    } else {
      assert s[..n] == s;
    }
  }

  function Zeros(n: nat): (z: string)
    ensures |z| == n
  {
    if n == 0 then [] else Zeros(n - 1) + ['0']
  }

  lemma {:induction false} ZerosValue(n: nat)
    ensures AllDigits(Zeros(n)) && DigitsValue(Zeros(n)) == 0
  {
    if n > 0 {
      ZerosValue(n - 1);
      AppendDigit(Zeros(n - 1), '0');
    }
  }

  /** `x` followed by `n` zero digits. */
  function Shifted(x: nat, n: nat): nat
  {
    if n == 0 then x else Shifted(x, n - 1) * 10
  }

  lemma {:induction false} ShiftedZero(n: nat)
    ensures Shifted(0, n) == 0
  {
    if n > 0 {
      ShiftedZero(n - 1);
    }
  }

  /** Appending digits shifts the value of the prefix left by their number. */
  lemma {:induction false} DigitsValueConcat(a: string, b: string)
    requires AllDigits(a) && AllDigits(b)
    ensures AllDigits(a + b)
    ensures DigitsValue(a + b) == Shifted(DigitsValue(a), |b|) + DigitsValue(b)
  {
    AllDigitsConcat(a, b);
    if b == [] {
      assert a + b == a;
    } else {
      var b' := b[..|b| - 1];
      assert (a + b)[..|a + b| - 1] == a + b';
      DigitsValueConcat(a, b');
    }
  }

  /** Appending `n` zero digits shifts the value left by `n` places. */
  lemma AppendZeros(a: string, n: nat)
    requires AllDigits(a)
    ensures AllDigits(a + Zeros(n))
    ensures DigitsValue(a + Zeros(n)) == Shifted(DigitsValue(a), n)
  {
    ZerosValue(n);
    DigitsValueConcat(a, Zeros(n));
  }

  /** Appending four digits multiplies the prefix by 10,000. */
  lemma DigitsValueConcat4(a: string, b: string)
    requires AllDigits(a) && AllDigits(b) && |b| == 4
    ensures AllDigits(a + b)
    ensures DigitsValue(a + b) == DigitsValue(a) * 10000 + DigitsValue(b)
  {
    DigitsValueConcat(a, b);
    var x := DigitsValue(a);
    assert Shifted(x, 1) == x * 10;
    assert Shifted(x, 2) == x * 100;
    assert Shifted(x, 3) == x * 1000;
    assert Shifted(x, 4) == x * 10000;
  }

  /** A string of n digits is worth less than 10^n. */
  lemma {:induction false} DigitsValueBound(s: string)
    requires AllDigits(s)
    ensures DigitsValue(s) < Pow10(|s|)
  {
    if s != [] {
      DigitsValueBound(s[..|s| - 1]);
    }
  }

  /** A string of n digits that starts with a non-zero digit is worth at least 10^(n-1). */
  lemma {:induction false} DigitsValueLowerBound(s: string)
    requires AllDigits(s) && |s| > 0 && s[0] != '0'
    ensures DigitsValue(s) >= Pow10(|s| - 1)
  {
    if |s| > 1 {
      DigitsValueLowerBound(s[..|s| - 1]);
    }
  }

  /** A leading zero does not change the value. */
  lemma {:induction false} LeadingZero(s: string)
    requires AllDigits(s)
    ensures AllDigits("0" + s) && DigitsValue("0" + s) == DigitsValue(s)
  {
    if s == [] {
      assert ("0" + s)[..0] == [];
    } else {
      var p := s[..|s| - 1];
      LeadingZero(p);
      assert ("0" + s)[..|s|] == "0" + p;
    }
  }

  lemma {:induction false} PowMonotone(m: nat, n: nat)
    requires m <= n
    ensures Pow10(m) <= Pow10(n)
  {
    if m < n {
      PowMonotone(m, n - 1);
    }
  }

  /** Rust's `{}` rendering of a natural number: no sign, no leading zeros. */
  function NatToString(n: nat): (s: string)
    ensures |s| > 0 && AllDigits(s) && DigitsValue(s) == n
    ensures s[0] == '0' <==> n == 0
    ensures n == 0 ==> s == "0"
  {
    if n < 10 then
      assert [DigitChar(n)][..0] == [];
      [DigitChar(n)]
    else
      var prefix := NatToString(n / 10);
      AppendDigit(prefix, DigitChar(n % 10));
      prefix + [DigitChar(n % 10)]
  }

  /** The number of digits of the rendering of a number below 10,000. */
  lemma NatToStringFour(f: nat)
    requires f < 10000
    ensures |NatToString(f)| <= 4
    ensures |NatToString(f)| == 4 <==> f >= 1000
  {
    var s := NatToString(f);
    assert Pow10(3) == 1000 && Pow10(4) == 10000;
    DigitsValueBound(s);
    if |s| >= 5 {
      DigitsValueLowerBound(s);
      PowMonotone(4, |s| - 1);
    }
    if |s| <= 3 {
      PowMonotone(|s|, 3);
    }
    if |s| == 4 && f > 0 {
      DigitsValueLowerBound(s);
    }
  }

  /** Rust's `u64::from_str`: an optional single leading '+', then at least
      one ASCII digit, with a value of at most `u64::MAX`. The kinds of
      `ParseIntError` are not distinguished. */
  function ParseU64(s: string): (r: Option<u64>)
  {
    var digits := if |s| > 0 && s[0] == '+' then s[1..] else s;
    if |digits| > 0 && AllDigits(digits) && DigitsValue(digits) <= U64_MAX
    then Some(DigitsValue(digits))
    else None
  }
}
