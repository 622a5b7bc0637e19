/** Transaction records and the decoder of a decimal amount string into a
    count of 1/10,000 units (src/types/transaction.rs). */
module Transactions {
  import opened Base
  import opened Decimal

  /** Number of fractional digits an amount carries. */
  const PRECISION: nat := 4

  datatype TransactionType = Deposit | Withdrawal | Dispute | Resolve | Chargeback

  /** One input record; `amount` counts units of 0.0001. */
  datatype Transaction = Transaction(txType: TransactionType, client: u16, tx: u32, amount: u64)

  /** Bytes of the UTF-8 encoding of one character. */
  function Utf8Len(c: char): nat
  {
    if c as int < 0x80 then 1
    else if c as int < 0x800 then 2
    else if c as int < 0x1_0000 then 3
    else 4
  }

  /** Rust's `str::len`: the length in bytes, never less than the number of characters. */
  function ByteLen(s: string): (n: nat)
    ensures n >= |s|
  {
    if |s| == 0 then 0 else ByteLen(s[..|s| - 1]) + Utf8Len(s[|s| - 1])
  }

  /** Digits are one byte each. */
  lemma {:induction false} ByteLenDigits(s: string)
    requires AllDigits(s)
    ensures ByteLen(s) == |s|
  {
    if s != [] {
      ByteLenDigits(s[..|s| - 1]);
    }
  }

  /** The first piece of `s.split(c)`: everything before the first `c`. */
  function Before(s: string, c: char): string
  {
    if |s| == 0 then []
    else if s[0] == c then []
    else [s[0]] + Before(s[1..], c)
  }

  /** Everything after the first `c`, if `s` has one. */
  function After(s: string, c: char): Option<string>
  {
    var head := Before(s, c);
    if |head| < |s| then Some(s[|head| + 1..]) else None
  }

  /** `Before(s, c)` is the longest prefix of `s` without `c`. */
  lemma {:induction false} BeforeIsPrefix(s: string, c: char)
    ensures c !in Before(s, c)
    ensures |Before(s, c)| <= |s| && Before(s, c) == s[..|Before(s, c)|]
    ensures |Before(s, c)| < |s| ==> s[|Before(s, c)|] == c
  {
    if s != [] && s[0] != c {
      BeforeIsPrefix(s[1..], c);
    }
  }

  /** Splitting `u + tail` at the first `c`, when `u` has no `c` and `tail` is empty or starts with one. */
  lemma {:induction false} SplitAt(u: string, tail: string, c: char)
    requires c !in u
    requires tail == [] || tail[0] == c
    ensures Before(u + tail, c) == u
    ensures After(u + tail, c) == if tail == [] then None else Some(tail[1..])
  {
    if u == [] {
      assert u + tail == tail;
    } else {
      assert (u + tail)[1..] == u[1..] + tail;
      SplitAt(u[1..], tail, c);
    }
    if tail != [] {
      assert (u + tail)[|u| + 1..] == tail[1..];
    }
  }

  /** `format!("{:0<4.4}", v)`: at most four characters of `v`, right-padded with '0' to four. */
  function PadFraction(v: string): (r: string)
    ensures |r| == PRECISION
    ensures |v| <= PRECISION ==> r == v + Zeros(PRECISION - |v|)
  {
    var t := if |v| <= PRECISION then v else v[..PRECISION];
    t + Zeros(PRECISION - |t|)
  }

  /** The value of a fractional piece of at most four digits once right-padded. */
  function FractionValue(f: string): nat
    requires AllDigits(f) && |f| <= PRECISION
  {
    Shifted(DigitsValue(f), PRECISION - |f|)
  }

  /** The outcome of decoding an amount. */
  datatype Decoded = Decoded(value: u64) | Rejected(error: Error)

  /** A parsed value, or the parse failure when it does not fit in a `u64`. */
  function Bounded(v: nat): Decoded
  {
    if v <= U64_MAX then Decoded(v) else Rejected(InvalidNumber)
  }

  /** The integer part: the first '.'-separated piece, "0" when empty. */
  function Units(s: string): (u: string)
    ensures |u| > 0
  {
    var head := Before(s, '.');
    if head == "" then "0" else head
  }

  /** The fractional part: the second '.'-separated piece ("0" when there is
      none); None when it is longer than four bytes. */
  function Fraction(s: string): Option<string>
  {
    match After(s, '.')
    case None => Some("0")
    case Some(rest) =>
      var v := Before(rest, '.');
      if ByteLen(v) > PRECISION then None else Some(v)
  }

  /** The final `parse::<u64>()` step. */
  function ParseAmount(text: string): Decoded
  {
    match ParseU64(text)
    case Some(n) => Decoded(n)
    case None => Rejected(InvalidNumber)
  }

  /** `de_amount`: split on '.', default an empty integer part to "0", reject a
      fractional piece of more than four bytes, right-pad it to four digits,
      concatenate and parse the result as a `u64`. */
  function DeAmount(s: string): Decoded
  {
    match Fraction(s)
    case None => Rejected(PrecisionNotSupported)
    case Some(dec) => ParseAmount(Units(s) + PadFraction(dec))
  }


  lemma NoDot(s: string)
    requires AllDigits(s)
    ensures '.' !in s
  {
    if '.' in s {
      var i :| 0 <= i < |s| && s[i] == '.';
      DigitAt(s, i);
    }
  }

  /** The two pieces of a string without '.'. */
  lemma PiecesOfWhole(u: string)
    requires '.' !in u
    ensures Units(u) == if u == "" then "0" else u
    ensures Fraction(u) == Some("0")
  {
    SplitAt(u, [], '.');
    assert u + [] == u;
  }

  /** Splitting at the first '.' of `u + "." + rest` when `u` has none. */
  lemma SplitFirst(u: string, rest: string)
    requires '.' !in u
    ensures Units(u + "." + rest) == if u == "" then "0" else u
    ensures After(u + "." + rest, '.') == Some(rest)
  {
    assert u + "." + rest == u + ("." + rest);
    SplitAt(u, "." + rest, '.');
    assert ("." + rest)[1..] == rest;
  }

  /** The two pieces of `u + "." + f`, where neither `u` nor `f` has a '.'. */
  lemma PiecesOfDecimal(u: string, f: string)
    requires '.' !in u && '.' !in f
    ensures Units(u + "." + f) == if u == "" then "0" else u
    ensures Fraction(u + "." + f) == if ByteLen(f) > PRECISION then None else Some(f)
  {
    SplitFirst(u, f);
    SplitAt(f, [], '.');
    assert f + [] == f;
  }

  /** The parse step on a digit string that does not start with '+'. */
  lemma ParseAmountDigits(text: string)
    requires |text| > 0 && AllDigits(text)
    ensures ParseAmount(text) == Bounded(DigitsValue(text))
  {
    DigitAt(text, 0);
  }

  /** The parse step fails on any character other than a digit, except one leading '+'. */
  lemma ParseAmountBadChar(text: string, i: nat)
    requires i < |text| && !IsDigit(text[i]) && !(i == 0 && text[i] == '+')
    ensures ParseAmount(text).Rejected?
  {
    if text[0] == '+' {
      NotAllDigits(text[1..], i - 1);
    } else {
      NotAllDigits(text, i);
    }
  }

  /** Padding a short digit string scales its value. */
  lemma PadValue(f: string)
    requires AllDigits(f) && |f| <= PRECISION
    ensures AllDigits(PadFraction(f))
    ensures DigitsValue(PadFraction(f)) == FractionValue(f)
  {
    AppendZeros(f, PRECISION - |f|);
  }

  /** Parsing integer digits followed by four fractional digits. */
  lemma ParseScaled(u: string, pad: string)
    requires |u| > 0 && AllDigits(u) && AllDigits(pad) && |pad| == PRECISION
    ensures ParseAmount(u + pad) == Bounded(DigitsValue(u) * 10000 + DigitsValue(pad))
  {
    var t := u + pad;
    DigitsValueConcat4(u, pad);
    ParseAmountDigits(t);
    assert DigitsValue(t) == DigitsValue(u) * 10000 + DigitsValue(pad);
  }

  /** Decoding, once the two pieces are known to be digit strings. */
  lemma DeAmountPieces(s: string, u: string, f: string)
    requires |u| > 0 && AllDigits(u) && AllDigits(f) && |f| <= PRECISION
    requires Units(s) == u && Fraction(s) == Some(f)
    ensures DeAmount(s) == Bounded(DigitsValue(u) * 10000 + FractionValue(f))
  {
    PadValue(f);
    ParseScaled(u, PadFraction(f));
  }

  /** The default fractional piece contributes nothing. */
  lemma ZeroFraction()
    ensures AllDigits("0") && FractionValue("0") == 0
  {
    assert DigitsValue("0") == 0;
    ShiftedZero(PRECISION - 1);
  }

  /** Decoding when there is no fractional piece. */
  lemma DeAmountNoFraction(s: string, u: string)
    requires |u| > 0 && AllDigits(u) && Units(s) == u && Fraction(s) == Some("0")
    ensures DeAmount(s) == Bounded(DigitsValue(u) * 10000)
  {
    ZeroFraction();
    DeAmountPieces(s, u, "0");
    assert DigitsValue(u) * 10000 + FractionValue("0") == DigitsValue(u) * 10000;
  }

  /** A string without '.' is its integer value scaled by 10,000. */
  lemma DeAmountWhole(u: string)
    requires |u| > 0 && AllDigits(u)
    ensures DeAmount(u) == Bounded(DigitsValue(u) * 10000)
  {
    NoDot(u);
    PiecesOfWhole(u);
    DeAmountNoFraction(u, u);
  }

  /** The empty string encodes to zero. */
  lemma DeAmountEmpty()
    ensures DeAmount("") == Decoded(0)
  {
    PiecesOfWhole("");
    ZeroFraction();
    DeAmountNoFraction("", "0");
    assert DigitsValue("0") * 10000 == 0;
  }

  /** An empty integer part reads as "0". */
  lemma DeAmountEmptyUnits(rest: string)
    ensures DeAmount("." + rest) == DeAmount("0." + rest)
  {
    SplitAt([], "." + rest, '.');
    assert [] + ("." + rest) == "." + rest;
    SplitAt("0", "." + rest, '.');
    assert "0" + ("." + rest) == "0." + rest;
  }

  /** Digits before the point are scaled by 10,000; digits after it are right-padded to four. */
  lemma DeAmountFraction(u: string, f: string)
    requires |u| > 0 && AllDigits(u) && AllDigits(f) && |f| <= PRECISION
    ensures DeAmount(u + "." + f) == Bounded(DigitsValue(u) * 10000 + FractionValue(f))
  {
    NoDot(u);
    NoDot(f);
    ByteLenDigits(f);
    PiecesOfDecimal(u, f);
    DeAmountPieces(u + "." + f, u, f);
  }

  /** Only the first two '.'-separated pieces are inspected. */
  lemma DeAmountIgnoresThirdPiece(u: string, f: string, rest: string)
    requires '.' !in u && '.' !in f
    ensures DeAmount(u + "." + f + "." + rest) == DeAmount(u + "." + f)
  {
    PiecesOfLonger(u, f, rest);
  }

  lemma PiecesOfLonger(u: string, f: string, rest: string)
    requires '.' !in u && '.' !in f
    ensures Units(u + "." + f + "." + rest) == Units(u + "." + f)
    ensures Fraction(u + "." + f + "." + rest) == Fraction(u + "." + f)
  {
    assert u + "." + f + "." + rest == u + "." + (f + "." + rest);
    SplitFirst(u, f + "." + rest);
    assert f + "." + rest == f + ("." + rest);
    SplitAt(f, "." + rest, '.');
    PiecesOfDecimal(u, f);
  }

  /** A fractional piece longer than four bytes is rejected, whatever it holds. */
  lemma DeAmountLongFraction(u: string, f: string)
    requires '.' !in u && '.' !in f && ByteLen(f) > PRECISION
    ensures DeAmount(u + "." + f) == Rejected(PrecisionNotSupported)
  {
    PiecesOfDecimal(u, f);
  }

  /** A character other than a digit in the integer part is rejected, except one leading '+'. */
  lemma DeAmountBadUnits(u: string, tail: string, i: nat)
    requires '.' !in u && (tail == [] || tail[0] == '.')
    requires i < |u| && !IsDigit(u[i]) && !(i == 0 && u[i] == '+')
    ensures DeAmount(u + tail).Rejected?
  {
    SplitAt(u, tail, '.');
    match Fraction(u + tail)
    case None =>
    case Some(dec) =>
      var text := u + PadFraction(dec);
      assert text[i] == u[i];
      ParseAmountBadChar(text, i);
  }

  /** A character other than a digit in the fractional piece is rejected. */
  lemma DeAmountBadFraction(u: string, f: string, j: nat)
    requires '.' !in u && '.' !in f
    requires j < |f| && !IsDigit(f[j])
    ensures DeAmount(u + "." + f).Rejected?
  {
    PiecesOfDecimal(u, f);
    if ByteLen(f) <= PRECISION {
      var units := if u == "" then "0" else u;
      var text := units + PadFraction(f);
      assert text[|units| + j] == f[j];
      ParseAmountBadChar(text, |units| + j);
    }
  }

  /** Negative amounts are rejected. */
  lemma DeAmountNegative(s: string)
    requires |s| > 0 && s[0] == '-'
    ensures DeAmount(s).Rejected?
  {
    var u := Before(s, '.');
    BeforeIsPrefix(s, '.');
    assert |u| > 0 && u[0] == '-';
    assert s == u + s[|u|..];
    DeAmountBadUnits(u, s[|u|..], 0);
  }

  /** A string is its integer piece followed by nothing or by a '.' and the rest. */
  lemma Decompose(s: string)
    ensures |Before(s, '.')| <= |s| && '.' !in Before(s, '.')
    ensures s == Before(s, '.') + s[|Before(s, '.')|..]
    ensures var tail := s[|Before(s, '.')|..]; tail == [] || tail[0] == '.'
  {
    BeforeIsPrefix(s, '.');
  }

  /** A leading '+' is kept in the integer piece and leaves the fractional piece alone. */
  lemma PlusPieces(s: string)
    ensures Units("+" + s) == "+" + Before(s, '.')
    ensures Fraction("+" + s) == Fraction(s)
  {
    Decompose(s);
    var u := Before(s, '.');
    var tail := s[|u|..];
    SplitAt(u, tail, '.');
    assert "+" + s == ("+" + u) + tail;
    SplitAt("+" + u, tail, '.');
  }

  /** The parse step strips one '+'; an empty integer piece behind it reads as "0". */
  lemma PlusParse(u: string, pad: string)
    requires u == [] || u[0] != '+'
    requires |pad| == PRECISION
    ensures ParseAmount("+" + u + pad) == ParseAmount((if u == "" then "0" else u) + pad)
  {
    if u == "" {
      assert "+" + u + pad == "+" + pad && u + pad == pad;
      PlusEmptyUnits(pad);
    } else {
      assert "+" + u + pad == "+" + (u + pad);
      PlusUnits(u + pad);
    }
  }

  lemma PlusUnits(t: string)
    requires |t| > 0 && t[0] != '+'
    ensures ParseAmount("+" + t) == ParseAmount(t)
  {
    assert ("+" + t)[1..] == t;
  }

  lemma PlusEmptyUnits(pad: string)
    requires |pad| == PRECISION
    ensures ParseAmount("+" + pad) == ParseAmount("0" + pad)
  {
    assert ("+" + pad)[1..] == pad;
    AllDigitsConcat("0", pad);
    if AllDigits(pad) {
      LeadingZero(pad);
    }
  }

  /** A single leading '+' is accepted and ignored. */
  lemma DeAmountPlus(s: string)
    requires s == [] || s[0] != '+'
    ensures DeAmount("+" + s) == DeAmount(s)
  {
    var u := Before(s, '.');
    Decompose(s);
    PlusPieces(s);
    match Fraction(s)
    case None =>
    case Some(dec) =>
      PlusParse(u, PadFraction(dec));
  }

  /** A whole number of at least 17 digits without a leading zero overflows once scaled. */
  lemma BigRejected(u: string)
    requires |u| >= 17 && AllDigits(u) && u[0] != '0'
    ensures DeAmount(u).Rejected?
  {
    DeAmountWhole(u);
    DigitsAtLeast16(u);
  }

  lemma DigitsAtLeast16(u: string)
    requires |u| >= 17 && AllDigits(u) && u[0] != '0'
    ensures DigitsValue(u) >= 10_000_000_000_000_000
  {
    DigitsValueLowerBound(u);
    PowMonotone(16, |u| - 1);
    Pow10Sixteen();
  }

  lemma Pow10Sixteen()
    ensures Pow10(16) == 10_000_000_000_000_000
  {
    assert Pow10(8) == 100_000_000;
  }

  /** One decoding of `u.f` with the values of the pieces worked out. */
  lemma DecodesTo(s: string, u: string, f: string, v: nat)
    requires s == u + "." + f
    requires |u| > 0 && AllDigits(u) && AllDigits(f) && |f| <= PRECISION
    requires DigitsValue(u) * 10000 + FractionValue(f) == v <= U64_MAX
    ensures DeAmount(s) == Decoded(v)
  {
    DeAmountFraction(u, f);
  }

  /** Four fractional digits are taken as they are. */
  lemma DeAmountExampleFourDigits()
    ensures DeAmount("1.0001") == Decoded(10001)
  {
    assert "0001"[..3] == "000" && "000"[..2] == "00" && "00"[..1] == "0" && "0"[..0] == "";
    assert "1"[..0] == "";
    DecodesTo("1.0001", "1", "0001", 10001);
  }

  lemma DeAmountExampleInnerZeros()
    ensures DeAmount("2.0010") == Decoded(20010)
  {
    assert "0010"[..3] == "001" && "001"[..2] == "00" && "00"[..1] == "0" && "0"[..0] == "";
    assert "2"[..0] == "";
    DecodesTo("2.0010", "2", "0010", 20010);
  }

  /** Fewer fractional digits are right-padded. */
  lemma DeAmountExamplePadded()
    ensures DeAmount("10.01") == Decoded(100100)
  {
    assert "10"[..1] == "1" && "01"[..1] == "0" && "1"[..0] == "" && "0"[..0] == "";
    assert Shifted(1, 1) == 10;
    DecodesTo("10.01", "10", "01", 100100);
  }

  /** A leading zero of the integer piece is ignored. */
  lemma DeAmountExampleLeadingZero()
    ensures DeAmount("01.10") == Decoded(11000)
  {
    assert "10"[..1] == "1" && "01"[..1] == "0" && "1"[..0] == "" && "0"[..0] == "";
    assert Shifted(10, 1) == 100;
    DecodesTo("01.10", "01", "10", 11000);
  }

  lemma DeAmountExampleTrailingZero()
    ensures DeAmount("10.0110") == Decoded(100110)
  {
    assert "0110"[..3] == "011" && "011"[..2] == "01" && "01"[..1] == "0" && "0"[..0] == "";
    assert "10"[..1] == "1" && "1"[..0] == "";
    DecodesTo("10.0110", "10", "0110", 100110);
  }

  lemma DeAmountExampleHalf()
    ensures DeAmount("0.5") == Decoded(5000)
  {
    assert "5"[..0] == "" && "0"[..0] == "";
    assert Shifted(5, 2) == 500;
    DecodesTo("0.5", "0", "5", 5000);
  }

  /** An empty integer piece reads as zero. */
  lemma DeAmountExampleNoUnits()
    ensures DeAmount(".5") == Decoded(5000)
  {
    DeAmountEmptyUnits("5");
    assert "." + "5" == ".5" && "0." + "5" == "0.5";
    DeAmountExampleHalf();
  }

  lemma DeAmountExampleZero()
    ensures DeAmount("0") == Decoded(0)
  {
    assert "0"[..0] == "";
    DeAmountWhole("0");
  }

  /** A fractional piece of six digits is refused. */
  lemma DeAmountExamplePrecision()
    ensures DeAmount("1.010101") == Rejected(PrecisionNotSupported)
  {
    DeAmountLongFraction("1", "010101");
    assert "1" + "." + "010101" == "1.010101";
  }

  /** The largest values the parser's tests try overflow once scaled. */
  lemma DeAmountExampleOverflow()
    ensures DeAmount("99999999999999999").Rejected?
  {
    DigitsFromIndex("99999999999999999");
    BigRejected("99999999999999999");
  }

  lemma DeAmountExampleU64Max()
    ensures DeAmount("18446744073709551615").Rejected?
  {
    DigitsFromIndex("18446744073709551615");
    BigRejected("18446744073709551615");
  }

  lemma DeAmountExampleBeyondU64()
    ensures DeAmount("18446744073709551616").Rejected?
  {
    DigitsFromIndex("18446744073709551616");
    BigRejected("18446744073709551616");
  }

  lemma DeAmountExampleLetter()
    ensures DeAmount("a").Rejected?
  {
    DeAmountBadUnits("a", "", 0);
    assert "a" + "" == "a";
  }

  lemma DeAmountExampleNegative()
    ensures DeAmount("-1").Rejected?
  {
    DeAmountNegative("-1");
  }

  lemma DeAmountExampleNegativeBeyondU64()
    ensures DeAmount("-18446744073709551616").Rejected?
  {
    DeAmountNegative("-18446744073709551616");
  }
}
