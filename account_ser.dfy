/** The textual form of an account written to the output: each amount as its
    whole units, a '.', and the remainder in ten-thousandths, with Rust's
    truncating division and without padding the remainder. */
module Serialization {
  import opened Base
  import opened Decimal
  import opened Transactions
  import opened Accounts

  /** `10i64.pow(PRECISION)`. */
  const DEC: int := 10000

  /** Rust's `/` on integers: the quotient rounded toward zero, so the
      remainder has the sign of the dividend. */
  function TruncDiv(x: int): (q: int)
    ensures 0 <= x ==> 0 <= x - q * DEC < DEC
    ensures x < 0 ==> -DEC < x - q * DEC <= 0
  {
    if x >= 0 then x / DEC else -((-x) / DEC)
  }

  function Abs(x: int): nat
  {
    if x < 0 then -x else x
  }

  /** Rust's `{}` on a signed integer: a '-' before the digits of a negative value. */
  function IntToString(x: int): (s: string)
    ensures 0 <= x ==> |s| > 0 && AllDigits(s) && DigitsValue(s) == x
    ensures 0 <= x ==> (s[0] == '0' <==> x == 0) && (x == 0 ==> s == "0")
    ensures x < 0 ==> |s| > 1 && s[0] == '-' && AllDigits(s[1..]) && DigitsValue(s[1..]) == -x
    ensures x < 0 ==> s[1] != '0'
  {
    if x < 0 then
      var d := NatToString(-x);
      assert ("-" + d)[1..] == d;
      "-" + d
    else NatToString(x)
  }

  /** `format!("{}.{}", x / dec, x.abs() % dec)` on an `i64`. Taking the
      absolute value of `i64::MIN` overflows, so that value is excluded. */
  function RenderSigned(x: i64): string
    requires x > I64_MIN
  {
    IntToString(TruncDiv(x)) + "." + NatToString(Abs(x) % DEC)
  }

  /** `format!("{}.{}", x / udec, x % udec)` on a `u64`. */
  function RenderUnsigned(x: u64): string
  {
    NatToString(x / DEC) + "." + NatToString(x % DEC)
  }

  /** The record written for one account (`AccountSer`). */
  datatype AccountRecord = AccountRecord(id: u16, total: string, held: string, available: string, locked: bool)

  /** A value that can be rendered: anything but `i64::MIN`. */
  predicate Renderable(b: Balance)
  {
    b.Ok? ==> b.value > I64_MIN
  }

  /** `Serialize for Account`: the available balance is written as "0" when
      it is out of range, and differs from "0" otherwise. */
  function Serialize(a: AccountState): (r: AccountRecord)
    requires a.total > I64_MIN && Renderable(a.Available())
    ensures r.id == a.id && r.locked == a.locked
    ensures r.total == RenderSigned(a.total) && r.held == RenderUnsigned(a.held)
    ensures r.available == "0" <==> a.Available().Err?
    ensures a.Available().Ok? ==> r.available == RenderSigned(a.Available().value)
  {
    var available :=
      match a.Available()
      case Ok(v) => RenderSigned(v)
      case Err(_) => "0";
    AccountRecord(a.id, RenderSigned(a.total), RenderUnsigned(a.held), available, a.locked)
  }

  /** A non-negative amount renders as its unsigned form. */
  lemma RenderNonNegative(x: i64)
    requires x >= 0
    ensures RenderSigned(x) == RenderUnsigned(x)
  {
  }

  /** An amount of at most -1.0 renders as a '-' before the form of its magnitude. */
  lemma RenderNegative(x: i64)
    requires I64_MIN < x <= -DEC
    ensures RenderSigned(x) == "-" + RenderUnsigned(-x)
  {
    var q := (-x) / DEC;
    assert q > 0;
    assert IntToString(TruncDiv(x)) == "-" + NatToString(q);
  }

  /** Above -1.0 the quotient is zero and the sign is lost: -0.5 renders
      as "0.5000" does, that is as 0.5. */
  lemma RenderLosesSign(x: i64)
    requires -DEC < x < 0
    ensures RenderSigned(x) == RenderSigned(-x)
  {
  }

  /** `x` followed by at least one zero is larger than `x`. */
  lemma {:induction false} ShiftedGrows(x: nat, n: nat)
    requires x > 0 && n > 0
    ensures Shifted(x, n) > x
  {
    if n > 1 {
      ShiftedGrows(x, n - 1);
    }
  }

  /** Reading back the rendering of an unsigned amount with `de_amount`
      gives the amount exactly when its remainder is zero or has four
      digits: without zero padding, 10001 renders as "1.1", read back as
      11000. */
  lemma RenderRoundTrip(x: u64)
    ensures DeAmount(RenderUnsigned(x)) == Decoded(x) <==> x % DEC == 0 || x % DEC >= 1000
  {
    var f := x % DEC;
    var g := NatToString(f);
    RenderRead(x);
    NatToStringFour(f);
    if f == 0 {
      ShiftedZero(PRECISION - |g|);
    } else if f < 1000 {
      ShiftedGrows(f, PRECISION - |g|);
    }
  }

  /** What `de_amount` makes of the rendering of an unsigned amount. */
  lemma RenderRead(x: u64)
    ensures |NatToString(x % DEC)| <= PRECISION
    ensures DeAmount(RenderUnsigned(x)) ==
      Bounded(x / DEC * 10000 + Shifted(x % DEC, PRECISION - |NatToString(x % DEC)|))
  {
    var q, f := x / DEC, x % DEC;
    NatToStringFour(f);
    DeAmountFraction(NatToString(q), NatToString(f));
  }

  lemma RenderExampleUnpadded()
    ensures RenderUnsigned(10001) == "1.1"
  {
    assert NatToString(1) == "1";
  }

  lemma RenderExampleZero()
    ensures RenderUnsigned(0) == "0.0"
  {
    assert NatToString(0) == "0";
  }

  /** An account whose available balance is out of range shows it as "0". */
  lemma SerializeOutOfRange()
    ensures Serialize(AccountState(1, 0, U64_MAX, false)).available == "0"
  {
  }
}
