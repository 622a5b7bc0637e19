/** A client account: a signed total, an unsigned amount held by disputes and
    a lock flag, with every balance change done in Rust's checked arithmetic.
    `AccountState` gives each operation as a function from the old state to
    the new state and the returned balance; the class `Account` performs the
    same operations field by field and is proved to agree with it. */
module Accounts {
  import opened Base

  /** `Result<i64>`: a balance, or the kind of error reported. */
  datatype Balance = Ok(value: i64) | Err(error: Error)

  datatype AccountState = AccountState(id: u16, total: i64, held: u64, locked: bool)
  {
    /** `available()`: total minus held, when that fits in an `i64`. */
    function Available(): (r: Balance)
      ensures r.Ok? <==> I64_MIN <= total - held
      ensures r.Ok? ==> r.value == total - held
      ensures r.Err? ==> r.error == AvailableOverflow
    {
      match CheckedSubUnsigned(total, held)
      case Some(a) => Ok(a)
      case None => Err(AvailableOverflow)
    }

    /** `hold(amnt)`: all or nothing. On success `held` grows by `amnt`;
        when the addition overflows or the new available is out of range
        the account is left exactly as it was. */
    function Hold(amnt: u64): (s: Step)
      ensures s.after.id == id && s.after.total == total && s.after.locked == locked
      ensures s.result.Ok? <==> held + amnt <= U64_MAX && I64_MIN <= total - (held + amnt)
      ensures s.result.Ok? ==> s.after.held == held + amnt && s.result.value == total - s.after.held
      ensures s.result.Err? ==> s.after == this
      ensures s.result.Err? ==>
        s.result.error == if held + amnt > U64_MAX then HoldOverflow else AvailableOverflow
    {
      match CheckedAdd(held, amnt)
      case Some(h) =>
        var next := this.(held := h);
        if next.Available().Ok? then Step(next, next.Available())
        else Step(this, next.Available())
      case None => Step(this, Err(HoldOverflow))
    }

    /** `unhold(amnt)`: refused without change when more than is held;
        otherwise releases `amnt` and reports the new available. */
    function Unhold(amnt: u64): (s: Step)
      ensures amnt > held ==> s == Step(this, Err(InvalidUnhold))
      ensures amnt <= held ==> s.after == this.(held := held - amnt)
      ensures amnt <= held ==> s.result == s.after.Available()
    {
      match CheckedSub(held, amnt)
      case Some(h) => var next := this.(held := h); Step(next, next.Available())
      case None => Step(this, Err(InvalidUnhold))
    }

    /** `deposit(amnt)`: refused without change when the total would pass
        `i64::MAX`; otherwise the total is written first and the new
        available reported, which may still be an error. */
    function Deposit(amnt: u64): (s: Step)
      ensures total + amnt > I64_MAX ==> s == Step(this, Err(DepositOverflow))
      ensures total + amnt <= I64_MAX ==> s.after == this.(total := total + amnt)
      ensures total + amnt <= I64_MAX ==> s.result == s.after.Available()
    {
      match CheckedAddUnsigned(total, amnt)
      case Some(t) => var next := this.(total := t); Step(next, next.Available())
      case None => Step(this, Err(DepositOverflow))
    }

    /** `internal_withdraw(amnt, allow_negative)`. The new total is computed
        from the available balance, so the held amount is deducted as well. */
    function InternalWithdraw(amnt: u64, allowNegative: bool): (s: Step)
      ensures Available().Err? ==> s == Step(this, Err(AvailableOverflow))
      ensures Available().Ok? && total - held - amnt < I64_MIN ==>
        s == Step(this, Err(WithdrawOverflow))
      ensures Available().Ok? && I64_MIN <= total - held - amnt < 0 && !allowNegative ==>
        s == Step(this, Err(NegativeBalance))
      ensures Available().Ok? && I64_MIN <= total - held - amnt && (0 <= total - held - amnt || allowNegative) ==>
        s.after == this.(total := total - held - amnt) && s.result == s.after.Available()
    {
      match Available()
      case Err(e) => Step(this, Err(e))
      case Ok(avail) =>
        match CheckedSubUnsigned(avail, amnt)
        case None => Step(this, Err(WithdrawOverflow))
        case Some(t) =>
          if t >= 0 || allowNegative then
            var next := this.(total := t);
            Step(next, next.Available())
          else Step(this, Err(NegativeBalance))
    }

    /** `withdraw(amnt)`: succeeds exactly when `amnt` does not exceed the
        available balance. The new total is that balance minus `amnt`, so
        the held amount is deducted from the total as well and the reported
        available is `total - 2 * held - amnt`, which may be below zero. On
        failure nothing changes. */
    function Withdraw(amnt: u64): (s: Step)
      ensures s.result.Ok? <==> amnt <= total - held
      ensures s.result.Ok? ==>
        s.after == this.(total := total - held - amnt) && s.result.value == total - 2 * held - amnt
      ensures s.result.Err? ==> s.after == this
    {
      InternalWithdraw(amnt, false)
    }

    /** `withdraw_allow_negative(amnt)`: the same without the sign check, so
        the total may become negative. */
    function WithdrawAllowNegative(amnt: u64): (s: Step)
      ensures s.result.Ok? <==> I64_MIN <= total - 2 * held - amnt
      ensures s.result.Ok? ==> s.result.value == total - 2 * held - amnt
      ensures s.after.id == id && s.after.held == held && s.after.locked == locked
      ensures total - held - amnt < I64_MIN ==> s.after == this
      ensures I64_MIN <= total - held - amnt ==> s.after == this.(total := total - held - amnt)
    {
      InternalWithdraw(amnt, true)
    }

    /** `lock()`: sets the flag and nothing else. */
    function Lock(): (a: AccountState)
      ensures a.locked
      ensures a.id == id && a.total == total && a.held == held
    {
      this.(locked := true)
    }

    /** `unlock()`: clears the flag and nothing else. */
    function Unlock(): (a: AccountState)
      ensures !a.locked
      ensures a.id == id && a.total == total && a.held == held
    {
      this.(locked := false)
    }
  }

  /** The state after an operation, with the balance the operation returned. */
  datatype Step = Step(after: AccountState, result: Balance)

  /** `Account::new`. */
  function NewAccount(id: u16): (a: AccountState)
    ensures a.id == id && a.total == 0 && a.held == 0 && !a.locked
    ensures a.Available() == Ok(0)
  {
    AccountState(id, 0, 0, false)
  }

  /** `Account::with_balance`. */
  function AccountWithBalance(id: u16, balance: i64): (a: AccountState)
    ensures a.id == id && a.total == balance && a.held == 0 && !a.locked
    ensures a.Available() == Ok(balance)
  {
    AccountState(id, balance, 0, false)
  }

  /** Releasing what a successful hold took restores the account and its
      available balance. */
  lemma HoldUnholdRoundTrip(a: AccountState, amnt: u64)
    requires a.Hold(amnt).result.Ok?
    ensures a.Available().Ok?
    ensures a.Hold(amnt).after.Unhold(amnt) == Step(a, a.Available())
  {
  }

  /** Holding again what was released restores an in-range account. */
  lemma UnholdHoldRoundTrip(a: AccountState, amnt: u64)
    requires amnt <= a.held && a.Available().Ok?
    ensures a.Unhold(amnt).after.Hold(amnt) == Step(a, a.Available())
  {
  }

  /** On an account whose available balance is in range, a deposit succeeds
      exactly when the total stays within `i64::MAX`, and raises the
      available balance by the amount. */
  lemma DepositIff(a: AccountState, amnt: u64)
    requires a.Available().Ok?
    ensures a.Deposit(amnt).result.Ok? <==> a.total + amnt <= I64_MAX
    ensures a.Deposit(amnt).result.Ok? ==> a.Deposit(amnt).result.value == a.Available().value + amnt
  {
  }

  /** One deposit that writes the new total and still reports an error:
      total `i64::MIN`, held 2, deposit 1. */
  lemma DepositLateFailure()
    ensures var a := AccountState(1, I64_MIN, 2, false);
      a.Deposit(1) == Step(a.(total := I64_MIN + 1), Err(AvailableOverflow))
  {
  }

  /** The held amount is taken from the total by a withdrawal:
      total 100, held 50, withdraw 50 leaves total 0 and available -50. */
  lemma WithdrawDeductsHeld()
    ensures var a := AccountState(1, 100, 50, false);
      a.Withdraw(50) == Step(a.(total := 0), Ok(-50))
  {
  }

  /** With negative totals allowed, the final `available()` can fail after
      the total has been written. */
  lemma WithdrawAllowNegativeLateFailure()
    ensures var a := AccountState(1, 0, 0x8000_0000_0000_0000, false);
      a.Available() == Ok(I64_MIN) &&
      a.WithdrawAllowNegative(0) == Step(a.(total := I64_MIN), Err(AvailableOverflow))
  {
  }

  /** The lock flag is never consulted: a locked account deposits,
      withdraws, holds and releases exactly as an unlocked one. */
  lemma LockDoesNotGate(a: AccountState, amnt: u64)
    ensures a.Lock().Deposit(amnt).result == a.Deposit(amnt).result
    ensures a.Lock().Withdraw(amnt).result == a.Withdraw(amnt).result
    ensures a.Lock().WithdrawAllowNegative(amnt).result == a.WithdrawAllowNegative(amnt).result
    ensures a.Lock().Hold(amnt).result == a.Hold(amnt).result
    ensures a.Lock().Unhold(amnt).result == a.Unhold(amnt).result
  {
  }

  /** Single operations on small balances. */
  lemma SmallBalanceExamples()
    ensures NewAccount(300).Deposit(200) == Step(AccountState(300, 200, 0, false), Ok(200))
    ensures AccountWithBalance(400, 300).Withdraw(100) == Step(AccountState(400, 200, 0, false), Ok(200))
    ensures AccountWithBalance(500, 300).Hold(100) == Step(AccountState(500, 300, 100, false), Ok(200))
    ensures AccountWithBalance(600, 300).Hold(100).after.Unhold(50) == Step(AccountState(600, 300, 50, false), Ok(250))
    ensures AccountWithBalance(700, 300).Hold(100).after.Unhold(200).result == Err(InvalidUnhold)
    ensures NewAccount(800).Withdraw(100) == Step(NewAccount(800), Err(NegativeBalance))
  {
  }

  /** The sum of a sequence of amounts. */
  function Sum(amounts: seq<u64>): nat
  {
    if |amounts| == 0 then 0 else Sum(amounts[..|amounts| - 1]) + amounts[|amounts| - 1]
  }

  /** The account after depositing each amount in turn. */
  function DepositAll(a: AccountState, amounts: seq<u64>): AccountState
  {
    if |amounts| == 0 then a
    else DepositAll(a, amounts[..|amounts| - 1]).Deposit(amounts[|amounts| - 1]).after
  }

  /** Deposits that keep the total in range accumulate, whatever each one
      reports, and change nothing but the total. */
  lemma {:induction false} DepositsAccumulate(a: AccountState, amounts: seq<u64>)
    requires a.total + Sum(amounts) <= I64_MAX
    ensures DepositAll(a, amounts) == a.(total := a.total + Sum(amounts))
  {
    if |amounts| > 0 {
      DepositsAccumulate(a, amounts[..|amounts| - 1]);
    }
  }

  /** The boundary sequence on a fresh account: a deposit of `i64::MAX`,
      a hold of `u64::MAX` reaching an available of `i64::MIN`, and the
      refused steps beyond each limit. */
  lemma LimitValues()
    ensures var s1 := NewAccount(999).Deposit(I64_MAX);
      s1.result == Ok(I64_MAX) &&
      var s2 := s1.after.Deposit(1);
      s2.result.Err? && s2.after.Available() == Ok(I64_MAX) &&
      var s3 := s2.after.Hold(U64_MAX);
      s3.result == Ok(I64_MIN) &&
      var s4 := s3.after.Hold(1);
      s4.result.Err? && s4.after.Available() == Ok(I64_MIN) &&
      var s5 := s4.after.Unhold(U64_MAX);
      s5.result == Ok(I64_MAX) &&
      var s6 := s5.after.Withdraw(1);
      s6.result.Ok? &&
      var s7 := s6.after.Hold(U64_MAX);
      s7.result.Err? && s7.after.Available() == Ok(I64_MAX - 1)
  {
  }

  /** An account seeded with `i64::MAX` can hold `u64::MAX` once, but no more. */
  lemma HoldOverflowExample()
    ensures var s := AccountWithBalance(1, I64_MAX).Hold(U64_MAX);
      s.result.Ok? && s.after.Hold(1) == Step(s.after, Err(HoldOverflow))
  {
  }

  /** The account as an object whose methods update its fields in place. */
  class Account {
    const id: u16
    var total: i64
    var held: u64
    var locked: bool

    function State(): AccountState
      reads this
    {
      AccountState(id, total, held, locked)
    }

    constructor (clientId: u16)
      ensures State() == NewAccount(clientId)
    {
      id, total, held, locked := clientId, 0, 0, false;
    }

    constructor WithBalance(clientId: u16, seedBalance: i64)
      ensures State() == AccountWithBalance(clientId, seedBalance)
    {
      id, total, held, locked := clientId, seedBalance, 0, false;
    }

    /** Sets `held` first and writes the old value back when the new
        available balance is out of range. */
    method Hold(amnt: u64) returns (r: Balance)
      modifies this
      ensures State() == old(State()).Hold(amnt).after
      ensures r == old(State()).Hold(amnt).result
    {
      var currentHeld := held;
      match CheckedAdd(held, amnt)
      case Some(h) =>
        held := h;
        r := State().Available();
        if r.Err? {
          held := currentHeld;
        }
      case None =>
        r := Err(HoldOverflow);
    }

    method Unhold(amnt: u64) returns (r: Balance)
      modifies this
      ensures State() == old(State()).Unhold(amnt).after
      ensures r == old(State()).Unhold(amnt).result
    {
      match CheckedSub(held, amnt)
      case Some(h) =>
        held := h;
        r := State().Available();
      case None =>
        r := Err(InvalidUnhold);
    }

    method Deposit(amnt: u64) returns (r: Balance)
      modifies this
      ensures State() == old(State()).Deposit(amnt).after
      ensures r == old(State()).Deposit(amnt).result
    {
      match CheckedAddUnsigned(total, amnt)
      case Some(t) =>
        total := t;
        r := State().Available();
      case None =>
        r := Err(DepositOverflow);
    }

    method InternalWithdraw(amnt: u64, allowNegative: bool) returns (r: Balance)
      modifies this
      ensures State() == old(State()).InternalWithdraw(amnt, allowNegative).after
      ensures r == old(State()).InternalWithdraw(amnt, allowNegative).result
    {
      var available := State().Available();
      if available.Err? {
        return available;
      }
      var next := CheckedSubUnsigned(available.value, amnt);
      if next.None? {
        return Err(WithdrawOverflow);
      } else if next.value >= 0 || allowNegative {
        total := next.value;
      } else {
        return Err(NegativeBalance);
      }
      r := State().Available();
    }

    method Withdraw(amnt: u64) returns (r: Balance)
      modifies this
      ensures State() == old(State()).Withdraw(amnt).after
      ensures r == old(State()).Withdraw(amnt).result
    {
      r := InternalWithdraw(amnt, false);
    }

    method WithdrawAllowNegative(amnt: u64) returns (r: Balance)
      modifies this
      ensures State() == old(State()).WithdrawAllowNegative(amnt).after
      ensures r == old(State()).WithdrawAllowNegative(amnt).result
    {
      r := InternalWithdraw(amnt, true);
    }

    method Lock() returns (r: bool)
      modifies this
      ensures State() == old(State()).Lock()
      ensures r
    {
      locked := true;
      r := locked;
    }

    method Unlock() returns (r: bool)
      modifies this
      ensures State() == old(State()).Unlock()
      ensures !r
    {
      locked := false;
      r := locked;
    }
  }
}
