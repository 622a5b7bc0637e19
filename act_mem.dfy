/** The in-memory account store: accounts by client id. Depositing,
    withdrawing, holding and releasing create a client's account on first
    use; the unchecked withdrawal and the lock switches never do. `Ledger`
    gives each operation on the map of account states; the class
    `MemActStore` keeps `Account` objects and is proved to agree with it. */
module ActMem {
  import opened Base
  import opened Accounts

  /** The four operations that go through the lazily created entry. */
  datatype Action = Withdraw(amnt: u64) | Deposit(amnt: u64) | Hold(amnt: u64) | Unhold(amnt: u64)

  /** The per-account method an action calls. */
  function Apply(a: AccountState, action: Action): Step
  {
    match action
    case Withdraw(amnt) => a.Withdraw(amnt)
    case Deposit(amnt) => a.Deposit(amnt)
    case Hold(amnt) => a.Hold(amnt)
    case Unhold(amnt) => a.Unhold(amnt)
  }

  /** A ledger after an operation, with the balance it returned. */
  datatype Outcome = Outcome(after: Ledger, result: Balance)

  /** A ledger after locking or unlocking, with the returned flag. */
  datatype Flagged = Flagged(after: Ledger, flag: bool)

  datatype Ledger = Ledger(accounts: map<u16, AccountState>)
  {
    /** `entry(client).or_insert_with(|| Account::new(client))`, read only. */
    function Entry(client: u16): (a: AccountState)
      ensures client in accounts ==> a == accounts[client]
      ensures client !in accounts ==> a == NewAccount(client)
    {
      if client in accounts then accounts[client] else NewAccount(client)
    }

    /** `action_act`: the client's account, created when missing, takes the
        action; its result is returned and no other account changes. */
    function ActionAct(client: u16, action: Action): (o: Outcome)
      ensures o.after.accounts.Keys == accounts.Keys + {client}
      ensures o.after.accounts[client] == Apply(Entry(client), action).after
      ensures o.result == Apply(Entry(client), action).result
      ensures forall c :: c in accounts && c != client ==> o.after.accounts[c] == accounts[c]
    {
      var step := Apply(Entry(client), action);
      Outcome(Ledger(accounts[client := step.after]), step.result)
    }

    function Deposit(client: u16, amnt: u64): (o: Outcome)
      ensures o.after.accounts == accounts[client := Entry(client).Deposit(amnt).after]
      ensures o.result == Entry(client).Deposit(amnt).result
    {
      ActionAct(client, Action.Deposit(amnt))
    }

    function Withdraw(client: u16, amnt: u64): (o: Outcome)
      ensures o.after.accounts == accounts[client := Entry(client).Withdraw(amnt).after]
      ensures o.result == Entry(client).Withdraw(amnt).result
    {
      ActionAct(client, Action.Withdraw(amnt))
    }

    function Hold(client: u16, amnt: u64): (o: Outcome)
      ensures o.after.accounts == accounts[client := Entry(client).Hold(amnt).after]
      ensures o.result == Entry(client).Hold(amnt).result
    {
      ActionAct(client, Action.Hold(amnt))
    }

    function Unhold(client: u16, amnt: u64): (o: Outcome)
      ensures o.after.accounts == accounts[client := Entry(client).Unhold(amnt).after]
      ensures o.result == Entry(client).Unhold(amnt).result
    {
      ActionAct(client, Action.Unhold(amnt))
    }

    /** `withdraw_unchecked`: an unknown client is an error and nothing is
        created; otherwise the account withdraws allowing a negative total. */
    function WithdrawUnchecked(client: u16, amnt: u64): (o: Outcome)
      ensures client !in accounts ==> o == Outcome(this, Err(AccountNotFound))
      ensures client in accounts ==>
        o.after.accounts.Keys == accounts.Keys &&
        o.after.accounts[client] == accounts[client].WithdrawAllowNegative(amnt).after &&
        o.result == accounts[client].WithdrawAllowNegative(amnt).result
      ensures forall c :: c in accounts && c != client ==> o.after.accounts[c] == accounts[c]
    {
      if client in accounts then
        var step := accounts[client].WithdrawAllowNegative(amnt);
        Outcome(Ledger(accounts[client := step.after]), step.result)
      else Outcome(this, Err(AccountNotFound))
    }

    /** `lock_account`: false and no change for an unknown client. */
    function LockAccount(client: u16): (f: Flagged)
      ensures client !in accounts ==> f == Flagged(this, false)
      ensures client in accounts ==> f.flag && f.after.accounts == accounts[client := accounts[client].Lock()]
    {
      if client in accounts then Flagged(Ledger(accounts[client := accounts[client].Lock()]), true)
      else Flagged(this, false)
    }

    /** `unlock_account`: false for an unknown client and for a known one alike. */
    function UnlockAccount(client: u16): (f: Flagged)
      ensures !f.flag
      ensures client !in accounts ==> f.after == this
      ensures client in accounts ==> f.after.accounts == accounts[client := accounts[client].Unlock()]
    {
      if client in accounts then Flagged(Ledger(accounts[client := accounts[client].Unlock()]), false)
      else Flagged(this, false)
    }

    /** `get_account`. */
    function GetAccount(client: u16): (r: Option<AccountState>)
      ensures r.Some? <==> client in accounts
      ensures r.Some? ==> r.value == accounts[client]
    {
      if client in accounts then Some(accounts[client]) else None
    }
  }

  /** Holds can take the available balance below zero and releases give it
      back: deposit 100, hold 10, hold 100, release 20. */
  lemma HoldScenario()
    ensures var o1 := Ledger(map[]).Deposit(1, 100);
      var o2 := o1.after.Hold(1, 10);
      var o3 := o2.after.Hold(1, 100);
      var o4 := o3.after.Unhold(1, 20);
      o1.result == Ok(100) && o2.result == Ok(90) &&
      o2.after.GetAccount(1) == Some(AccountState(1, 100, 10, false)) &&
      o3.result == Ok(-10) && o4.result == Ok(10)
  {
  }

  /** A refused first withdrawal still leaves a new, empty account behind. */
  lemma NegativeBalanceScenario()
    ensures var o := Ledger(map[]).Withdraw(1, 1);
      o.result == Err(NegativeBalance) && o.after.GetAccount(1) == Some(NewAccount(1))
  {
  }

  /** Deposits add up and a withdrawal reports the rest. */
  lemma BalanceScenario()
    ensures var o1 := Ledger(map[]).Deposit(1, 200);
      var o2 := o1.after.Deposit(1, 50);
      var o3 := o1.after.Withdraw(1, 50);
      o1.result == Ok(200) && o2.result == Ok(250) && o3.result == Ok(150)
  {
  }

  /** Locking a known client reports true and sets the flag; unlocking reports false. */
  lemma LockScenario()
    ensures var l := Ledger(map[]).Deposit(1, 100).after;
      var f := l.LockAccount(1);
      f.flag && f.after.accounts[1].locked &&
      var g := f.after.UnlockAccount(1);
      !g.flag && !g.after.accounts[1].locked
  {
  }

  /** The store as an object: a map from client id to the account object. */
  class MemActStore {
    var accounts: map<u16, Account>

    /** Each account sits under its own id, so distinct keys hold distinct objects. */
    predicate Valid()
      reads this, accounts.Values
    {
      forall c :: c in accounts ==> accounts[c].id == c
    }

    /** The accounts' current states. */
    function Snapshot(): Ledger
      reads this, accounts.Values
    {
      Ledger(map c | c in accounts :: accounts[c].State())
    }

    constructor ()
      ensures Valid() && Snapshot() == Ledger(map[])
    {
      accounts := map[];
    }

    /** The entry for `client`, inserted when missing. */
    method EntryOrInsert(client: u16) returns (act: Account)
      requires Valid()
      modifies this
      ensures Valid() && accounts == old(accounts)[client := act]
      ensures client in old(accounts) ==> act == old(accounts)[client]
      ensures client !in old(accounts) ==> fresh(act) && act.State() == NewAccount(client)
      ensures accounts.Values <= old(accounts.Values) + {act}
    {
      if client in accounts {
        act := accounts[client];
      } else {
        act := new Account(client);
        accounts := accounts[client := act];
      }
    }

    method ActionAct(client: u16, action: Action) returns (r: Balance)
      requires Valid()
      modifies this, accounts.Values
      ensures Valid()
      ensures fresh(accounts.Values - old(accounts.Values))
      ensures Snapshot() == old(Snapshot()).ActionAct(client, action).after
      ensures r == old(Snapshot()).ActionAct(client, action).result
    {
      ghost var before := Snapshot();
      var act := EntryOrInsert(client);
      ghost var entry := act.State();
      assert entry == before.Entry(client);
      r := Perform(act, action);
      SnapshotAfterUpdate(before, client, act, Apply(entry, action).after);
    }

    /** The `match action` of `action_act`, on the account found. */
    static method Perform(act: Account, action: Action) returns (r: Balance)
      modifies act
      ensures act.State() == Apply(old(act.State()), action).after
      ensures r == Apply(old(act.State()), action).result
    {
      match action {
        case Withdraw(amnt) => r := act.Withdraw(amnt);
        case Deposit(amnt) => r := act.Deposit(amnt);
        case Hold(amnt) => r := act.Hold(amnt);
        case Unhold(amnt) => r := act.Unhold(amnt);
      }
    }

    /** Only the updated account's state differs. */
    lemma SnapshotAfterUpdate(before: Ledger, client: u16, act: Account, s: AccountState)
      requires Valid() && client in accounts && accounts[client] == act && act.State() == s
      requires forall c :: c in accounts && c != client ==> c in before.accounts && accounts[c].State() == before.accounts[c]
      requires accounts.Keys == before.accounts.Keys + {client}
      ensures Snapshot() == Ledger(before.accounts[client := s])
    {
    }

    method Deposit(client: u16, amnt: u64) returns (r: Balance)
      requires Valid()
      modifies this, accounts.Values
      ensures Valid()
      ensures fresh(accounts.Values - old(accounts.Values))
      ensures Snapshot() == old(Snapshot()).Deposit(client, amnt).after
      ensures r == old(Snapshot()).Deposit(client, amnt).result
    {
      r := ActionAct(client, Action.Deposit(amnt));
    }

    method Withdraw(client: u16, amnt: u64) returns (r: Balance)
      requires Valid()
      modifies this, accounts.Values
      ensures Valid()
      ensures fresh(accounts.Values - old(accounts.Values))
      ensures Snapshot() == old(Snapshot()).Withdraw(client, amnt).after
      ensures r == old(Snapshot()).Withdraw(client, amnt).result
    {
      r := ActionAct(client, Action.Withdraw(amnt));
    }

    method Hold(client: u16, amnt: u64) returns (r: Balance)
      requires Valid()
      modifies this, accounts.Values
      ensures Valid()
      ensures fresh(accounts.Values - old(accounts.Values))
      ensures Snapshot() == old(Snapshot()).Hold(client, amnt).after
      ensures r == old(Snapshot()).Hold(client, amnt).result
    {
      r := ActionAct(client, Action.Hold(amnt));
    }

    method Unhold(client: u16, amnt: u64) returns (r: Balance)
      requires Valid()
      modifies this, accounts.Values
      ensures Valid()
      ensures fresh(accounts.Values - old(accounts.Values))
      ensures Snapshot() == old(Snapshot()).Unhold(client, amnt).after
      ensures r == old(Snapshot()).Unhold(client, amnt).result
    {
      r := ActionAct(client, Action.Unhold(amnt));
    }

    method WithdrawUnchecked(client: u16, amnt: u64) returns (r: Balance)
      requires Valid()
      modifies accounts.Values
      ensures Valid()
      ensures Snapshot() == old(Snapshot()).WithdrawUnchecked(client, amnt).after
      ensures r == old(Snapshot()).WithdrawUnchecked(client, amnt).result
    {
      ghost var before := Snapshot();
      if client in accounts {
        var act := accounts[client];
        ghost var entry := act.State();
        r := act.WithdrawAllowNegative(amnt);
        SnapshotAfterUpdate(before, client, act, entry.WithdrawAllowNegative(amnt).after);
      } else {
        r := Err(AccountNotFound);
      }
    }

    method LockAccount(client: u16) returns (r: bool)
      requires Valid()
      modifies accounts.Values
      ensures Valid()
      ensures Snapshot() == old(Snapshot()).LockAccount(client).after
      ensures r == old(Snapshot()).LockAccount(client).flag
    {
      ghost var before := Snapshot();
      if client in accounts {
        var act := accounts[client];
        ghost var entry := act.State();
        r := act.Lock();
        SnapshotAfterUpdate(before, client, act, entry.Lock());
      } else {
        r := false;
      }
    }

    method UnlockAccount(client: u16) returns (r: bool)
      requires Valid()
      modifies accounts.Values
      ensures Valid()
      ensures Snapshot() == old(Snapshot()).UnlockAccount(client).after
      ensures r == old(Snapshot()).UnlockAccount(client).flag
    {
      ghost var before := Snapshot();
      if client in accounts {
        var act := accounts[client];
        ghost var entry := act.State();
        r := act.Unlock();
        SnapshotAfterUpdate(before, client, act, entry.Unlock());
      } else {
        r := false;
      }
    }

    method GetAccount(client: u16) returns (r: Option<Account>)
      requires Valid()
      ensures r.Some? <==> client in accounts
      ensures r.Some? ==> r.value == accounts[client] && r.value.State() == Snapshot().accounts[client]
    {
      r := if client in accounts then Some(accounts[client]) else None;
    }
  }
}
