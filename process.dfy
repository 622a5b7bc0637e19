/** The transaction processor: deposits and withdrawals go to the account
    store, and deposits are remembered so that a later dispute can hold
    their amount, a resolve release it again, and a chargeback lock the
    account, release the amount and take it out. `Transition` is the effect
    of one transaction on the ledger and the history; `Process` performs it
    on the store object and is proved to agree with it. */
module Processor {
  import opened Base
  import opened Transactions
  import opened Accounts
  import opened ActMem

  /** A remembered deposit and whether it is under dispute. */
  datatype InternalTransaction = InternalTransaction(tx: Transaction, disputed: bool)

  /** The dispute history, by transaction id. */
  type History = map<u32, InternalTransaction>

  datatype State = State(ledger: Ledger, history: History)

  /** The state after a transaction, with the balance `process` returned. */
  datatype Processed = Processed(after: State, result: Balance)

  /** The checks shared by dispute, resolve and chargeback: the referenced
      transaction is known and belongs to the same client. */
  function Lookup(h: History, t: Transaction): (r: Option<Error>)
    ensures r == None <==> t.tx in h && h[t.tx].tx.client == t.client
    ensures t.tx !in h ==> r == Some(TxNotFound)
    ensures t.tx in h && h[t.tx].tx.client != t.client ==> r == Some(ClientMismatch)
  {
    if t.tx !in h then Some(TxNotFound)
    else if h[t.tx].tx.client != t.client then Some(ClientMismatch)
    else None
  }

  /** `process` on the ledger and history values. Only the transaction's
      client and the referenced history entry can change. */
  function Transition(s: State, t: Transaction): (p: Processed)
    ensures p.after.ledger.accounts.Keys <= s.ledger.accounts.Keys + {t.client}
    ensures forall c :: c in s.ledger.accounts && c != t.client ==>
      c in p.after.ledger.accounts && p.after.ledger.accounts[c] == s.ledger.accounts[c]
    ensures p.after.history.Keys <= s.history.Keys + {t.tx}
    ensures t.txType != TransactionType.Deposit ==> p.after.history.Keys == s.history.Keys
    ensures forall id :: id in s.history && id != t.tx ==>
      id in p.after.history && p.after.history[id] == s.history[id]
  {
    match t.txType
    case Deposit => DepositTx(s, t)
    case Withdrawal => WithdrawalTx(s, t)
    case Dispute => DisputeTx(s, t)
    case Resolve => ResolveTx(s, t)
    case Chargeback => ChargebackTx(s, t)
  }

  /** A deposit is remembered, undisputed, only when the store accepted it. */
  function DepositTx(s: State, t: Transaction): (p: Processed)
    ensures p.after.ledger == s.ledger.Deposit(t.client, t.amount).after
    ensures p.result == s.ledger.Deposit(t.client, t.amount).result
    ensures p.after.history == if p.result.Ok? then s.history[t.tx := InternalTransaction(t, false)] else s.history
  {
    var o := s.ledger.Deposit(t.client, t.amount);
    var h := if o.result.Ok? then s.history[t.tx := InternalTransaction(t, false)] else s.history;
    Processed(State(o.after, h), o.result)
  }

  /** A withdrawal goes to the store and is never remembered. */
  function WithdrawalTx(s: State, t: Transaction): (p: Processed)
    ensures p.after == State(s.ledger.Withdraw(t.client, t.amount).after, s.history)
    ensures p.result == s.ledger.Withdraw(t.client, t.amount).result
  {
    var o := s.ledger.Withdraw(t.client, t.amount);
    Processed(State(o.after, s.history), o.result)
  }

  /** A dispute of an undisputed deposit of the same client marks it and
      holds its amount; the mark stays even when the hold fails. */
  function DisputeTx(s: State, t: Transaction): (p: Processed)
    ensures Lookup(s.history, t).Some? ==> p == Processed(s, Err(Lookup(s.history, t).value))
    ensures Lookup(s.history, t).None? && s.history[t.tx].disputed ==> p == Processed(s, Err(AlreadyDisputed))
    ensures Lookup(s.history, t).None? && !s.history[t.tx].disputed ==>
      var o := s.ledger.Hold(t.client, s.history[t.tx].tx.amount);
      p == Processed(State(o.after, s.history[t.tx := s.history[t.tx].(disputed := true)]), o.result)
  {
    var check := Lookup(s.history, t);
    if check.Some? then Processed(s, Err(check.value))
    else
      var entry := s.history[t.tx];
      if entry.disputed then Processed(s, Err(AlreadyDisputed))
      else
        var o := s.ledger.Hold(t.client, entry.tx.amount);
        Processed(State(o.after, s.history[t.tx := entry.(disputed := true)]), o.result)
  }

  /** A resolve of a disputed deposit of the same client clears the mark and
      releases its amount; the mark stays cleared even when the release fails. */
  function ResolveTx(s: State, t: Transaction): (p: Processed)
    ensures Lookup(s.history, t).Some? ==> p == Processed(s, Err(Lookup(s.history, t).value))
    ensures Lookup(s.history, t).None? && !s.history[t.tx].disputed ==> p == Processed(s, Err(NotDisputed))
    ensures Lookup(s.history, t).None? && s.history[t.tx].disputed ==>
      var o := s.ledger.Unhold(t.client, s.history[t.tx].tx.amount);
      p == Processed(State(o.after, s.history[t.tx := s.history[t.tx].(disputed := false)]), o.result)
  {
    var check := Lookup(s.history, t);
    if check.Some? then Processed(s, Err(check.value))
    else
      var entry := s.history[t.tx];
      if !entry.disputed then Processed(s, Err(NotDisputed))
      else
        var o := s.ledger.Unhold(t.client, entry.tx.amount);
        Processed(State(o.after, s.history[t.tx := entry.(disputed := false)]), o.result)
  }

  /** The ledger steps of a chargeback of `amount`: lock, release, and, when
      the release succeeded, withdraw allowing a negative total. */
  function ChargebackLedger(l: Ledger, client: u16, amount: u64): (o: Outcome)
    ensures client in l.accounts ==> client in o.after.accounts && o.after.accounts[client].locked
    ensures client in l.accounts && amount > l.accounts[client].held ==>
      o == Outcome(Ledger(l.accounts[client := l.accounts[client].Lock()]), Err(InvalidUnhold))
    ensures client in l.accounts && amount <= l.accounts[client].held ==>
      var w := l.accounts[client].Lock().Unhold(amount).after.WithdrawAllowNegative(amount);
      o == Outcome(Ledger(l.accounts[client := w.after]), w.result)
    ensures client !in l.accounts && amount > 0 ==>
      o == Outcome(Ledger(l.accounts[client := NewAccount(client)]), Err(InvalidUnhold))
    ensures client !in l.accounts && amount == 0 ==>
      o == Outcome(Ledger(l.accounts[client := NewAccount(client)]), Ok(0))
  {
    var released := l.LockAccount(client).after.Unhold(client, amount);
    if released.result.Err? then released
    else released.after.WithdrawUnchecked(client, amount)
  }

  /** A chargeback of a disputed deposit of the same client; the history,
      and with it the dispute mark, is left as it is. */
  function ChargebackTx(s: State, t: Transaction): (p: Processed)
    ensures p.after.history == s.history
    ensures Lookup(s.history, t).Some? ==> p == Processed(s, Err(Lookup(s.history, t).value))
    ensures Lookup(s.history, t).None? && !s.history[t.tx].disputed ==> p == Processed(s, Err(NotDisputed))
    ensures Lookup(s.history, t).None? && s.history[t.tx].disputed ==>
      var o := ChargebackLedger(s.ledger, t.client, s.history[t.tx].tx.amount);
      p == Processed(State(o.after, s.history), o.result)
  {
    var check := Lookup(s.history, t);
    if check.Some? then Processed(s, Err(check.value))
    else
      var entry := s.history[t.tx];
      if !entry.disputed then Processed(s, Err(NotDisputed))
      else
        var o := ChargebackLedger(s.ledger, t.client, entry.tx.amount);
        Processed(State(o.after, s.history), o.result)
  }

  /** A transaction that references a deposit: dispute, resolve or chargeback. */
  predicate References(t: Transaction)
  {
    t.txType.Dispute? || t.txType.Resolve? || t.txType.Chargeback?
  }

  /** An unknown id or another client's transaction is refused and nothing changes. */
  lemma FailedLookupChangesNothing(s: State, t: Transaction)
    requires References(t) && Lookup(s.history, t).Some?
    ensures Transition(s, t) == Processed(s, Err(Lookup(s.history, t).value))
  {
  }

  /** A withdrawal is not remembered, so disputing its id finds nothing. */
  lemma WithdrawalNotDisputable(s: State, w: Transaction, c: u16, amount: u64)
    requires w.txType.Withdrawal? && w.tx !in s.history
    ensures var s1 := Transition(s, w).after;
      Transition(s1, Transaction(TransactionType.Dispute, c, w.tx, amount)) == Processed(s1, Err(TxNotFound))
  {
  }

  /** Disputing the same deposit twice: the second is refused and changes nothing. */
  lemma SecondDisputeFails(s: State, t: Transaction)
    requires t.txType.Dispute? && Lookup(s.history, t).None? && !s.history[t.tx].disputed
    ensures var s1 := Transition(s, t).after;
      Transition(s1, t) == Processed(s1, Err(AlreadyDisputed))
  {
    var s1 := Transition(s, t).after;
    assert s1.history[t.tx] == s.history[t.tx].(disputed := true);
  }

  /** The dispute mark is set whatever the hold returns. */
  lemma DisputeMarksEvenWhenHoldFails(s: State, t: Transaction)
    requires t.txType.Dispute? && Lookup(s.history, t).None? && !s.history[t.tx].disputed
    ensures Transition(s, t).after.history == s.history[t.tx := s.history[t.tx].(disputed := true)]
  {
  }

  /** One instance: holding one more unit on an account that already holds
      `u64::MAX` overflows, and the deposit still reads as disputed. */
  lemma DisputeFailedHoldExample()
    ensures var d := Transaction(TransactionType.Deposit, 1, 7, 1);
      var s := State(Ledger(map[1 := AccountState(1, 0, U64_MAX, false)]), map[7 := InternalTransaction(d, false)]);
      var p := Transition(s, Transaction(TransactionType.Dispute, 1, 7, 0));
      p.result == Err(HoldOverflow) && p.after.ledger == s.ledger && p.after.history[7].disputed
  {
  }

  /** A resolve clears the mark whatever the release returns. */
  lemma ResolveClearsEvenWhenUnholdFails(s: State, t: Transaction)
    requires t.txType.Resolve? && Lookup(s.history, t).None? && s.history[t.tx].disputed
    ensures Transition(s, t).after.history == s.history[t.tx := s.history[t.tx].(disputed := false)]
  {
  }

  /** Resolving a dispute whose hold succeeded on an existing account gives
      back the state before the dispute, and its available balance. */
  lemma DisputeResolveRoundTrip(s: State, t: Transaction)
    requires t.txType.Dispute? && Lookup(s.history, t).None? && !s.history[t.tx].disputed
    requires t.client in s.ledger.accounts
    requires Transition(s, t).result.Ok?
    ensures var s1 := Transition(s, t).after;
      Transition(s1, t.(txType := Resolve)) == Processed(s, s.ledger.accounts[t.client].Available())
  {
    var a := s.ledger.accounts[t.client];
    var entry := s.history[t.tx];
    HoldUnholdRoundTrip(a, entry.tx.amount);
    var s1 := Transition(s, t).after;
    assert s1.history[t.tx := entry] == s.history;
    assert s1.ledger.accounts[t.client := a] == s.ledger.accounts;
  }

  /** A chargeback leaves the dispute mark set, so the same chargeback passes
      its checks again. */
  lemma ChargebackKeepsFlag(s: State, t: Transaction)
    requires t.txType.Chargeback? && Lookup(s.history, t).None? && s.history[t.tx].disputed
    ensures var s1 := Transition(s, t).after;
      s1.history == s.history && Lookup(s1.history, t).None? && s1.history[t.tx].disputed
  {
  }

  /** A chargeback on an existing account locks it, whether or not the
      release and the withdrawal that follow succeed; when the release
      succeeds the account ends as locked, released and withdrawn. */
  lemma ChargebackEffects(s: State, t: Transaction)
    requires t.txType.Chargeback? && Lookup(s.history, t).None? && s.history[t.tx].disputed
    requires t.client in s.ledger.accounts
    ensures var a := s.ledger.accounts[t.client];
      var amount := s.history[t.tx].tx.amount;
      var p := Transition(s, t);
      t.client in p.after.ledger.accounts &&
      p.after.ledger.accounts[t.client].locked &&
      (amount > a.held ==> p.result == Err(InvalidUnhold) && p.after.ledger.accounts[t.client] == a.Lock()) &&
      (amount <= a.held ==>
        var w := a.Lock().Unhold(amount).after.WithdrawAllowNegative(amount);
        p.result == w.result && p.after.ledger.accounts[t.client] == w.after)
  {
  }

  /** Charging back a dispute whose hold succeeded: the account ends locked
      with its pre-dispute `held`. When the final withdrawal succeeds, the
      total loses the disputed amount and also what other disputes hold;
      with nothing else held, it loses exactly the disputed amount. */
  lemma DisputeChargeback(s: State, t: Transaction)
    requires t.txType.Dispute? && Lookup(s.history, t).None? && !s.history[t.tx].disputed
    requires t.client in s.ledger.accounts
    requires Transition(s, t).result.Ok?
    ensures var a := s.ledger.accounts[t.client];
      var amount := s.history[t.tx].tx.amount;
      var p := Transition(Transition(s, t).after, t.(txType := Chargeback));
      t.client in p.after.ledger.accounts &&
      p.after.ledger.accounts[t.client].held == a.held &&
      p.after.ledger.accounts[t.client].locked &&
      (p.result.Ok? ==>
        p.result == Ok(a.total - 2 * a.held - amount) &&
        p.after.ledger.accounts[t.client] == a.(total := a.total - a.held - amount, locked := true)) &&
      (a.held == 0 ==>
        p.result == Ok(a.total - amount) &&
        p.after.ledger.accounts[t.client] == a.(total := a.total - amount, locked := true))
  {
    var a := s.ledger.accounts[t.client];
    var amount := s.history[t.tx].tx.amount;
    var s1 := Transition(s, t).after;
    var held := a.Hold(amount).after;
    assert s1.ledger.accounts[t.client] == held;
    assert held == a.(held := a.held + amount);
    ChargebackEffects(s1, t.(txType := Chargeback));
    assert held.Lock().Unhold(amount).after == a.Lock();
  }

  /** The state before any transaction. */
  const Empty: State := State(Ledger(map[]), map[])

  /** The state after each transaction in turn. */
  function Run(s: State, txs: seq<Transaction>): State
  {
    if |txs| == 0 then s else Transition(Run(s, txs[..|txs| - 1]), txs[|txs| - 1]).after
  }

  /** Transactions only touch their own client's account. */
  lemma {:induction false} RunIsolation(s: State, txs: seq<Transaction>, c: u16)
    requires c in s.ledger.accounts
    requires forall i :: 0 <= i < |txs| ==> txs[i].client != c
    ensures c in Run(s, txs).ledger.accounts && Run(s, txs).ledger.accounts[c] == s.ledger.accounts[c]
  {
    if |txs| > 0 {
      RunIsolation(s, txs[..|txs| - 1], c);
    }
  }

  /** Deposit 2.0, withdraw 1.0 and dispute the deposit: 2.0 is held of a
      total of 1.0. The chargeback then releases it and takes it out, leaving
      nothing held, an available balance of -1.0 and the account locked. */
  lemma ChargebackScenario()
    ensures var s1 := Transition(Empty, Transaction(TransactionType.Deposit, 1, 1, 20000)).after;
      var s2 := Transition(s1, Transaction(Withdrawal, 1, 2, 10000)).after;
      var s3 := Transition(s2, Transaction(TransactionType.Dispute, 1, 1, 0)).after;
      var p := Transition(s3, Transaction(Chargeback, 1, 1, 0));
      s3.ledger.accounts[1] == AccountState(1, 10000, 20000, false) &&
      s3.ledger.accounts[1].Available() == Ok(-10000) &&
      p.result == Ok(-10000) &&
      p.after.ledger.accounts[1] == AccountState(1, -10000, 0, true)
  {
    ChargebackSetUp();
  }

  /** The state of `ChargebackScenario` before the chargeback. */
  function ChargebackDisputed(): State
  {
    var d := Transaction(TransactionType.Deposit, 1, 1, 20000);
    State(Ledger(map[1 := AccountState(1, 10000, 20000, false)]), map[1 := InternalTransaction(d, true)])
  }

  lemma ChargebackSetUp()
    ensures var s1 := Transition(Empty, Transaction(TransactionType.Deposit, 1, 1, 20000)).after;
      var s2 := Transition(s1, Transaction(Withdrawal, 1, 2, 10000)).after;
      Transition(s2, Transaction(TransactionType.Dispute, 1, 1, 0)).after == ChargebackDisputed()
  {
  }

  /** Held funds cannot be withdrawn; resolving the dispute frees them. */
  lemma HeldFundsScenario()
    ensures var s1 := Transition(Empty, Transaction(TransactionType.Deposit, 1, 1, 10000)).after;
      var s2 := Transition(s1, Transaction(TransactionType.Dispute, 1, 1, 0)).after;
      var p3 := Transition(s2, Transaction(Withdrawal, 1, 2, 10000));
      var s4 := Transition(p3.after, Transaction(Resolve, 1, 1, 0)).after;
      s2.ledger.accounts[1].held == 10000 && s2.ledger.accounts[1].Available() == Ok(0) &&
      p3.result == Err(NegativeBalance) && p3.after == s2 &&
      Transition(p3.after, Transaction(Resolve, 1, 1, 0)).result == Ok(10000) &&
      s4.ledger.accounts[1].held == 0 && s4.ledger.accounts[1].Available() == Ok(10000)
  {
    HeldFundsFirst();
    HeldFundsSecond();
  }

  /** The state of `HeldFundsScenario` once the deposit is disputed. */
  function HeldFundsDisputed(): State
  {
    var d := Transaction(TransactionType.Deposit, 1, 1, 10000);
    State(Ledger(map[1 := AccountState(1, 10000, 10000, false)]), map[1 := InternalTransaction(d, true)])
  }

  lemma HeldFundsFirst()
    ensures var s1 := Transition(Empty, Transaction(TransactionType.Deposit, 1, 1, 10000)).after;
      Transition(s1, Transaction(TransactionType.Dispute, 1, 1, 0)).after == HeldFundsDisputed()
  {
  }

  lemma HeldFundsSecond()
    ensures var p3 := Transition(HeldFundsDisputed(), Transaction(Withdrawal, 1, 2, 10000));
      p3 == Processed(HeldFundsDisputed(), Err(NegativeBalance)) &&
      Transition(p3.after, Transaction(Resolve, 1, 1, 0)).result == Ok(10000) &&
      Transition(p3.after, Transaction(Resolve, 1, 1, 0)).after.ledger.accounts[1] == AccountState(1, 10000, 0, false)
  {
  }

  /** Another client cannot dispute a deposit. */
  lemma ClientMismatchScenario()
    ensures var s1 := Transition(Empty, Transaction(TransactionType.Deposit, 1, 1, 10000)).after;
      var p := Transition(s1, Transaction(TransactionType.Dispute, 2, 1, 0));
      p == Processed(s1, Err(ClientMismatch)) &&
      s1.ledger.accounts[1] == AccountState(1, 10000, 0, false)
  {
  }

  /** Deposits and a withdrawal for two clients, then a withdrawal beyond
      the second client's funds, which is refused. */
  lemma OverLimitScenario()
    ensures var s1 := Transition(Empty, Transaction(TransactionType.Deposit, 1, 1, 10000)).after;
      var s2 := Transition(s1, Transaction(TransactionType.Deposit, 2, 2, 20000)).after;
      var s3 := Transition(s2, Transaction(TransactionType.Deposit, 1, 3, 20000)).after;
      var s4 := Transition(s3, Transaction(Withdrawal, 1, 4, 15000)).after;
      var p := Transition(s4, Transaction(Withdrawal, 2, 5, 30000));
      p.result.Err? &&
      p.after.ledger.accounts[1] == AccountState(1, 15000, 0, false) &&
      p.after.ledger.accounts[2] == AccountState(2, 20000, 0, false)
  {
    OverLimitSetUp();
  }

  lemma OverLimitSetUp()
    ensures var s1 := Transition(Empty, Transaction(TransactionType.Deposit, 1, 1, 10000)).after;
      var s2 := Transition(s1, Transaction(TransactionType.Deposit, 2, 2, 20000)).after;
      var s3 := Transition(s2, Transaction(TransactionType.Deposit, 1, 3, 20000)).after;
      Transition(s3, Transaction(Withdrawal, 1, 4, 15000)).after.ledger ==
        Ledger(map[1 := AccountState(1, 15000, 0, false), 2 := AccountState(2, 20000, 0, false)])
  {
  }

  /** The dispute history as the object `process` updates in place. */
  class TxStore {
    var entries: History

    constructor ()
      ensures entries == map[]
    {
      entries := map[];
    }
  }

  /** `process`: the store and the history are updated in place. */
  method Process(t: Transaction, store: MemActStore, txs: TxStore) returns (r: Balance)
    requires store.Valid()
    modifies store, store.accounts.Values, txs
    ensures store.Valid()
    ensures fresh(store.accounts.Values - old(store.accounts.Values))
    ensures State(store.Snapshot(), txs.entries) == Transition(State(old(store.Snapshot()), old(txs.entries)), t).after
    ensures r == Transition(State(old(store.Snapshot()), old(txs.entries)), t).result
  {
    match t.txType {
      case Deposit =>
        r := store.Deposit(t.client, t.amount);
        if r.Ok? {
          txs.entries := txs.entries[t.tx := InternalTransaction(t, false)];
        }
      case Withdrawal =>
        r := store.Withdraw(t.client, t.amount);
      case Dispute =>
        r := ProcessDispute(t, store, txs);
      case Resolve =>
        r := ProcessResolve(t, store, txs);
      case Chargeback =>
        r := ProcessChargeback(t, store, txs);
    }
  }

  /** The entry is marked before the hold is attempted. */
  method ProcessDispute(t: Transaction, store: MemActStore, txs: TxStore) returns (r: Balance)
    requires store.Valid()
    modifies store, store.accounts.Values, txs
    ensures store.Valid()
    ensures fresh(store.accounts.Values - old(store.accounts.Values))
    ensures State(store.Snapshot(), txs.entries) == DisputeTx(State(old(store.Snapshot()), old(txs.entries)), t).after
    ensures r == DisputeTx(State(old(store.Snapshot()), old(txs.entries)), t).result
  {
    var check := Lookup(txs.entries, t);
    if check.Some? {
      r := Err(check.value);
      return;
    }
    var entry := txs.entries[t.tx];
    if entry.disputed {
      r := Err(AlreadyDisputed);
      return;
    }
    txs.entries := txs.entries[t.tx := entry.(disputed := true)];
    r := store.Hold(t.client, entry.tx.amount);
  }

  /** The mark is cleared before the release is attempted. */
  method ProcessResolve(t: Transaction, store: MemActStore, txs: TxStore) returns (r: Balance)
    requires store.Valid()
    modifies store, store.accounts.Values, txs
    ensures store.Valid()
    ensures fresh(store.accounts.Values - old(store.accounts.Values))
    ensures State(store.Snapshot(), txs.entries) == ResolveTx(State(old(store.Snapshot()), old(txs.entries)), t).after
    ensures r == ResolveTx(State(old(store.Snapshot()), old(txs.entries)), t).result
  {
    var check := Lookup(txs.entries, t);
    if check.Some? {
      r := Err(check.value);
      return;
    }
    var entry := txs.entries[t.tx];
    if !entry.disputed {
      r := Err(NotDisputed);
      return;
    }
    txs.entries := txs.entries[t.tx := entry.(disputed := false)];
    r := store.Unhold(t.client, entry.tx.amount);
  }

  /** The entry is only read, so the history is not modified. */
  method ProcessChargeback(t: Transaction, store: MemActStore, txs: TxStore) returns (r: Balance)
    requires store.Valid()
    modifies store, store.accounts.Values
    ensures store.Valid()
    ensures fresh(store.accounts.Values - old(store.accounts.Values))
    ensures State(store.Snapshot(), txs.entries) == ChargebackTx(State(old(store.Snapshot()), txs.entries), t).after
    ensures r == ChargebackTx(State(old(store.Snapshot()), txs.entries), t).result
  {
    var check := Lookup(txs.entries, t);
    if check.Some? {
      r := Err(check.value);
      return;
    }
    var entry := txs.entries[t.tx];
    if !entry.disputed {
      r := Err(NotDisputed);
      return;
    }
    var _ := store.LockAccount(t.client);
    r := store.Unhold(t.client, entry.tx.amount);
    if r.Err? {
      return;
    }
    r := store.WithdrawUnchecked(t.client, entry.tx.amount);
  }
}
