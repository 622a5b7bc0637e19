# act: a transaction engine for client accounts, in Dafny

`act` reads deposit, withdrawal, dispute, resolve and chargeback records and
keeps one account per client. This project models four parts of it and proves
properties about them:

- the amount decoder, which turns decimal text into a `u64` count of
  ten-thousandths;
- the account arithmetic, with Rust's checked `i64`/`u64` operations written
  out as explicit range tests;
- the in-memory account store;
- the processor, which applies one record to the store and to the dispute
  history.

The files and modules are:

| file | module | models |
|---|---|---|
| `base.dfy` | `Base` | integer widths, error kinds, `checked_add`/`checked_sub` and their signed/unsigned mixes |
| `decimal.dfy` | `Decimal` | digit strings, their values, `u64` parsing (`str::parse::<u64>`), decimal rendering of naturals |
| `transaction.dfy` | `Transactions` | `TransactionType`, `Transaction`, `de_amount` |
| `account.dfy` | `Accounts` | `Account`: a value type `AccountState` with one function per method, and a class `Account` whose methods update its fields in place |
| `account_ser.dfy` | `Serialization` | the text written for an account by `Serialize for Account` |
| `act_mem.dfy` | `ActMem` | `MemActStore`: a value type `Ledger` and a class `MemActStore` holding a map from client id to `Account` objects |
| `process.dfy` | `Processor` | `InternalTransaction` and `process`: a transition function on (ledger, history) values, and a method `Process` that updates the store object and a history object (`TxStore`, the `tx_store` map) in place |

Each imperative operation is a method. Its `ensures` ties the new state and the
result to a function on the old state, and the properties are proved about
those functions:

- `Accounts.Account.X` is tied to `Accounts.AccountState.X`, for each account
  operation `X`;
- `ActMem.MemActStore.X` is tied to `ActMem.Ledger.X`;
- `Processor.Process` is tied to `Processor.Transition`;
- `ProcessDispute`, `ProcessResolve` and `ProcessChargeback` are tied to
  `DisputeTx`, `ResolveTx` and `ChargebackTx`.

### Behaviour worth knowing

The model follows the code, including:

- **Withdraw deducts the held amount.** A successful withdrawal sets the total
  to `available - amnt`, that is `total - held - amnt`, and not `total - amnt`.
  The balance it reports is therefore `total - 2*held - amnt`, which is
  negative whenever the held amount exceeds what is left of the total. A
  chargeback withdraws through the same path, so its debit also includes
  whatever other disputes still hold.
- **Failures can leave partial effects:**
  - deposit writes the new total before it computes `available()`, so the call
    can fail after the total has changed;
  - `withdraw_allow_negative` has the same late failure;
  - dispute sets its flag before the hold, and resolve clears its flag before
    the release; neither is undone when that step fails;
  - chargeback locks the account before the steps that can fail;
  - deposit, withdraw, hold and unhold on the store create the account even
    when the operation itself fails.
- **Chargeback is not terminal.** It only reads the history entry and leaves it
  marked disputed, so the same chargeback can be applied again.
- **`withdraw_unchecked` refuses an unknown client** with an error; it does not
  create the account.
- **The lock flag is never consulted.** A locked account accepts every operation.
- **Rendering has no zero padding.** Each amount is written as its quotient, a
  `.`, and the remainder by 10,000 in plain decimal: 2.0 renders as `2.0` and
  1.0001 as `1.1`. Reading that text back gives the amount only when the
  remainder is 0 or has four digits. The quotient uses truncating division and
  the remainder its absolute value, so an amount between -1.0 and 0 loses its
  sign.
- **A long fraction is refused, not truncated.** A fractional part longer
  than 4 UTF-8 bytes is rejected, whatever its digits. `de_amount`'s length
  test counts bytes; the padding that follows counts characters.

## Model

| member | source | states |
|---|---|---|
| `Base.CheckedAddUnsigned` | src/types/account.rs:83 | `i64::checked_add_unsigned`: a value exactly when `x + y` fits in `i64`, and then the sum |
| `Base.CheckedSubUnsigned` | src/types/account.rs:39 | `i64::checked_sub_unsigned`: a value exactly when `x - y` fits in `i64`, and then the difference |
| `Base.CheckedAdd` | src/types/account.rs:50 | `u64::checked_add`: a value exactly when the sum is at most `u64::MAX` |
| `Base.CheckedSub` | src/types/account.rs:69 | `u64::checked_sub`: a value exactly when `y <= x`, and then the difference |
| `Transactions.ParseAmountDigits` | src/types/transaction.rs:47-49 | `parse::<u64>` on a non-empty digit string gives its value, or is rejected beyond `u64::MAX` |
| `Transactions.ParseAmountBadChar` | src/types/transaction.rs:47-49 | `parse::<u64>` rejects any character other than a digit, except one leading `+` |
| `Decimal.NatToString` | src/types/account.rs:148-151 | `{}` on a natural: a non-empty digit string whose value is the number, exactly `0` for zero and without a leading zero otherwise |
| `Decimal.ParseU64` | src/types/transaction.rs:47-48 | `parse::<u64>`: one optional leading `+`, then at least one digit, with a value of at most `u64::MAX`; no contract of its own, characterised by `ParseAmountDigits` and `ParseAmountBadChar` |
| `Transactions.DeAmount` | src/types/transaction.rs:27-50 | `de_amount` itself; no contract of its own, characterised by the `DeAmount…` lemmas below |
| `Transactions.Before` | src/types/transaction.rs:32-33 | the first piece of `split('.')`; `BeforeIsPrefix` and `SplitAt` show it is the longest prefix without the separator |
| `Transactions.After` | src/types/transaction.rs:38 | the text after the first separator, from which `split('.')` takes its second piece; characterised by `SplitAt` |
| `Transactions.Units` | src/types/transaction.rs:33-36 | the integer piece, `0` when empty: never empty |
| `Transactions.Fraction` | src/types/transaction.rs:38-44 | the fractional piece, `0` when absent, none when longer than four bytes; characterised by `PiecesOfWhole`, `PiecesOfDecimal` and `PiecesOfLonger` |
| `Transactions.ByteLen` | src/types/transaction.rs:39 | `str::len`: the UTF-8 length, never less than the number of characters; `ByteLenDigits` shows digits take one byte each |
| `Transactions.PadFraction` | src/types/transaction.rs:45 | `{:0<4.4}`: always four characters, and a piece of at most four is kept and right-padded with zeros |
| `Transactions.ParseAmount` | src/types/transaction.rs:47-49 | the `parse::<u64>()` step; characterised by `ParseAmountDigits`, `ParseAmountBadChar` and `PlusParse` |
| `Transactions.DeAmountWhole` | src/types/transaction.rs:32-49 | a digit string without `.` decodes to its value times 10,000, or is rejected beyond `u64::MAX` |
| `Transactions.DeAmountEmpty` | src/types/transaction.rs:33-44 | the empty string decodes to 0 |
| `Transactions.DeAmountEmptyUnits` | src/types/transaction.rs:33-36 | an empty integer part reads as `0`: `.f` decodes as `0.f` |
| `Transactions.DeAmountFraction` | src/types/transaction.rs:32-49 | `u.f` with digit pieces and at most four fractional digits decodes to `u*10000 + f` right-padded to four digits, rejected beyond `u64::MAX` |
| `Transactions.PadValue` | src/types/transaction.rs:45 | padding a fraction of at most four digits gives four digits with the right-padded value |
| `Transactions.DeAmountIgnoresThirdPiece` | src/types/transaction.rs:32-44 | text after a second `.` does not change the result |
| `Transactions.DeAmountLongFraction` | src/types/transaction.rs:39-41 | a fractional piece longer than four bytes is rejected as unsupported precision, whatever it holds |
| `Transactions.DeAmountBadUnits` | src/types/transaction.rs:47-49 | a non-digit in the integer part (other than one leading `+`) is rejected |
| `Transactions.DeAmountBadFraction` | src/types/transaction.rs:45-49 | a non-digit in the fractional part is rejected |
| `Transactions.DeAmountNegative` | src/types/transaction.rs:47-49 | text starting with `-` is rejected |
| `Transactions.DeAmountPlus` | src/types/transaction.rs:47-49 | one leading `+` is accepted and ignored |
| `Transactions.BigRejected` | src/types/transaction.rs:47-49 | a whole number of 17 or more digits without a leading zero is rejected |
| `Transactions.DeAmountExampleFourDigits` | src/parse.rs:131-143 | `1.0001` decodes to 10001 |
| `Transactions.DeAmountExampleInnerZeros` | src/parse.rs:132-149 | `2.0010` decodes to 20010 |
| `Transactions.DeAmountExamplePadded` | src/parse.rs:133-155 | `10.01` decodes to 100100 |
| `Transactions.DeAmountExampleLeadingZero` | src/parse.rs:134-161 | `01.10` decodes to 11000 |
| `Transactions.DeAmountExampleTrailingZero` | src/parse.rs:135-167 | `10.0110` decodes to 100110 |
| `Transactions.DeAmountExampleHalf` | src/types/transaction.rs:32-47 | `0.5` decodes to 5000 |
| `Transactions.DeAmountExampleNoUnits` | src/types/transaction.rs:33-36 | `.5` decodes to 5000 |
| `Transactions.DeAmountExampleZero` | src/parse.rs:182-197 | `0` decodes to 0 |
| `Transactions.DeAmountExamplePrecision` | src/parse.rs:189 | `1.010101` is rejected as unsupported precision |
| `Transactions.DeAmountExampleOverflow` | src/parse.rs:179 | `99999999999999999` is rejected |
| `Transactions.DeAmountExampleU64Max` | src/parse.rs:180 | `18446744073709551615` is rejected (scaled, it passes `u64::MAX`) |
| `Transactions.DeAmountExampleBeyondU64` | src/parse.rs:181 | `18446744073709551616` is rejected |
| `Transactions.DeAmountExampleLetter` | src/parse.rs:184 | `a` is rejected |
| `Transactions.DeAmountExampleNegative` | src/parse.rs:185 | `-1` is rejected |
| `Transactions.DeAmountExampleNegativeBeyondU64` | src/parse.rs:188 | `-18446744073709551616` is rejected |
| `Accounts.AccountState.Available` | src/types/account.rs:38-44 | ok exactly when `total - held` fits in `i64`, with that value; otherwise an overflow error |
| `Accounts.AccountState.Hold` | src/types/account.rs:48-62 | atomic: succeeds exactly when `held + amnt` fits in `u64` and the new available fits in `i64`; then `held` grows by `amnt` and the new available is returned; on failure nothing changes |
| `Accounts.AccountState.Unhold` | src/types/account.rs:68-80 | refused with no change when `amnt > held`; otherwise `held` shrinks by `amnt` and the new available is returned |
| `Accounts.AccountState.Deposit` | src/types/account.rs:82-94 | refused with no change when the total would pass `i64::MAX`; otherwise the total grows by `amnt` and the new available is returned |
| `Accounts.AccountState.InternalWithdraw` | src/types/account.rs:95-107 | the four paths: available out of range, `available - amnt` below `i64::MIN`, a negative result refused, or the total set to `available - amnt` and the recomputed available returned |
| `Accounts.AccountState.Withdraw` | src/types/account.rs:95-110 | succeeds exactly when `amnt <= total - held`; then the total becomes `total - held - amnt` and the result is `total - 2*held - amnt`; on failure nothing changes |
| `Accounts.AccountState.WithdrawAllowNegative` | src/types/account.rs:95-114 | ok exactly when `total - 2*held - amnt` fits in `i64`, with that value; the total is set to `total - held - amnt` whenever that fits in `i64`, even when the result is an error, and nothing changes otherwise |
| `Accounts.AccountState.Lock` | src/types/account.rs:116-119 | sets the flag and changes nothing else |
| `Accounts.AccountState.Unlock` | src/types/account.rs:121-124 | clears the flag and changes nothing else |
| `Accounts.NewAccount` | src/types/account.rs:16-23 | total 0, held 0, unlocked, available 0 |
| `Accounts.AccountWithBalance` | src/types/account.rs:25-32 | total the seed, held 0, unlocked, available the seed |
| `Accounts.HoldUnholdRoundTrip` | src/types/account.rs:48-80 | releasing what a successful hold took restores the account and returns its original available balance |
| `Accounts.UnholdHoldRoundTrip` | src/types/account.rs:48-80 | holding again what was released restores an in-range account |
| `Accounts.DepositIff` | src/types/account.rs:82-94 | with available in range, a deposit succeeds exactly when the total stays at most `i64::MAX`, and reports the available balance plus the amount |
| `Accounts.DepositLateFailure` | src/types/account.rs:83-86 | one instance: total `i64::MIN`, held 2, deposit 1 writes the new total and still fails on `available()` |
| `Accounts.WithdrawDeductsHeld` | src/types/account.rs:96-98 | total 100, held 50, withdraw 50: the total becomes 0 and the result is -50 |
| `Accounts.WithdrawAllowNegativeLateFailure` | src/types/account.rs:97-106 | the total is written and the final available then fails |
| `Accounts.LockDoesNotGate` | src/types/account.rs:48-114 | locking changes the result of no operation |
| `Accounts.SmallBalanceExamples` | src/types/account.rs:168-245 | the unit tests: creation, seeded balance, deposit, withdraw, hold, unhold, an over-unhold, a withdrawal below zero |
| `Accounts.DepositsAccumulate` | src/types/account.rs:82-94 | deposits that keep the total in range add up to their sum, whatever each reports |
| `Accounts.LimitValues` | src/types/account.rs:247-280 | the boundary test: `i64::MAX` deposited, one more refused, holds up to `u64::MAX` and the available values they give |
| `Accounts.HoldOverflowExample` | src/types/account.rs:211-218 | with `i64::MAX` seeded, holding `u64::MAX` succeeds once and a further hold is refused |
| `Accounts.Account.constructor` | src/types/account.rs:16-23 | the object's state is `NewAccount` |
| `Accounts.Account.WithBalance` | src/types/account.rs:25-32 | the object's state is `AccountWithBalance` |
| `Accounts.Account.Hold` | src/types/account.rs:48-62 | writes `held`, and writes the old value back when the available balance fails; the new state and result are those of `AccountState.Hold` |
| `Accounts.Account.Unhold` | src/types/account.rs:68-80 | new state and result as `AccountState.Unhold` |
| `Accounts.Account.Deposit` | src/types/account.rs:82-94 | new state and result as `AccountState.Deposit` |
| `Accounts.Account.InternalWithdraw` | src/types/account.rs:95-107 | new state and result as `AccountState.InternalWithdraw` |
| `Accounts.Account.Withdraw` | src/types/account.rs:108-110 | new state and result as `AccountState.Withdraw` |
| `Accounts.Account.WithdrawAllowNegative` | src/types/account.rs:112-114 | new state and result as `AccountState.WithdrawAllowNegative` |
| `Accounts.Account.Lock` | src/types/account.rs:116-119 | sets the flag and returns true |
| `Accounts.Account.Unlock` | src/types/account.rs:121-124 | clears the flag and returns false |
| `Serialization.TruncDiv` | src/types/account.rs:148-151 | Rust's truncating `/`: the remainder lies in `[0, 10000)` for a non-negative dividend and in `(-10000, 0]` for a negative one |
| `Serialization.IntToString` | src/types/account.rs:148-151 | `{}` on an integer: the digits of its magnitude without a leading zero (exactly `0` for zero), after a `-` for a negative one |
| `Serialization.RenderSigned` | src/types/account.rs:145-152 | `format!("{}.{}", x / dec, x.abs() % dec)`; no contract of its own, characterised by `RenderNonNegative`, `RenderNegative` and `RenderLosesSign` |
| `Serialization.RenderUnsigned` | src/types/account.rs:149 | `format!("{}.{}", x / udec, x % udec)`; no contract of its own, characterised by `RenderRead` and `RenderRoundTrip` |
| `Serialization.Serialize` | src/types/account.rs:140-162 | id and flag copied; total and held rendered; available rendered when in range and `"0"` exactly when it is out of range |
| `Serialization.RenderNonNegative` | src/types/account.rs:148-149 | a non-negative `i64` renders as the `u64` of the same value does |
| `Serialization.RenderNegative` | src/types/account.rs:148 | an amount of at most -1.0 renders as `-` and the form of its magnitude |
| `Serialization.RenderLosesSign` | src/types/account.rs:148 | an amount strictly between -1.0 and 0 renders as its magnitude does, with no sign |
| `Serialization.RenderRoundTrip` | src/types/account.rs:149 | decoding the rendering of a `u64` gives it back exactly when its remainder by 10,000 is 0 or at least 1000 |
| `Serialization.RenderExampleUnpadded` | src/types/account.rs:149 | 10001 renders as `1.1` |
| `Serialization.RenderExampleZero` | src/types/account.rs:149 | 0 renders as `0.0` |
| `Serialization.SerializeOutOfRange` | src/types/account.rs:150 | available out of range is written as `"0"` |
| `ActMem.Apply` | src/stores/act_mem.rs:25-30 | the `match action` of `action_act`: each action calls the account method of that name; used by `Ledger.ActionAct` |
| `ActMem.Ledger.Entry` | src/stores/act_mem.rs:24 | the client's account, or a new account when there is none |
| `ActMem.Ledger.ActionAct` | src/stores/act_mem.rs:23-31 | the client's entry is created when missing and takes the account operation's state; its result is returned; other clients are unchanged |
| `ActMem.Ledger.Deposit` | src/stores/act_mem.rs:51-53 | that client's entry takes the account deposit's state, and its result is returned |
| `ActMem.Ledger.Withdraw` | src/stores/act_mem.rs:55-57 | the same for withdraw |
| `ActMem.Ledger.Hold` | src/stores/act_mem.rs:67-69 | the same for hold |
| `ActMem.Ledger.Unhold` | src/stores/act_mem.rs:71-73 | the same for unhold |
| `ActMem.Ledger.WithdrawUnchecked` | src/stores/act_mem.rs:59-65 | an unknown client gives an account-not-found error and no change; a known one takes `withdraw_allow_negative`; others are unchanged |
| `ActMem.Ledger.LockAccount` | src/stores/act_mem.rs:75-81 | false and no change for an unknown client; otherwise true with that account locked |
| `ActMem.Ledger.UnlockAccount` | src/stores/act_mem.rs:83-89 | always false; a known client's account is unlocked, an unknown one is not created |
| `ActMem.Ledger.GetAccount` | src/stores/act_mem.rs:91-93 | some exactly when the client has an account, and then that account |
| `ActMem.HoldScenario` | src/stores/act_mem.rs:157-175 | deposit 100, hold 10, hold 100, release 20 report 100, 90, -10 and 10 |
| `ActMem.NegativeBalanceScenario` | src/stores/act_mem.rs:141-155 | a refused first withdrawal leaves a new, empty account behind |
| `ActMem.BalanceScenario` | src/stores/act_mem.rs:100-139 | deposit 200 then 50 reports 250; deposit 200 then withdraw 50 reports 150 |
| `ActMem.LockScenario` | src/stores/act_mem.rs:177-190 | locking a known client returns true and sets the flag; unlocking returns false and clears it |
| `ActMem.MemActStore.constructor` | src/stores/act_mem.rs:19-21 | an empty store |
| `ActMem.MemActStore.EntryOrInsert` | src/stores/act_mem.rs:24 | the existing account object, or a fresh one in state `NewAccount` inserted under the key |
| `ActMem.MemActStore.ActionAct` | src/stores/act_mem.rs:23-31 | the store's new snapshot and result are those of `Ledger.ActionAct` on the old snapshot |
| `ActMem.MemActStore.Perform` | src/stores/act_mem.rs:25-30 | the account object's new state and the result are those of `Apply` on its old state |
| `ActMem.MemActStore.Deposit` | src/stores/act_mem.rs:51-53 | snapshot and result as `Ledger.Deposit` |
| `ActMem.MemActStore.Withdraw` | src/stores/act_mem.rs:55-57 | snapshot and result as `Ledger.Withdraw` |
| `ActMem.MemActStore.Hold` | src/stores/act_mem.rs:67-69 | snapshot and result as `Ledger.Hold` |
| `ActMem.MemActStore.Unhold` | src/stores/act_mem.rs:71-73 | snapshot and result as `Ledger.Unhold` |
| `ActMem.MemActStore.WithdrawUnchecked` | src/stores/act_mem.rs:59-65 | snapshot and result as `Ledger.WithdrawUnchecked`; the map itself is not modified |
| `ActMem.MemActStore.LockAccount` | src/stores/act_mem.rs:75-81 | snapshot and flag as `Ledger.LockAccount` |
| `ActMem.MemActStore.UnlockAccount` | src/stores/act_mem.rs:83-89 | snapshot and flag as `Ledger.UnlockAccount` |
| `ActMem.MemActStore.GetAccount` | src/stores/act_mem.rs:91-93 | the stored object exactly when the client has one, with the state the snapshot shows; nothing changes |
| `Processor.Lookup` | src/process.rs:25-70 | passes exactly when the id is recorded for the same client; otherwise not-found or client-mismatch |
| `Processor.DepositTx` | src/process.rs:21-23 | the store's deposit; the record is remembered, undisputed, only when it succeeded, overwriting an entry with the same id |
| `Processor.WithdrawalTx` | src/process.rs:24 | the store's withdraw; the history is unchanged |
| `Processor.DisputeTx` | src/process.rs:25-41 | a failed lookup or an already disputed entry changes nothing; otherwise the entry is marked and the stored amount held |
| `Processor.ResolveTx` | src/process.rs:42-58 | a failed lookup or an undisputed entry changes nothing; otherwise the mark is cleared and the stored amount released |
| `Processor.ChargebackLedger` | src/process.rs:74-76 | for a known client: the account ends locked; a release above what is held fails with the account only locked; otherwise the locked, released account takes `withdraw_allow_negative`. For an unknown client the release creates an empty account: it fails for a non-zero amount and gives 0 for zero |
| `Processor.ChargebackTx` | src/process.rs:59-78 | the history is never changed; a failed lookup or an undisputed entry changes nothing; otherwise the ledger takes the chargeback steps |
| `Processor.Transition` | src/process.rs:15-80 | only the record's client's account and only its id's history entry can change; only a deposit adds a history key |
| `Processor.FailedLookupChangesNothing` | src/process.rs:25-70 | an unknown id or another client's record is refused with no change |
| `Processor.WithdrawalNotDisputable` | src/process.rs:24-27 | after a withdrawal, disputing its id fails as not found |
| `Processor.SecondDisputeFails` | src/process.rs:36-38 | disputing the same deposit again is refused as already disputed, with no change |
| `Processor.DisputeMarksEvenWhenHoldFails` | src/process.rs:39-40 | the mark is set whatever the hold returns |
| `Processor.DisputeFailedHoldExample` | src/process.rs:39-40 | a concrete failed hold that leaves the entry marked |
| `Processor.ResolveClearsEvenWhenUnholdFails` | src/process.rs:56-57 | the mark is cleared whatever the release returns |
| `Processor.DisputeResolveRoundTrip` | src/process.rs:25-58 | resolving a dispute whose hold succeeded restores the ledger and the history and returns the original available balance |
| `Processor.ChargebackKeepsFlag` | src/process.rs:60-61 | after a chargeback the entry is still disputed, so the same chargeback passes its checks again |
| `Processor.ChargebackEffects` | src/process.rs:71-76 | the account is locked whatever follows; a release larger than what is held fails with the account only locked; otherwise the account is locked, released and withdrawn allowing a negative total |
| `Processor.DisputeChargeback` | src/process.rs:25-78 | a chargeback after a successful dispute leaves the account locked with its pre-dispute `held`; a successful final withdrawal takes the disputed amount and what other disputes hold from the total; with nothing else held, exactly the disputed amount |
| `Processor.RunIsolation` | src/process.rs:15-80 | a sequence of records for other clients leaves an account unchanged |
| `Processor.ChargebackScenario` | src/process.rs:231-278 | deposit 2.0, withdraw 1.0, dispute, chargeback: available -1.0 after the dispute; afterwards total -1.0, nothing held, locked |
| `Processor.HeldFundsScenario` | src/process.rs:143-200 | after the dispute 1.0 is held and 0 available; a withdrawal of the held funds fails and changes nothing; the resolve returns `Ok(1.0)` and leaves nothing held |
| `Processor.ClientMismatchScenario` | src/process.rs:201-230 | another client's dispute is refused as a client mismatch |
| `Processor.OverLimitScenario` | src/process.rs:89-141 | deposits and withdrawals for two clients, then a withdrawal beyond the balance is refused |
| `Processor.Process` | src/process.rs:15-80 | the store's new snapshot, the history object's new entries and the result are those of `Transition` on the old ones |
| `Processor.ProcessDispute` | src/process.rs:25-41 | as `DisputeTx`; the history entry is marked in place before the hold |
| `Processor.ProcessResolve` | src/process.rs:42-58 | as `ResolveTx`; the mark is cleared in place before the release |
| `Processor.ProcessChargeback` | src/process.rs:59-78 | as `ChargebackTx`; the history object is not modified, and the early return after a failed release is kept |

## Left out

- Reading the input (src/parse.rs): CSV with headers and trimming, inside an async stream. It is I/O; its tests are used above only as examples for `de_amount`.
- The command-line program (src/bin/act.rs): argument parsing, the runtime, file and stdin handling, and printing the CSV output.
- src/stores/mem.rs is an earlier store that no module declares; it is not part of this model.
- The `ActStore` trait (src/stores/mod.rs) holds only signatures. `Process` takes the one implementation, `MemActStore`, directly.
- `Default` and `IntoIterator` for `MemActStore`. Iteration order over the map is unspecified, and the output rows would only list the accounts.
- The serde glue: `String::deserialize`, `ser.serialize`, the rename attributes and writing the record as CSV. `Serialize` returns the record of strings.
- Error message text and `eprintln!` diagnostics. Errors are kinds only (`Base.Error`).
- `ParseU64`: every `ParseIntError` kind (empty, invalid digit, overflow) collapses into one `InvalidNumber`.
- `Serialization.RenderSigned`: requires a value above `i64::MIN`, whose `abs()` overflows in Rust. `Serialize`, and the rendering of `total` and of `available`, carry the same requirement.
- Getters (`id`, `total`, `held`, `is_locked`): they are the fields of `AccountState`.
