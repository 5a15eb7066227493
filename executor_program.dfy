/**
 * The native executor program: `process_instruction` and its four handlers.
 *
 * Each handler is given twice: a function over a `Bank` snapshot that says
 * what the instruction leaves behind (or which error it returns), and a
 * method that makes the same changes step by step on the `Ledger`, proved to
 * agree with the function. The properties of the vault are lemmas about the
 * functions.
 */
module ExecutorProgram {
  import opened Wrappers
  import opened Bytes
  import opened Solana
  import opened Inco
  import opened ExecutorState
  import opened ExecutorInstructions

  /** b"executor" */
  const EXECUTOR_SEED: seq<Byte> := [101, 120, 101, 99, 117, 116, 111, 114]
  /** b"vault" */
  const VAULT_SEED: seq<Byte> := [118, 97, 117, 108, 116]
  /** b"user_deposit" */
  const USER_DEPOSIT_SEED: seq<Byte> := [117, 115, 101, 114, 95, 100, 101, 112, 111, 115, 105, 116]

  function ExecutorAddress(rt: Runtime): Pubkey {
    rt.pda([EXECUTOR_SEED])
  }

  function VaultAddress(rt: Runtime): Pubkey {
    rt.pda([VAULT_SEED])
  }

  function UserDepositAddress(rt: Runtime, user: Pubkey): Pubkey {
    rt.pda([USER_DEPOSIT_SEED, user])
  }

  /**
   * The direct lamport update both payouts end with: the vault is debited,
   * aborting when it would go below zero, then the receiver is credited.
   */
  function MoveLamports(b: Bank, vault: Pubkey, receiver: Pubkey, amount: nat): (r: Result<Bank, ProgramError>)
    ensures r.Err? <==> b.Lamports(vault) < amount
    ensures r.Err? ==> r.error == Aborted
    ensures r.Ok? ==>
              && r.value.data == b.data
              && r.value.Lamports(vault) + r.value.Lamports(receiver) == b.Lamports(vault) + b.Lamports(receiver)
              && (vault != receiver ==>
                    r.value.Lamports(vault) == b.Lamports(vault) - amount
                    && r.value.Lamports(receiver) == b.Lamports(receiver) + amount)
              && (forall k :: k != vault && k != receiver ==> r.value.Lamports(k) == b.Lamports(k))
  {
    if b.Lamports(vault) < amount then Err(Aborted)
    else
      var debited := b.SetLamports(vault, b.Lamports(vault) - amount);
      Ok(debited.SetLamports(receiver, debited.Lamports(receiver) + amount))
  }

  /** Store `record` in the user-deposit buffer, then move `amount` from the vault to `receiver`. */
  function Payout(b: Bank, userDeposit: Pubkey, record: UserDeposit, vault: Pubkey, receiver: Pubkey, amount: nat)
    : Result<Bank, ProgramError>
  {
    MoveLamports(b.SetData(userDeposit, UserDepositPackedInto(record, b.Data(userDeposit))), vault, receiver, amount)
  }

  // ===== initialize =====

  /**
   * `initialize`: the executor account must be the "executor" address and the
   * authority must sign; the account is created (paid by the authority) when
   * it holds no lamports, and the configuration is packed into it.
   */
  function InitializeSpec(b: Bank, rt: Runtime, accounts: seq<AccountMeta>, payload: seq<Byte>)
    : Result<Bank, ProgramError>
  {
    var _ :- RequireAccounts(accounts, 3);
    var executor, authority := accounts[0].key, accounts[1];
    if executor != ExecutorAddress(rt) then Err(InvalidAccountData)
    else if !authority.isSigner then Err(MissingRequiredSignature)
    else
      var executionAccount :- ParseInitialize(payload);
      var created :- if b.Lamports(executor) == 0
                     then b.CreateAccount(authority.key, executor, rt.minimumBalance(EXECUTOR_LEN), EXECUTOR_LEN)
                     else Ok(b);
      var config := Executor(executionAccount, authority.key, true);
      Ok(created.SetData(executor, ExecutorPackedInto(config, created.Data(executor))))
  }

  method Initialize(ledger: Ledger, rt: Runtime, accounts: seq<AccountMeta>, payload: seq<Byte>)
    returns (r: Result<Unit, ProgramError>)
    modifies ledger
    ensures Completes(r, ledger.State(), InitializeSpec(old(ledger.State()), rt, accounts, payload))
  {
    var _ :- RequireAccounts(accounts, 3);
    var executor, authority := accounts[0].key, accounts[1];
    if executor != ExecutorAddress(rt) {
      return Err(InvalidAccountData);
    }
    if !authority.isSigner {
      return Err(MissingRequiredSignature);
    }
    var executionAccount :- ParseInitialize(payload);
    if ledger.Lamports(executor) == 0 {
      var _ :- ledger.CreateAccount(authority.key, executor, rt.minimumBalance(EXECUTOR_LEN), EXECUTOR_LEN);
    }
    var config := Executor(executionAccount, authority.key, true);
    ledger.WriteData(executor, ExecutorPackedInto(config, ledger.Data(executor)));
    return Ok(Unit);
  }

  /**
   * A successful `initialize` leaves a record holding the payload's execution
   * account, the signing authority and the initialised flag, whenever the
   * executor buffer is large enough to hold one; a shorter buffer is left as is.
   */
  lemma InitializeStoresConfig(b: Bank, rt: Runtime, accounts: seq<AccountMeta>, payload: seq<Byte>)
    requires InitializeSpec(b, rt, accounts, payload).Ok?
    ensures |accounts| >= 3 && |payload| >= 32 && accounts[1].isSigner
    ensures var b', executor := InitializeSpec(b, rt, accounts, payload).value, accounts[0].key;
      && executor == ExecutorAddress(rt)
      && (|b'.Data(executor)| >= EXECUTOR_LEN ==>
            ExecutorUnpackFromSlice(b'.Data(executor)) == Ok(Executor(payload[..32], accounts[1].key, true)))
      && (b.Lamports(executor) == 0 ==> ExecutorUnpack(b'.Data(executor)) == Ok(Executor(payload[..32], accounts[1].key, true)))
      && (forall k :: k != executor ==> b'.Data(k) == b.Data(k))
  {
  }

  /** Re-running the same `initialize` on the state it produced changes nothing. */
  lemma InitializeIdempotent(b: Bank, rt: Runtime, accounts: seq<AccountMeta>, payload: seq<Byte>)
    requires InitializeSpec(b, rt, accounts, payload).Ok?
    requires InitializeSpec(b, rt, accounts, payload).value.Lamports(accounts[0].key) > 0
    ensures InitializeSpec(InitializeSpec(b, rt, accounts, payload).value, rt, accounts, payload)
            == InitializeSpec(b, rt, accounts, payload)
  {
    var b1 := InitializeSpec(b, rt, accounts, payload).value;
    var executor := accounts[0].key;
    var config := Executor(payload[..32], accounts[1].key, true);
    var d := b1.Data(executor);
    assert ExecutorPackedInto(config, d) == d;
    assert b1.SetData(executor, d) == b1;
  }

  /**
   * An executor address that already holds lamports but no data is not
   * created, and packing into its empty buffer writes nothing: `initialize`
   * succeeds without storing a configuration, and every later intent fails.
   */
  lemma InitializeOnFundedEmptyExecutor(b: Bank, rt: Runtime, inco: Coprocessor,
                                        accounts: seq<AccountMeta>, payload: seq<Byte>, intent: seq<AccountMeta>, data: seq<Byte>)
    requires |accounts| >= 3 && accounts[0].key == ExecutorAddress(rt) && accounts[1].isSigner && |payload| >= 32
    requires b.Lamports(accounts[0].key) > 0 && b.Data(accounts[0].key) == []
    ensures InitializeSpec(b, rt, accounts, payload).Ok?
    ensures var b' := InitializeSpec(b, rt, accounts, payload).value;
            b'.lamports == b.lamports && forall k :: b'.Data(k) == b.Data(k)
    ensures ExecutorUnpack(InitializeSpec(b, rt, accounts, payload).value.Data(accounts[0].key)) == Err(InvalidAccountData)
    ensures ExecuteSpec(InitializeSpec(b, rt, accounts, payload).value, rt, inco, intent, data).Err?
  {
  }

  /**
   * `initialize` never reads the stored configuration: once the executor holds
   * lamports, any signer replaces a configuration set up by another authority
   * with its own key and execution account.
   */
  lemma InitializeOverwritesOtherAuthority(b: Bank, rt: Runtime, accounts: seq<AccountMeta>, payload: seq<Byte>)
    requires |accounts| >= 3 && accounts[0].key == ExecutorAddress(rt) && accounts[1].isSigner && |payload| >= 32
    requires b.Lamports(accounts[0].key) > 0
    requires ExecutorUnpack(b.Data(accounts[0].key)).Ok?
    requires ExecutorUnpack(b.Data(accounts[0].key)).value.authority != accounts[1].key
    ensures InitializeSpec(b, rt, accounts, payload).Ok?
    ensures ExecutorUnpack(InitializeSpec(b, rt, accounts, payload).value.Data(accounts[0].key))
            == Ok(Executor(payload[..32], accounts[1].key, true))
  {
    ExecutorUnpackPacked(Executor(payload[..32], accounts[1].key, true), b.Data(accounts[0].key));
  }

  // ===== deposit =====

  datatype DepositKeys = DepositKeys(vault: Pubkey, user: Pubkey, userDeposit: Pubkey, incoProgram: Pubkey)

  /**
   * Everything `deposit` checks before it touches an account: the signer, the
   * two derived addresses, the payload layout and a non-zero amount. The Inco
   * program is account 5, the second of the two `inco_program` bindings.
   */
  function DepositPreflight(rt: Runtime, accounts: seq<AccountMeta>, payload: seq<Byte>)
    : (r: Result<(DepositKeys, DepositArgs), ProgramError>)
    ensures |accounts| < 6 ==> r == Err(NotEnoughAccountKeys)
    ensures |accounts| >= 6 && !accounts[1].isSigner ==> r == Err(MissingRequiredSignature)
    ensures |accounts| >= 6 && accounts[1].isSigner
            && (accounts[0].key != VaultAddress(rt) || accounts[2].key != UserDepositAddress(rt, accounts[1].key))
            ==> r == Err(InvalidAccountData)
    ensures |accounts| >= 6 && accounts[1].isSigner && accounts[0].key == VaultAddress(rt)
            && accounts[2].key == UserDepositAddress(rt, accounts[1].key)
            ==> (r.Err? <==> ParseDeposit(payload).Err?) && (r.Err? ==> r.error == ParseDeposit(payload).error)
    ensures r.Ok? ==>
              && r.value.0 == DepositKeys(accounts[0].key, accounts[1].key, accounts[2].key, accounts[5].key)
              && accounts[1].isSigner
              && r.value.0.vault == VaultAddress(rt)
              && r.value.0.userDeposit == UserDepositAddress(rt, r.value.0.user)
              && r.value.1 == ParseDeposit(payload).value && r.value.1.amount > 0
  {
    var _ :- RequireAccounts(accounts, 6);
    var vault, user, userDeposit := accounts[0], accounts[1], accounts[2];
    var incoProgram := accounts[5];
    if !user.isSigner then Err(MissingRequiredSignature)
    else if vault.key != VaultAddress(rt) then Err(InvalidAccountData)
    else if userDeposit.key != UserDepositAddress(rt, user.key) then Err(InvalidAccountData)
    else
      var args :- ParseDeposit(payload);
      Ok((DepositKeys(vault.key, user.key, userDeposit.key, incoProgram.key), args))
  }

  /**
   * The record `deposit` writes, from the user-deposit buffer as it is after
   * any creation. The record counts as new when byte 0 of the buffer is zero;
   * a zero balance handle is replaced by an encrypted zero and the signer
   * becomes the owner; then the deposited ciphertext is added.
   */
  function DepositedRecord(inco: Coprocessor, program: Pubkey, user: Pubkey, stored: seq<Byte>, a: DepositArgs)
    : (r: Result<UserDeposit, ProgramError>)
    ensures |stored| < USER_DEPOSIT_LEN ==> r == Err(InvalidAccountData)
  {
    if |stored| < USER_DEPOSIT_LEN then Err(InvalidAccountData)
    else
      var loaded :- if stored[0] == 0 then Ok(UserDeposit(user, 0)) else UserDepositUnpack(stored);
      var base :- if loaded.balance == 0 then
                    (var zero :- Invoke(inco, program, user, AsEuint128(0));
                     Ok(UserDeposit(user, zero)))
                  else Ok(loaded);
      var encrypted :- Invoke(inco, program, user, NewEuint128(a.ciphertext, a.inputType));
      var sum :- Invoke(inco, program, user, EAdd(base.balance, encrypted));
      Ok(UserDeposit(base.user, sum))
  }

  /** The handle the coprocessor gives for `Add(lhs, NewE(ciphertext, input_type))`. */
  function AddDeposit(inco: Coprocessor, program: Pubkey, user: Pubkey, lhs: Result<U128, ProgramError>, a: DepositArgs)
    : Result<U128, ProgramError>
  {
    var l :- lhs;
    var encrypted :- Invoke(inco, program, user, NewEuint128(a.ciphertext, a.inputType));
    Invoke(inco, program, user, EAdd(l, encrypted))
  }

  /**
   * A record seen as new (byte 0 zero) or holding handle 0 restarts from an
   * encrypted zero owned by the signer; any other record keeps its owner and
   * adds to its stored handle.
   */
  lemma DepositedRecordBalance(inco: Coprocessor, program: Pubkey, user: Pubkey, stored: seq<Byte>, a: DepositArgs)
    requires |stored| == USER_DEPOSIT_LEN
    ensures var r := DepositedRecord(inco, program, user, stored, a);
            var d := UserDepositUnpackFromSlice(stored).value;
      && (stored[0] == 0 || d.balance == 0 ==>
            (r.Ok? <==> AddDeposit(inco, program, user, Invoke(inco, program, user, AsEuint128(0)), a).Ok?)
            && (r.Ok? ==> r.value == UserDeposit(user, AddDeposit(inco, program, user, Invoke(inco, program, user, AsEuint128(0)), a).value)))
      && (stored[0] != 0 && d.balance != 0 ==>
            r == (var sum :- AddDeposit(inco, program, user, Ok(d.balance), a); Ok(UserDeposit(d.user, sum))))
  {
    var d := UserDepositUnpackFromSlice(stored).value;
    if stored[0] != 0 {
      assert d.user[0] != 0;
      assert UserDepositIsInitialized(d);
    }
  }

  /**
   * The byte-0 test: an owner whose key begins with a zero byte has the stored
   * balance discarded on every deposit, whatever handle was stored.
   */
  lemma DepositForgetsBalanceOfZeroLeadingOwner(
    inco: Coprocessor, program: Pubkey, user: Pubkey, handle: U128, a: DepositArgs, stored: seq<Byte>)
    requires user[0] == 0 && |stored| == USER_DEPOSIT_LEN
    ensures var before := UserDepositPackedInto(UserDeposit(user, handle), stored);
            DepositedRecord(inco, program, user, before, a)
            == DepositedRecord(inco, program, user, Zeros(USER_DEPOSIT_LEN), a)
  {
    var before := UserDepositPackedInto(UserDeposit(user, handle), stored);
    assert before[0] == 0;
  }

  /**
   * `deposit`: the user pays for the vault and the user-deposit account when
   * they hold no lamports, moves `amount` lamports to the vault, and the
   * encrypted balance is updated in place.
   */
  function DepositSpec(b: Bank, rt: Runtime, inco: Coprocessor, accounts: seq<AccountMeta>, payload: seq<Byte>)
    : Result<Bank, ProgramError>
  {
    var (keys, a) :- DepositPreflight(rt, accounts, payload);
    var funded :- DepositFunding(b, rt, keys, a.amount);
    var stored := funded.Data(keys.userDeposit);
    var record :- DepositedRecord(inco, keys.incoProgram, keys.user, stored, a);
    Ok(funded.SetData(keys.userDeposit, UserDepositPackedInto(record, stored)))
  }

  /**
   * The lamport side of `deposit`: create the vault if it holds no lamports,
   * transfer `amount` into it, then create the user-deposit account if it
   * holds no lamports, every payment made by the user.
   */
  function DepositFunding(b: Bank, rt: Runtime, keys: DepositKeys, amount: nat): Result<Bank, ProgramError>
  {
    var withVault :- if b.Lamports(keys.vault) == 0
                     then b.CreateAccount(keys.user, keys.vault, rt.minimumBalance(0), 0)
                     else Ok(b);
    var funded :- withVault.Transfer(keys.user, keys.vault, amount);
    if funded.Lamports(keys.userDeposit) == 0
    then funded.CreateAccount(keys.user, keys.userDeposit, rt.minimumBalance(USER_DEPOSIT_LEN), USER_DEPOSIT_LEN)
    else Ok(funded)
  }

  /**
   * With distinct accounts, funding a deposit costs the user `amount` plus the
   * rent of each account created, keeps the three balances' sum, and leaves
   * every other account (and every buffer but a new record's) as it was.
   */
  lemma DepositFundingEffect(b: Bank, rt: Runtime, keys: DepositKeys, amount: nat)
    requires DepositFunding(b, rt, keys, amount).Ok?
    requires keys.vault != keys.user && keys.vault != keys.userDeposit && keys.user != keys.userDeposit
    ensures var b' := DepositFunding(b, rt, keys, amount).value;
            var vaultRent := if b.Lamports(keys.vault) == 0 then rt.minimumBalance(0) else 0;
            var recordRent := if b.Lamports(keys.userDeposit) == 0 then rt.minimumBalance(USER_DEPOSIT_LEN) else 0;
      && b'.Lamports(keys.vault) == b.Lamports(keys.vault) + vaultRent + amount
      && b'.Lamports(keys.userDeposit) == b.Lamports(keys.userDeposit) + recordRent
      && b'.Lamports(keys.user) + vaultRent + amount + recordRent == b.Lamports(keys.user)
      && (forall k :: k != keys.vault && k != keys.user && k != keys.userDeposit ==> b'.Lamports(k) == b.Lamports(k))
      && (forall k :: k != keys.userDeposit ==> b'.Data(k) == b.Data(k))
      && b'.Data(keys.userDeposit) == (if b.Lamports(keys.userDeposit) == 0 then Zeros(USER_DEPOSIT_LEN) else b.Data(keys.userDeposit))
  {
    var withVault := if b.Lamports(keys.vault) == 0
                     then b.CreateAccount(keys.user, keys.vault, rt.minimumBalance(0), 0).value
                     else b;
    assert forall k :: withVault.Data(k) == b.Data(k);
    var funded := withVault.Transfer(keys.user, keys.vault, amount).value;
    assert funded.Lamports(keys.userDeposit) == b.Lamports(keys.userDeposit);
  }

  method Deposit(ledger: Ledger, rt: Runtime, inco: Coprocessor, accounts: seq<AccountMeta>, payload: seq<Byte>)
    returns (r: Result<Unit, ProgramError>)
    modifies ledger
    ensures Completes(r, ledger.State(), DepositSpec(old(ledger.State()), rt, inco, accounts, payload))
    ensures DepositPreflight(rt, accounts, payload).Err? ==> ledger.State() == old(ledger.State())
  {
    var _ :- RequireAccounts(accounts, 6);
    var vault, user, userDeposit := accounts[0].key, accounts[1], accounts[2].key;
    // `inco_program` is bound twice; the second binding, account 5, is the one used.
    var incoProgram := accounts[5].key;
    if !user.isSigner {
      return Err(MissingRequiredSignature);
    }
    if vault != VaultAddress(rt) {
      return Err(InvalidAccountData);
    }
    if userDeposit != UserDepositAddress(rt, user.key) {
      return Err(InvalidAccountData);
    }
    var a :- ParseDeposit(payload);
    if ledger.Lamports(vault) == 0 {
      // (the source derives the vault address again here; it was checked above)
      var _ :- ledger.CreateAccount(user.key, vault, rt.minimumBalance(0), 0);
    }
    var _ :- ledger.Transfer(user.key, vault, a.amount);
    if ledger.Lamports(userDeposit) == 0 {
      var _ :- ledger.CreateAccount(user.key, userDeposit, rt.minimumBalance(USER_DEPOSIT_LEN), USER_DEPOSIT_LEN);
    }
    var stored := ledger.Data(userDeposit);
    if |stored| < USER_DEPOSIT_LEN {
      return Err(InvalidAccountData);
    }
    var record: UserDeposit;
    if stored[0] == 0 {
      record := UserDeposit(user.key, 0);
    } else {
      record :- UserDepositUnpack(stored);
    }
    if record.balance == 0 {
      var zero :- Invoke(inco, incoProgram, user.key, AsEuint128(0));
      record := UserDeposit(user.key, zero);
    }
    var encrypted :- Invoke(inco, incoProgram, user.key, NewEuint128(a.ciphertext, a.inputType));
    var sum :- Invoke(inco, incoProgram, user.key, EAdd(record.balance, encrypted));
    record := record.(balance := sum);
    ledger.WriteData(userDeposit, UserDepositPackedInto(record, stored));
    return Ok(Unit);
  }

  /**
   * A successful deposit with distinct vault, user and record accounts: the
   * user paid `amount` to the vault plus the rent of each account created on
   * the way, the three balances keep their sum, the record buffer holds the
   * updated record, and no other account changed.
   */
  lemma DepositEffect(b: Bank, rt: Runtime, inco: Coprocessor, accounts: seq<AccountMeta>, payload: seq<Byte>)
    requires DepositSpec(b, rt, inco, accounts, payload).Ok?
    requires |accounts| >= 6
    requires accounts[0].key != accounts[1].key && accounts[0].key != accounts[2].key && accounts[1].key != accounts[2].key
    ensures DepositPreflight(rt, accounts, payload).Ok?
    ensures var b' := DepositSpec(b, rt, inco, accounts, payload).value;
            var vault, user, userDeposit := accounts[0].key, accounts[1].key, accounts[2].key;
            var a := DepositPreflight(rt, accounts, payload).value.1;
            var vaultRent := if b.Lamports(vault) == 0 then rt.minimumBalance(0) else 0;
            var recordRent := if b.Lamports(userDeposit) == 0 then rt.minimumBalance(USER_DEPOSIT_LEN) else 0;
      && b'.Lamports(vault) == b.Lamports(vault) + vaultRent + a.amount
      && b'.Lamports(userDeposit) == b.Lamports(userDeposit) + recordRent
      && b'.Lamports(user) + vaultRent + a.amount + recordRent == b.Lamports(user)
      && (forall k :: k != vault && k != user && k != userDeposit ==> b'.Lamports(k) == b.Lamports(k))
      && (forall k :: k != userDeposit ==> b'.Data(k) == b.Data(k))
      && (b.Lamports(userDeposit) == 0 ==> |b'.Data(userDeposit)| == USER_DEPOSIT_LEN)
      && |b'.Data(userDeposit)| >= USER_DEPOSIT_LEN
      && var stored := if b.Lamports(userDeposit) == 0 then Zeros(USER_DEPOSIT_LEN) else b.Data(userDeposit);
         && DepositedRecord(inco, accounts[5].key, user, stored, a).Ok?
         && UserDepositUnpackFromSlice(b'.Data(userDeposit)) == DepositedRecord(inco, accounts[5].key, user, stored, a)
  {
    var (keys, a) := DepositPreflight(rt, accounts, payload).value;
    DepositFundingEffect(b, rt, keys, a.amount);
    var funded := DepositFunding(b, rt, keys, a.amount).value;
    var stored := funded.Data(keys.userDeposit);
    var record := DepositedRecord(inco, keys.incoProgram, keys.user, stored, a).value;
    UserDepositRoundTrip(record, stored);
  }

  // ===== withdraw =====

  datatype PayoutKeys = PayoutKeys(vault: Pubkey, user: Pubkey, userDeposit: Pubkey)

  /** The checks `withdraw` makes before it reads the user record. */
  function WithdrawPreflight(rt: Runtime, accounts: seq<AccountMeta>, payload: seq<Byte>)
    : (r: Result<(PayoutKeys, U64), ProgramError>)
    ensures |accounts| < 3 ==> r == Err(NotEnoughAccountKeys)
    ensures |accounts| >= 3 && !accounts[1].isSigner ==> r == Err(MissingRequiredSignature)
    ensures |accounts| >= 3 && accounts[1].isSigner
            && (accounts[0].key != VaultAddress(rt) || accounts[2].key != UserDepositAddress(rt, accounts[1].key))
            ==> r == Err(InvalidAccountData)
    ensures |accounts| >= 3 && accounts[1].isSigner && accounts[0].key == VaultAddress(rt)
            && accounts[2].key == UserDepositAddress(rt, accounts[1].key)
            ==> r == (var amount :- ParseWithdraw(payload); Ok((PayoutKeys(accounts[0].key, accounts[1].key, accounts[2].key), amount)))
  {
    var _ :- RequireAccounts(accounts, 3);
    var vault, user, userDeposit := accounts[0], accounts[1], accounts[2];
    if !user.isSigner then Err(MissingRequiredSignature)
    else if vault.key != VaultAddress(rt) then Err(InvalidAccountData)
    else if userDeposit.key != UserDepositAddress(rt, user.key) then Err(InvalidAccountData)
    else
      var amount :- ParseWithdraw(payload);
      Ok((PayoutKeys(vault.key, user.key, userDeposit.key), amount))
  }

  /**
   * The encrypted side of `withdraw`: encrypt the plaintext amount, ask the
   * coprocessor whether the balance covers it, and if so subtract it.
   */
  function WithdrawnBalance(inco: Coprocessor, program: Pubkey, user: Pubkey, balance: U128, amount: U64)
    : (r: Result<U128, ProgramError>)
    ensures r.Ok? ==>
              && Invoke(inco, program, user, AsEuint128(amount)).Ok?
              && var h := Invoke(inco, program, user, AsEuint128(amount)).value;
                 && Invoke(inco, program, user, EGe(balance, h)).Ok?
                 && IsTrue(Invoke(inco, program, user, EGe(balance, h)).value)
                 && Invoke(inco, program, user, ESub(balance, h)) == r
    ensures var h := Invoke(inco, program, user, AsEuint128(amount));
            h.Err? ==> r == Err(h.error)
    ensures var h := Invoke(inco, program, user, AsEuint128(amount));
            h.Ok? ==>
              var covered := Invoke(inco, program, user, EGe(balance, h.value));
              && (covered.Err? ==> r == Err(covered.error))
              && (covered.Ok? && !IsTrue(covered.value) ==> r == Err(InsufficientFunds))
              && (covered.Ok? && IsTrue(covered.value) ==> r == Invoke(inco, program, user, ESub(balance, h.value)))
  {
    var encryptedAmount :- Invoke(inco, program, user, AsEuint128(amount));
    var sufficient :- Invoke(inco, program, user, EGe(balance, encryptedAmount));
    if !IsTrue(sufficient) then Err(InsufficientFunds)
    else Invoke(inco, program, user, ESub(balance, encryptedAmount))
  }

  /**
   * `withdraw`: the stored record must belong to the signer; the new encrypted
   * balance is stored, then `amount` lamports go from the vault to the user.
   * The instruction does not list the Inco program among its accounts, so its
   * key is a parameter here.
   */
  function WithdrawSpec(b: Bank, rt: Runtime, inco: Coprocessor, incoProgram: Pubkey,
                        accounts: seq<AccountMeta>, payload: seq<Byte>)
    : Result<Bank, ProgramError>
  {
    var (keys, amount) :- WithdrawPreflight(rt, accounts, payload);
    var record :- UserDepositUnpack(b.Data(keys.userDeposit));
    if record.user != keys.user then Err(InvalidAccountData)
    else
      var balance :- WithdrawnBalance(inco, incoProgram, keys.user, record.balance, amount);
      Payout(b, keys.userDeposit, UserDeposit(record.user, balance), keys.vault, keys.user, amount)
  }

  method Withdraw(ledger: Ledger, rt: Runtime, inco: Coprocessor, incoProgram: Pubkey,
                  accounts: seq<AccountMeta>, payload: seq<Byte>)
    returns (r: Result<Unit, ProgramError>)
    modifies ledger
    ensures Completes(r, ledger.State(), WithdrawSpec(old(ledger.State()), rt, inco, incoProgram, accounts, payload))
    ensures r.Err? && r.error != Aborted ==> ledger.State() == old(ledger.State())
  {
    var _ :- RequireAccounts(accounts, 3);
    var vault, user, userDeposit := accounts[0].key, accounts[1], accounts[2].key;
    if !user.isSigner {
      return Err(MissingRequiredSignature);
    }
    if vault != VaultAddress(rt) {
      return Err(InvalidAccountData);
    }
    if userDeposit != UserDepositAddress(rt, user.key) {
      return Err(InvalidAccountData);
    }
    var amount :- ParseWithdraw(payload);
    var record :- UserDepositUnpack(ledger.Data(userDeposit));
    if record.user != user.key {
      return Err(InvalidAccountData);
    }
    var encryptedAmount :- Invoke(inco, incoProgram, user.key, AsEuint128(amount));
    var sufficient :- Invoke(inco, incoProgram, user.key, EGe(record.balance, encryptedAmount));
    if !IsTrue(sufficient) {
      return Err(InsufficientFunds);
    }
    var balance :- Invoke(inco, incoProgram, user.key, ESub(record.balance, encryptedAmount));
    record := record.(balance := balance);
    ledger.WriteData(userDeposit, UserDepositPackedInto(record, ledger.Data(userDeposit)));
    r := PayFromVault(ledger, vault, user.key, amount);
  }

  /** `MoveLamports` on the ledger: two direct balance updates. */
  method PayFromVault(ledger: Ledger, vault: Pubkey, receiver: Pubkey, amount: nat)
    returns (r: Result<Unit, ProgramError>)
    modifies ledger
    ensures Completes(r, ledger.State(), MoveLamports(old(ledger.State()), vault, receiver, amount))
    ensures r.Err? ==> ledger.State() == old(ledger.State())
  {
    if ledger.Lamports(vault) < amount {
      return Err(Aborted);
    }
    ledger.Debit(vault, amount);
    ledger.Credit(receiver, amount);
    return Ok(Unit);
  }

  /** A withdrawal by someone other than the record's owner is refused. */
  lemma WithdrawRejectsOtherOwner(b: Bank, rt: Runtime, inco: Coprocessor, incoProgram: Pubkey,
                                  accounts: seq<AccountMeta>, payload: seq<Byte>)
    requires WithdrawPreflight(rt, accounts, payload).Ok?
    requires UserDepositUnpack(b.Data(accounts[2].key)).Ok?
    requires UserDepositUnpack(b.Data(accounts[2].key)).value.user != accounts[1].key
    ensures WithdrawSpec(b, rt, inco, incoProgram, accounts, payload) == Err(InvalidAccountData)
  {
  }

  /** When the coprocessor answers that the balance is short, nothing is paid out. */
  lemma WithdrawInsufficientFails(b: Bank, rt: Runtime, inco: Coprocessor, incoProgram: Pubkey,
                                  accounts: seq<AccountMeta>, payload: seq<Byte>)
    requires WithdrawPreflight(rt, accounts, payload).Ok?
    requires UserDepositUnpack(b.Data(accounts[2].key)).Ok?
    requires var d := UserDepositUnpack(b.Data(accounts[2].key)).value;
             var h := Invoke(inco, incoProgram, accounts[1].key, AsEuint128(WithdrawPreflight(rt, accounts, payload).value.1));
             d.user == accounts[1].key && h.Ok?
             && Invoke(inco, incoProgram, accounts[1].key, EGe(d.balance, h.value)) == Ok(0)
    ensures WithdrawSpec(b, rt, inco, incoProgram, accounts, payload) == Err(InsufficientFunds)
  {
  }

  /**
   * A successful withdrawal: the signer owns the record, the record now holds
   * the coprocessor's difference, the vault held at least `amount`, the
   * lamports moved from the vault to the user (their sum kept), and nothing
   * else changed.
   */
  lemma WithdrawEffect(b: Bank, rt: Runtime, inco: Coprocessor, incoProgram: Pubkey,
                       accounts: seq<AccountMeta>, payload: seq<Byte>)
    requires WithdrawSpec(b, rt, inco, incoProgram, accounts, payload).Ok?
    ensures |accounts| >= 3 && |payload| >= 8 && accounts[1].isSigner
    ensures var b' := WithdrawSpec(b, rt, inco, incoProgram, accounts, payload).value;
            var vault, user, userDeposit, amount := accounts[0].key, accounts[1].key, accounts[2].key, U64Le(payload[..8]);
            var d := UserDepositUnpack(b.Data(userDeposit)).value;
      && UserDepositUnpack(b.Data(userDeposit)).Ok? && d.user == user
      && b.Lamports(vault) >= amount
      && WithdrawnBalance(inco, incoProgram, user, d.balance, amount).Ok?
      && UserDepositUnpackFromSlice(b'.Data(userDeposit))
         == Ok(UserDeposit(user, WithdrawnBalance(inco, incoProgram, user, d.balance, amount).value))
      && b'.Lamports(vault) + b'.Lamports(user) == b.Lamports(vault) + b.Lamports(user)
      && (vault != user ==> b'.Lamports(user) == b.Lamports(user) + amount)
      && (forall k :: k != vault && k != user ==> b'.Lamports(k) == b.Lamports(k))
      && (forall k :: k != userDeposit ==> b'.Data(k) == b.Data(k))
  {
    var keys := WithdrawPreflight(rt, accounts, payload).value.0;
    var amount := WithdrawPreflight(rt, accounts, payload).value.1;
    var d := UserDepositUnpack(b.Data(keys.userDeposit)).value;
    var balance := WithdrawnBalance(inco, incoProgram, keys.user, d.balance, amount).value;
    UserDepositRoundTrip(UserDeposit(d.user, balance), b.Data(keys.userDeposit));
  }

  /**
   * A withdrawal goes through exactly when the account checks pass, the record
   * belongs to the signer, the coprocessor accepts every step, and the vault
   * holds the amount.
   */
  lemma WithdrawSucceeds(b: Bank, rt: Runtime, inco: Coprocessor, incoProgram: Pubkey,
                         accounts: seq<AccountMeta>, payload: seq<Byte>)
    ensures WithdrawSpec(b, rt, inco, incoProgram, accounts, payload).Ok? <==>
              && WithdrawPreflight(rt, accounts, payload).Ok?
              && var keys, amount := WithdrawPreflight(rt, accounts, payload).value.0, WithdrawPreflight(rt, accounts, payload).value.1;
                 var record := UserDepositUnpack(b.Data(keys.userDeposit));
                 && record.Ok? && record.value.user == keys.user
                 && WithdrawnBalance(inco, incoProgram, keys.user, record.value.balance, amount).Ok?
                 && b.Lamports(keys.vault) >= amount
  {
  }

  // ===== execute_with_intent =====

  datatype ExecuteKeys = ExecuteKeys(vault: Pubkey, userDeposit: Pubkey, user: Pubkey, execution: Pubkey, incoProgram: Pubkey)

  /**
   * The checks `execute_with_intent` makes before it reads the user record:
   * the executor address, its stored configuration naming this execution
   * account, that account's signature, the vault and user-deposit addresses,
   * and the intent layout with a non-empty signature.
   */
  function ExecutePreflight(b: Bank, rt: Runtime, accounts: seq<AccountMeta>, payload: seq<Byte>)
    : (r: Result<(ExecuteKeys, IntentArgs), ProgramError>)
    ensures |accounts| < 7 ==> r == Err(NotEnoughAccountKeys)
    ensures |accounts| >= 7 && accounts[0].key != ExecutorAddress(rt) ==> r == Err(InvalidAccountData)
    ensures |accounts| >= 7 && accounts[0].key == ExecutorAddress(rt) && ExecutorUnpack(b.Data(accounts[0].key)).Err?
            ==> r == Err(ExecutorUnpack(b.Data(accounts[0].key)).error)
    ensures |accounts| >= 7 && accounts[0].key == ExecutorAddress(rt) && ExecutorUnpack(b.Data(accounts[0].key)).Ok?
            ==> var config := ExecutorUnpack(b.Data(accounts[0].key)).value;
                && (config.executionAccount != accounts[4].key ==> r == Err(InvalidAccountData))
                && (config.executionAccount == accounts[4].key && !accounts[4].isSigner ==> r == Err(MissingRequiredSignature))
    ensures |accounts| >= 7 && accounts[0].key == ExecutorAddress(rt) && ExecutorUnpack(b.Data(accounts[0].key)).Ok?
            && ExecutorUnpack(b.Data(accounts[0].key)).value.executionAccount == accounts[4].key && accounts[4].isSigner
            ==> var addressed := accounts[1].key == VaultAddress(rt) && accounts[2].key == UserDepositAddress(rt, accounts[3].key);
                && (!addressed ==> r == Err(InvalidAccountData))
                && (addressed ==> (r.Err? <==> ParseIntent(payload).Err?) && (r.Err? ==> r.error == ParseIntent(payload).error))
    ensures r.Ok? ==>
              && r.value.0 == ExecuteKeys(accounts[1].key, accounts[2].key, accounts[3].key, accounts[4].key, accounts[6].key)
              && accounts[0].key == ExecutorAddress(rt)
              && ExecutorUnpack(b.Data(accounts[0].key)) == Ok(Executor(accounts[4].key, ExecutorUnpack(b.Data(accounts[0].key)).value.authority, true))
              && accounts[4].isSigner
              && accounts[1].key == VaultAddress(rt)
              && accounts[2].key == UserDepositAddress(rt, accounts[3].key)
              && ParseIntent(payload).Ok? && r.value.1 == ParseIntent(payload).value && |r.value.1.signature| > 0
  {
    var _ :- RequireAccounts(accounts, 7);
    var executor, vault, userDeposit, user, execution := accounts[0], accounts[1], accounts[2], accounts[3], accounts[4];
    var incoProgram := accounts[6];
    if executor.key != ExecutorAddress(rt) then Err(InvalidAccountData)
    else
      var config :- ExecutorUnpack(b.Data(executor.key));
      if config.executionAccount != execution.key then Err(InvalidAccountData)
      else if !execution.isSigner then Err(MissingRequiredSignature)
      else if vault.key != VaultAddress(rt) then Err(InvalidAccountData)
      else if userDeposit.key != UserDepositAddress(rt, user.key) then Err(InvalidAccountData)
      else
        var intent :- ParseIntent(payload);
        Ok((ExecuteKeys(vault.key, userDeposit.key, user.key, execution.key, incoProgram.key), intent))
  }

  /**
   * The encrypted side of `execute_with_intent`, with the execution account
   * as the coprocessor's signer: the ciphertext must encrypt the plaintext
   * amount, the amount must be non-zero and covered by the balance, and the
   * result is the balance minus the encrypted amount.
   */
  function ExecutedBalance(inco: Coprocessor, program: Pubkey, signer: Pubkey, balance: U128, intent: IntentArgs)
    : (r: Result<U128, ProgramError>)
    ensures r.Ok? ==>
              && intent.amount > 0
              && Invoke(inco, program, signer, NewEuint128(intent.ciphertext, intent.inputType)).Ok?
              && Invoke(inco, program, signer, AsEuint128(intent.amount)).Ok?
              && var e := Invoke(inco, program, signer, NewEuint128(intent.ciphertext, intent.inputType)).value;
                 var p := Invoke(inco, program, signer, AsEuint128(intent.amount)).value;
                 && Invoke(inco, program, signer, EEq(e, p)).Ok?
                 && IsTrue(Invoke(inco, program, signer, EEq(e, p)).value)
                 && Invoke(inco, program, signer, EGe(balance, e)).Ok?
                 && IsTrue(Invoke(inco, program, signer, EGe(balance, e)).value)
                 && Invoke(inco, program, signer, ESub(balance, e)) == r
    ensures var e := Invoke(inco, program, signer, NewEuint128(intent.ciphertext, intent.inputType));
            var p := Invoke(inco, program, signer, AsEuint128(intent.amount));
            && (e.Err? ==> r == Err(e.error))
            && (e.Ok? && p.Err? ==> r == Err(p.error))
    ensures var e := Invoke(inco, program, signer, NewEuint128(intent.ciphertext, intent.inputType));
            var p := Invoke(inco, program, signer, AsEuint128(intent.amount));
            e.Ok? && p.Ok? ==>
              var agree := Invoke(inco, program, signer, EEq(e.value, p.value));
              var covered := Invoke(inco, program, signer, EGe(balance, e.value));
              && (agree.Err? ==> r == Err(agree.error))
              && (agree.Ok? && !IsTrue(agree.value) ==> r == Err(InvalidArgument))
              && (agree.Ok? && IsTrue(agree.value) && covered.Err? ==> r == Err(covered.error))
              && (var accepted := agree.Ok? && IsTrue(agree.value) && covered.Ok?;
                  && (accepted && (intent.amount == 0 || !IsTrue(covered.value)) ==> r == Err(InsufficientFunds))
                  && (accepted && intent.amount > 0 && IsTrue(covered.value) ==>
                        r == Invoke(inco, program, signer, ESub(balance, e.value))))
  {
    var encryptedAmount :- Invoke(inco, program, signer, NewEuint128(intent.ciphertext, intent.inputType));
    var plaintextAmount :- Invoke(inco, program, signer, AsEuint128(intent.amount));
    var matches :- Invoke(inco, program, signer, EEq(encryptedAmount, plaintextAmount));
    if !IsTrue(matches) then Err(InvalidArgument)
    else
      var sufficient :- Invoke(inco, program, signer, EGe(balance, encryptedAmount));
      if intent.amount == 0 || !IsTrue(sufficient) then Err(InsufficientFunds)
      else Invoke(inco, program, signer, ESub(balance, encryptedAmount))
  }

  /** The ciphertext and the plaintext amount must agree; otherwise the intent is refused. */
  lemma ExecutedBalanceMismatch(inco: Coprocessor, program: Pubkey, signer: Pubkey, balance: U128, intent: IntentArgs)
    requires Invoke(inco, program, signer, NewEuint128(intent.ciphertext, intent.inputType)).Ok?
    requires Invoke(inco, program, signer, AsEuint128(intent.amount)).Ok?
    requires Invoke(inco, program, signer, EEq(Invoke(inco, program, signer, NewEuint128(intent.ciphertext, intent.inputType)).value,
                                               Invoke(inco, program, signer, AsEuint128(intent.amount)).value)) == Ok(0)
    ensures ExecutedBalance(inco, program, signer, balance, intent) == Err(InvalidArgument)
  {
  }

  /** An agreeing intent for zero lamports, or one the balance does not cover, is refused. */
  lemma ExecutedBalanceInsufficient(inco: Coprocessor, program: Pubkey, signer: Pubkey, balance: U128, intent: IntentArgs)
    requires Invoke(inco, program, signer, NewEuint128(intent.ciphertext, intent.inputType)).Ok?
    requires Invoke(inco, program, signer, AsEuint128(intent.amount)).Ok?
    requires var e := Invoke(inco, program, signer, NewEuint128(intent.ciphertext, intent.inputType)).value;
             var p := Invoke(inco, program, signer, AsEuint128(intent.amount)).value;
             && Invoke(inco, program, signer, EEq(e, p)).Ok? && IsTrue(Invoke(inco, program, signer, EEq(e, p)).value)
             && Invoke(inco, program, signer, EGe(balance, e)).Ok?
             && (intent.amount == 0 || Invoke(inco, program, signer, EGe(balance, e)) == Ok(0))
    ensures ExecutedBalance(inco, program, signer, balance, intent) == Err(InsufficientFunds)
  {
  }

  /**
   * `execute_with_intent`: the stored record must belong to the named user
   * (who does not sign); the new encrypted balance is stored, then `amount`
   * lamports go from the vault to the execution account.
   */
  function ExecuteSpec(b: Bank, rt: Runtime, inco: Coprocessor, accounts: seq<AccountMeta>, payload: seq<Byte>)
    : Result<Bank, ProgramError>
  {
    var (keys, intent) :- ExecutePreflight(b, rt, accounts, payload);
    var record :- UserDepositUnpack(b.Data(keys.userDeposit));
    if record.user != keys.user then Err(InvalidAccountData)
    else
      var balance :- ExecutedBalance(inco, keys.incoProgram, keys.execution, record.balance, intent);
      Payout(b, keys.userDeposit, UserDeposit(record.user, balance), keys.vault, keys.execution, intent.amount)
  }

  method ExecuteWithIntent(ledger: Ledger, rt: Runtime, inco: Coprocessor, accounts: seq<AccountMeta>, payload: seq<Byte>)
    returns (r: Result<Unit, ProgramError>)
    modifies ledger
    ensures Completes(r, ledger.State(), ExecuteSpec(old(ledger.State()), rt, inco, accounts, payload))
    ensures r.Err? && r.error != Aborted ==> ledger.State() == old(ledger.State())
  {
    var _ :- RequireAccounts(accounts, 7);
    var executor, vault, userDeposit, user, execution := accounts[0].key, accounts[1].key, accounts[2].key, accounts[3].key, accounts[4];
    var incoProgram := accounts[6].key;
    if executor != ExecutorAddress(rt) {
      return Err(InvalidAccountData);
    }
    var config :- ExecutorUnpack(ledger.Data(executor));
    if config.executionAccount != execution.key {
      return Err(InvalidAccountData);
    }
    if !execution.isSigner {
      return Err(MissingRequiredSignature);
    }
    if vault != VaultAddress(rt) {
      return Err(InvalidAccountData);
    }
    if userDeposit != UserDepositAddress(rt, user) {
      return Err(InvalidAccountData);
    }
    var intent :- ParseIntent(payload);
    assert ExecutePreflight(old(ledger.State()), rt, accounts, payload)
           == Ok((ExecuteKeys(vault, userDeposit, user, execution.key, incoProgram), intent));
    var record :- UserDepositUnpack(ledger.Data(userDeposit));
    if record.user != user {
      return Err(InvalidAccountData);
    }
    var encryptedAmount :- Invoke(inco, incoProgram, execution.key, NewEuint128(intent.ciphertext, intent.inputType));
    var plaintextAmount :- Invoke(inco, incoProgram, execution.key, AsEuint128(intent.amount));
    var matches :- Invoke(inco, incoProgram, execution.key, EEq(encryptedAmount, plaintextAmount));
    if !IsTrue(matches) {
      return Err(InvalidArgument);
    }
    var sufficient :- Invoke(inco, incoProgram, execution.key, EGe(record.balance, encryptedAmount));
    if intent.amount == 0 || !IsTrue(sufficient) {
      return Err(InsufficientFunds);
    }
    // The intent signature is only required to be non-empty; it is not verified.
    var balance :- Invoke(inco, incoProgram, execution.key, ESub(record.balance, encryptedAmount));
    assert ExecutedBalance(inco, incoProgram, execution.key, record.balance, intent) == Ok(balance);
    record := record.(balance := balance);
    ledger.WriteData(userDeposit, UserDepositPackedInto(record, ledger.Data(userDeposit)));
    r := PayFromVault(ledger, vault, execution.key, intent.amount);
  }

  /**
   * Only the configured execution account, signing, can spend a deposit: an
   * intent presented by any other account is refused whatever it contains.
   */
  lemma ExecuteRequiresConfiguredSigner(b: Bank, rt: Runtime, inco: Coprocessor, accounts: seq<AccountMeta>, payload: seq<Byte>)
    requires ExecuteSpec(b, rt, inco, accounts, payload).Ok?
    ensures |accounts| >= 7 && accounts[4].isSigner
    ensures ExecutorUnpack(b.Data(ExecutorAddress(rt))).Ok?
    ensures ExecutorUnpack(b.Data(ExecutorAddress(rt))).value.executionAccount == accounts[4].key
  {
  }

  /**
   * The intent layout is checked before the user record is read: a malformed
   * payload gives its parse error whatever the record holds.
   */
  lemma ExecuteParsesBeforeReading(b: Bank, rt: Runtime, inco: Coprocessor, accounts: seq<AccountMeta>, payload: seq<Byte>,
                                   u: Pubkey, record: seq<Byte>)
    requires |accounts| >= 7 && u != ExecutorAddress(rt)
    requires ParseIntent(payload).Err?
    ensures ExecuteSpec(b.SetData(u, record), rt, inco, accounts, payload)
            == ExecuteSpec(b, rt, inco, accounts, payload)
    ensures ExecuteSpec(b, rt, inco, accounts, payload).Err?
  {
  }

  /**
   * A successful intent: the record now holds the coprocessor's difference,
   * the vault held at least `amount`, the lamports moved from the vault to the
   * execution account (their sum kept), and nothing else changed.
   */
  lemma ExecuteEffect(b: Bank, rt: Runtime, inco: Coprocessor, accounts: seq<AccountMeta>, payload: seq<Byte>)
    requires ExecuteSpec(b, rt, inco, accounts, payload).Ok?
    ensures |accounts| >= 7 && ParseIntent(payload).Ok?
    ensures var b' := ExecuteSpec(b, rt, inco, accounts, payload).value;
            var vault, userDeposit, user, receiver := accounts[1].key, accounts[2].key, accounts[3].key, accounts[4].key;
            var intent := ParseIntent(payload).value;
            var d := UserDepositUnpack(b.Data(userDeposit)).value;
      && UserDepositUnpack(b.Data(userDeposit)).Ok? && d.user == user
      && intent.amount > 0 && b.Lamports(vault) >= intent.amount
      && ExecutedBalance(inco, accounts[6].key, receiver, d.balance, intent).Ok?
      && UserDepositUnpackFromSlice(b'.Data(userDeposit))
         == Ok(UserDeposit(user, ExecutedBalance(inco, accounts[6].key, receiver, d.balance, intent).value))
      && b'.Lamports(vault) + b'.Lamports(receiver) == b.Lamports(vault) + b.Lamports(receiver)
      && (vault != receiver ==> b'.Lamports(receiver) == b.Lamports(receiver) + intent.amount)
      && (forall k :: k != vault && k != receiver ==> b'.Lamports(k) == b.Lamports(k))
      && (forall k :: k != userDeposit ==> b'.Data(k) == b.Data(k))
  {
    var (keys, intent) := ExecutePreflight(b, rt, accounts, payload).value;
    var d := UserDepositUnpack(b.Data(keys.userDeposit)).value;
    var balance := ExecutedBalance(inco, keys.incoProgram, keys.execution, d.balance, intent).value;
    UserDepositRoundTrip(UserDeposit(d.user, balance), b.Data(keys.userDeposit));
  }

  /**
   * An intent goes through exactly when the executor, signer, address and
   * payload checks pass, the record belongs to the named user, the coprocessor
   * accepts every step, and the vault holds the amount.
   */
  lemma ExecuteSucceeds(b: Bank, rt: Runtime, inco: Coprocessor, accounts: seq<AccountMeta>, payload: seq<Byte>)
    ensures ExecuteSpec(b, rt, inco, accounts, payload).Ok? <==>
              && ExecutePreflight(b, rt, accounts, payload).Ok?
              && var keys, intent := ExecutePreflight(b, rt, accounts, payload).value.0, ExecutePreflight(b, rt, accounts, payload).value.1;
                 var record := UserDepositUnpack(b.Data(keys.userDeposit));
                 && record.Ok? && record.value.user == keys.user
                 && ExecutedBalance(inco, keys.incoProgram, keys.execution, record.value.balance, intent).Ok?
                 && b.Lamports(keys.vault) >= intent.amount
  {
  }

  // ===== process_instruction =====

  /** `process_instruction`: route on the first byte and hand the rest to the handler. */
  function ProcessSpec(b: Bank, rt: Runtime, inco: Coprocessor, incoProgram: Pubkey,
                       accounts: seq<AccountMeta>, data: seq<Byte>)
    : Result<Bank, ProgramError>
  {
    var (ix, payload) :- DecodeInstruction(data);
    match ix
    case Initialize => InitializeSpec(b, rt, accounts, payload)
    case Deposit => DepositSpec(b, rt, inco, accounts, payload)
    case Withdraw => WithdrawSpec(b, rt, inco, incoProgram, accounts, payload)
    case ExecuteWithIntent => ExecuteSpec(b, rt, inco, accounts, payload)
  }

  /** Each tag reaches its own handler with the bytes after the tag; anything else is refused. */
  lemma ProcessRoutes(b: Bank, rt: Runtime, inco: Coprocessor, incoProgram: Pubkey,
                      accounts: seq<AccountMeta>, payload: seq<Byte>)
    ensures ProcessSpec(b, rt, inco, incoProgram, accounts, [Tag(Instruction.Initialize)] + payload)
            == InitializeSpec(b, rt, accounts, payload)
    ensures ProcessSpec(b, rt, inco, incoProgram, accounts, [Tag(Instruction.Deposit)] + payload)
            == DepositSpec(b, rt, inco, accounts, payload)
    ensures ProcessSpec(b, rt, inco, incoProgram, accounts, [Tag(Instruction.Withdraw)] + payload)
            == WithdrawSpec(b, rt, inco, incoProgram, accounts, payload)
    ensures ProcessSpec(b, rt, inco, incoProgram, accounts, [Tag(Instruction.ExecuteWithIntent)] + payload)
            == ExecuteSpec(b, rt, inco, accounts, payload)
    ensures forall t: Byte :: t > 3 ==>
              ProcessSpec(b, rt, inco, incoProgram, accounts, [t] + payload) == Err(InvalidInstructionData)
    ensures ProcessSpec(b, rt, inco, incoProgram, accounts, []) == Err(InvalidInstructionData)
  {
    DecodeTagged(Instruction.Initialize, payload);
    DecodeTagged(Instruction.Deposit, payload);
    DecodeTagged(Instruction.Withdraw, payload);
    DecodeTagged(Instruction.ExecuteWithIntent, payload);
  }

  /**
   * The runtime's view of one instruction: on success the ledger holds what
   * the handler left; on any error every account is as it was before.
   */
  method ProcessInstruction(ledger: Ledger, rt: Runtime, inco: Coprocessor, incoProgram: Pubkey,
                            accounts: seq<AccountMeta>, data: seq<Byte>)
    returns (r: Result<Unit, ProgramError>)
    modifies ledger
    ensures Completes(r, ledger.State(), ProcessSpec(old(ledger.State()), rt, inco, incoProgram, accounts, data))
    ensures r.Err? ==> ledger.State() == old(ledger.State())
  {
    var snapshot := ledger.State();
    var decoded := DecodeInstruction(data);
    if decoded.Err? {
      return Err(decoded.error);
    }
    var (ix, payload) := decoded.value;
    match ix {
      case Initialize => r := Initialize(ledger, rt, accounts, payload);
      case Deposit => r := Deposit(ledger, rt, inco, accounts, payload);
      case Withdraw => r := Withdraw(ledger, rt, inco, incoProgram, accounts, payload);
      case ExecuteWithIntent => r := ExecuteWithIntent(ledger, rt, inco, accounts, payload);
    }
    if r.Err? {
      ledger.Restore(snapshot);
    }
  }
}
