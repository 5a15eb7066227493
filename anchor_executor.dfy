/**
 * The Anchor variant of the executor: the same vault with a plaintext `u64`
 * balance per user and checked arithmetic.
 *
 * Anchor's account records are objects whose fields the handlers assign in
 * place. What the account constraints guarantee (derived addresses, signer
 * present, `init` / `init_if_needed` allocating a zeroed record) is taken as
 * given: the handlers receive the records those constraints select.
 */
module AnchorExecutor {
  import opened Wrappers
  import opened Bytes
  import Solana

  /** The program's own error codes. */
  datatype ErrorCode =
    | InvalidAmount
    | ArithmeticOverflow
    | UnauthorizedUser
    | InsufficientFunds
    | InvalidSignature

  /** An instruction fails with one of its own codes or with the error of a system-program call. */
  datatype Failure = Code(code: ErrorCode) | Cpi(error: Solana.ProgramError)

  /** The 64-byte signature argument of `execute_with_intent`. */
  type Signature = s: seq<Byte> | |s| == 64 witness Zeros(64)

  /** `Executor` account; `init` allocates it zeroed. */
  class Executor {
    var executionAccount: Pubkey
    var authority: Pubkey
    var bump: Byte

    constructor ()
      ensures executionAccount == DEFAULT_PUBKEY && authority == DEFAULT_PUBKEY && bump == 0
    {
      executionAccount := DEFAULT_PUBKEY;
      authority := DEFAULT_PUBKEY;
      bump := 0;
    }
  }

  /** `UserDeposit` account; `init_if_needed` allocates it zeroed on first use. */
  class UserDeposit {
    var user: Pubkey
    var balance: U64

    constructor ()
      ensures user == DEFAULT_PUBKEY && balance == 0
    {
      user := DEFAULT_PUBKEY;
      balance := 0;
    }
  }

  /** A system-owned account (the vault, a user): an address and its lamports. */
  class SystemAccount {
    const key: Pubkey
    var lamports: nat

    constructor (key: Pubkey, lamports: nat)
      ensures this.key == key && this.lamports == lamports
    {
      this.key := key;
      this.lamports := lamports;
    }
  }

  /** `u64::checked_add`, with `None` reported as `ArithmeticOverflow`. */
  function CheckedAdd(a: U64, b: U64): (r: Result<U64, ErrorCode>)
    ensures r.Ok? <==> a + b <= U64_MAX
    ensures r.Ok? ==> r.value - b == a
    ensures r.Err? ==> r.error == ArithmeticOverflow
  {
    if a + b <= U64_MAX then Ok(a + b) else Err(ArithmeticOverflow)
  }

  /** `u64::checked_sub`, with `None` reported as `ArithmeticOverflow`. */
  function CheckedSub(a: U64, b: U64): (r: Result<U64, ErrorCode>)
    ensures r.Ok? <==> b <= a
    ensures r.Ok? ==> r.value + b == a
    ensures r.Err? ==> r.error == ArithmeticOverflow
  {
    if b <= a then Ok(a - b) else Err(ArithmeticOverflow)
  }

  /** Adding then subtracting the same amount gives back the balance. */
  lemma AddThenSubRestores(balance: U64, amount: U64)
    requires CheckedAdd(balance, amount).Ok?
    ensures CheckedAdd(balance, amount).value >= amount
    ensures CheckedSub(CheckedAdd(balance, amount).value, amount) == Ok(balance)
  {
  }

  /** `require!(!signature.is_empty(), InvalidSignature)`. */
  function SignatureCheck(signature: seq<Byte>): (r: Result<Unit, ErrorCode>)
    ensures r.Err? <==> |signature| == 0
    ensures r.Err? ==> r.error == InvalidSignature
  {
    if |signature| == 0 then Err(InvalidSignature) else Ok(Unit)
  }

  /** The signature argument is a fixed 64-byte array, so the check never refuses it. */
  lemma SignatureCheckNeverFails(signature: Signature)
    ensures SignatureCheck(signature) == Ok(Unit)
  {
  }

  /**
   * `system_program::transfer`: fails, changing nothing, when `from` holds
   * less than `amount`; one account passed as both ends keeps its lamports.
   */
  method SystemTransfer(from: SystemAccount, to: SystemAccount, amount: nat) returns (r: Result<Unit, Failure>)
    modifies from, to
    ensures r.Err? <==> old(from.lamports) < amount
    ensures r.Err? ==> r.error == Cpi(Solana.RESULT_WITH_NEGATIVE_LAMPORTS)
    ensures r.Err? || from == to ==> from.lamports == old(from.lamports) && to.lamports == old(to.lamports)
    ensures from.lamports + to.lamports == old(from.lamports) + old(to.lamports)
    ensures r.Ok? && from != to ==>
              from.lamports == old(from.lamports) - amount && to.lamports == old(to.lamports) + amount
  {
    if from.lamports < amount {
      return Err(Cpi(Solana.RESULT_WITH_NEGATIVE_LAMPORTS));
    }
    from.lamports := from.lamports - amount;
    to.lamports := to.lamports + amount;
    return Ok(Unit);
  }

  /** `initialize`: record the execution account, the signing authority and the derived bump. */
  method Initialize(executor: Executor, authority: SystemAccount, bump: Byte, executionAccount: Pubkey)
    modifies executor
    ensures executor.executionAccount == executionAccount
    ensures executor.authority == authority.key
    ensures executor.bump == bump
  {
    executor.executionAccount := executionAccount;
    executor.authority := authority.key;
    executor.bump := bump;
  }

  /**
   * `deposit` as the handler runs it: refuse a zero amount, move `amount`
   * lamports from the user to the vault, make the signer the owner and add
   * `amount` to the balance. A failing step leaves the earlier steps' writes
   * in place; `DepositInstruction` discards them.
   */
  method Deposit(vault: SystemAccount, user: SystemAccount, userDeposit: UserDeposit, amount: U64)
    returns (r: Result<Unit, Failure>)
    modifies vault, user, userDeposit
    ensures amount == 0 ==> r == Err(Code(InvalidAmount))
    ensures amount > 0 && old(user.lamports) < amount ==> r == Err(Cpi(Solana.RESULT_WITH_NEGATIVE_LAMPORTS))
    ensures amount > 0 && old(user.lamports) >= amount && old(userDeposit.balance) + amount > U64_MAX
            ==> r == Err(Code(ArithmeticOverflow))
    ensures r.Ok? <==> amount > 0 && old(user.lamports) >= amount && old(userDeposit.balance) + amount <= U64_MAX
    ensures amount == 0 || old(user.lamports) < amount ==>
              vault.lamports == old(vault.lamports) && user.lamports == old(user.lamports)
              && userDeposit.user == old(userDeposit.user)
    ensures r.Err? ==> userDeposit.balance == old(userDeposit.balance)
    ensures vault.lamports + user.lamports == old(vault.lamports) + old(user.lamports)
    ensures r.Ok? ==>
              && userDeposit.user == user.key
              && userDeposit.balance == old(userDeposit.balance) + amount
              && (vault != user ==> vault.lamports == old(vault.lamports) + amount
                                    && user.lamports == old(user.lamports) - amount)
  {
    if amount == 0 {
      return Err(Code(InvalidAmount));
    }
    r := SystemTransfer(user, vault, amount);
    if r.Err? {
      return;
    }
    userDeposit.user := user.key;
    var sum := CheckedAdd(userDeposit.balance, amount);
    if sum.Err? {
      return Err(Code(sum.error));
    }
    userDeposit.balance := sum.value;
  }

  /**
   * `deposit` as one instruction: the handler's writes survive only when it
   * succeeds.
   */
  method DepositInstruction(vault: SystemAccount, user: SystemAccount, userDeposit: UserDeposit, amount: U64)
    returns (r: Result<Unit, Failure>)
    modifies vault, user, userDeposit
    ensures r.Ok? <==> amount > 0 && old(user.lamports) >= amount && old(userDeposit.balance) + amount <= U64_MAX
    ensures r.Err? ==>
              vault.lamports == old(vault.lamports) && user.lamports == old(user.lamports)
              && userDeposit.user == old(userDeposit.user) && userDeposit.balance == old(userDeposit.balance)
    ensures vault.lamports + user.lamports == old(vault.lamports) + old(user.lamports)
    ensures r.Ok? ==>
              && userDeposit.user == user.key
              && userDeposit.balance == old(userDeposit.balance) + amount
              && (vault != user ==> vault.lamports == old(vault.lamports) + amount
                                    && user.lamports == old(user.lamports) - amount)
  {
    var vaultLamports, userLamports := vault.lamports, user.lamports;
    var owner := userDeposit.user;
    r := Deposit(vault, user, userDeposit, amount);
    if r.Err? {
      vault.lamports, user.lamports := vaultLamports, userLamports;
      userDeposit.user := owner;
    }
  }

  /**
   * `withdraw` as the handler runs it: only the owner may withdraw, and no
   * more than the balance; the balance is reduced, then the vault pays the
   * user through the system program.
   */
  method Withdraw(vault: SystemAccount, user: SystemAccount, userDeposit: UserDeposit, amount: U64)
    returns (r: Result<Unit, Failure>)
    modifies vault, user, userDeposit
    ensures old(userDeposit.user) != user.key ==> r == Err(Code(UnauthorizedUser))
    ensures old(userDeposit.user) == user.key && old(userDeposit.balance) < amount ==> r == Err(Code(InsufficientFunds))
    ensures old(userDeposit.user) == user.key && old(userDeposit.balance) >= amount && old(vault.lamports) < amount
            ==> r == Err(Cpi(Solana.RESULT_WITH_NEGATIVE_LAMPORTS))
    ensures r.Ok? <==> old(userDeposit.user) == user.key && old(userDeposit.balance) >= amount && old(vault.lamports) >= amount
    ensures userDeposit.user == old(userDeposit.user)
    ensures r.Err? ==> vault.lamports == old(vault.lamports) && user.lamports == old(user.lamports)
    ensures old(userDeposit.user) != user.key || old(userDeposit.balance) < amount ==>
              userDeposit.balance == old(userDeposit.balance)
    ensures vault.lamports + user.lamports == old(vault.lamports) + old(user.lamports)
    ensures r.Ok? ==>
              && userDeposit.balance == old(userDeposit.balance) - amount
              && (vault != user ==> vault.lamports == old(vault.lamports) - amount
                                    && user.lamports == old(user.lamports) + amount)
  {
    if userDeposit.user != user.key {
      return Err(Code(UnauthorizedUser));
    }
    if userDeposit.balance < amount {
      return Err(Code(InsufficientFunds));
    }
    var rest := CheckedSub(userDeposit.balance, amount);
    // `checked_sub` cannot fail here: the balance covers `amount`.
    assert rest.Ok?;
    userDeposit.balance := rest.value;
    r := SystemTransfer(vault, user, amount);
  }

  /** `withdraw` as one instruction: the handler's writes survive only when it succeeds. */
  method WithdrawInstruction(vault: SystemAccount, user: SystemAccount, userDeposit: UserDeposit, amount: U64)
    returns (r: Result<Unit, Failure>)
    modifies vault, user, userDeposit
    ensures r.Ok? <==> old(userDeposit.user) == user.key && old(userDeposit.balance) >= amount && old(vault.lamports) >= amount
    ensures old(userDeposit.user) != user.key ==> r == Err(Code(UnauthorizedUser))
    ensures old(userDeposit.user) == user.key && old(userDeposit.balance) < amount ==> r == Err(Code(InsufficientFunds))
    ensures userDeposit.user == old(userDeposit.user)
    ensures r.Err? ==>
              vault.lamports == old(vault.lamports) && user.lamports == old(user.lamports)
              && userDeposit.balance == old(userDeposit.balance)
    ensures vault.lamports + user.lamports == old(vault.lamports) + old(user.lamports)
    ensures r.Ok? ==>
              && userDeposit.balance == old(userDeposit.balance) - amount
              && (vault != user ==> vault.lamports == old(vault.lamports) - amount
                                    && user.lamports == old(user.lamports) + amount)
  {
    var balance := userDeposit.balance;
    r := Withdraw(vault, user, userDeposit, amount);
    if r.Err? {
      userDeposit.balance := balance;
    }
  }

  /**
   * `execute_with_intent`: the named user (who need not sign) must own the
   * record and the balance must cover the amount, which is then deducted.
   * No lamports move.
   */
  method ExecuteWithIntent(user: Pubkey, userDeposit: UserDeposit, intentHash: Hash32, signature: Signature,
                           executionAmount: U64)
    returns (r: Result<Unit, Failure>)
    modifies userDeposit
    ensures r.Ok? <==> old(userDeposit.user) == user && old(userDeposit.balance) >= executionAmount
    ensures old(userDeposit.user) != user ==> r == Err(Code(UnauthorizedUser))
    ensures old(userDeposit.user) == user && old(userDeposit.balance) < executionAmount ==> r == Err(Code(InsufficientFunds))
    ensures userDeposit.user == old(userDeposit.user)
    ensures r.Err? ==> userDeposit.balance == old(userDeposit.balance)
    ensures r.Ok? ==> userDeposit.balance == old(userDeposit.balance) - executionAmount
  {
    var present := SignatureCheck(signature);
    // A 64-byte array is never empty, so `InvalidSignature` is never returned.
    assert present.Ok?;
    if userDeposit.user != user {
      return Err(Code(UnauthorizedUser));
    }
    if userDeposit.balance < executionAmount {
      return Err(Code(InsufficientFunds));
    }
    var rest := CheckedSub(userDeposit.balance, executionAmount);
    assert rest.Ok?;
    userDeposit.balance := rest.value;
    return Ok(Unit);
  }

  /**
   * A client depositing `amount` and then withdrawing it again: when the
   * deposit goes through, so does the withdrawal, and the record's balance
   * and both lamport balances end where they started.
   */
  method DepositThenWithdraw(vault: SystemAccount, user: SystemAccount, userDeposit: UserDeposit, amount: U64)
    returns (r: Result<Unit, Failure>)
    modifies vault, user, userDeposit
    ensures r.Ok? <==> amount > 0 && old(user.lamports) >= amount && old(userDeposit.balance) + amount <= U64_MAX
    ensures r.Ok? ==> userDeposit.user == user.key
    ensures userDeposit.balance == old(userDeposit.balance)
    ensures vault.lamports == old(vault.lamports) && user.lamports == old(user.lamports)
  {
    r := DepositInstruction(vault, user, userDeposit, amount);
    if r.Err? {
      return;
    }
    r := WithdrawInstruction(vault, user, userDeposit, amount);
  }

  /**
   * A vault's life on fresh accounts: a user holding 5000 lamports deposits
   * 1000, withdraws 400 and spends the remaining 600 through an intent; a
   * further intent for 1 is refused. The intent moves no lamports, so the
   * vault keeps the 600.
   */
  method Walkthrough(user: Pubkey, vaultKey: Pubkey, intentHash: Hash32, signature: Signature)
    returns (steps: seq<Result<Unit, Failure>>, balance: U64, vaultLamports: nat, userLamports: nat)
    ensures |steps| == 4 && steps[0].Ok? && steps[1].Ok? && steps[2].Ok?
    ensures steps[3] == Err(Code(InsufficientFunds))
    ensures balance == 0 && vaultLamports == 600 && userLamports == 4400
  {
    var vault := new SystemAccount(vaultKey, 0);
    var payer := new SystemAccount(user, 5000);
    var record := new UserDeposit();
    var deposited := DepositInstruction(vault, payer, record, 1000);
    var withdrawn := WithdrawInstruction(vault, payer, record, 400);
    var spent := ExecuteWithIntent(user, record, intentHash, signature, 600);
    var refused := ExecuteWithIntent(user, record, intentHash, signature, 1);
    steps := [deposited, withdrawn, spent, refused];
    balance, vaultLamports, userLamports := record.balance, vault.lamports, payer.lamports;
  }
}
