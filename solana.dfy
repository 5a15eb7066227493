/**
 * The part of the Solana runtime the programs rely on: program errors, the
 * account list handed to an instruction, and the accounts' lamports and data.
 *
 * Accounts are identified by address. The same account passed twice in one
 * instruction is one entry here, as the runtime shares one buffer for it.
 * The system program's `create_account` and `transfer` are abstract effects
 * on this state; their failure codes follow `SystemError`.
 */
module Solana {
  import opened Wrappers
  import opened Bytes

  datatype ProgramError =
    | InvalidArgument
    | InvalidInstructionData
    | InvalidAccountData
    | InsufficientFunds
    | NotEnoughAccountKeys
    | MissingRequiredSignature
    | UninitializedAccount
    | ArithmeticOverflow
    | Custom(code: nat)
      /** The instruction aborts without returning an error value (a panic, or
          the runtime refusing the account changes the instruction made). */
    | Aborted

  /** `SystemError::AccountAlreadyInUse`. */
  const ACCOUNT_ALREADY_IN_USE := Custom(0)
  /** `SystemError::ResultWithNegativeLamports`. */
  const RESULT_WITH_NEGATIVE_LAMPORTS := Custom(1)

  /** One entry of the instruction's account list, as far as the programs look at it. */
  datatype AccountMeta = AccountMeta(key: Pubkey, isSigner: bool)

  /**
   * What the runtime supplies besides accounts: program-derived address
   * derivation for the running program (`Pubkey::find_program_address` with
   * the program id fixed) and the rent sysvar's `minimum_balance`.
   */
  datatype Runtime = Runtime(pda: seq<seq<Byte>> -> Pubkey, minimumBalance: nat -> nat)

  /** A snapshot of every account's lamports and data. Absent keys hold nothing. */
  datatype Bank = Bank(lamports: map<Pubkey, nat>, data: map<Pubkey, seq<Byte>>) {

    function Lamports(k: Pubkey): nat {
      if k in lamports then lamports[k] else 0
    }

    function Data(k: Pubkey): seq<Byte> {
      if k in data then data[k] else []
    }

    function SetLamports(k: Pubkey, n: nat): (b: Bank)
      ensures b.Lamports(k) == n && b.data == data
      ensures forall j :: j != k ==> b.Lamports(j) == Lamports(j)
    {
      Bank(lamports[k := n], data)
    }

    function SetData(k: Pubkey, d: seq<Byte>): (b: Bank)
      ensures b.Data(k) == d && b.lamports == lamports
      ensures forall j :: j != k ==> b.Data(j) == Data(j)
    {
      Bank(lamports, data[k := d])
    }

    /** `system_instruction::transfer`: fails when `from` holds less than `amount`. */
    function Transfer(from: Pubkey, to: Pubkey, amount: nat): (r: Result<Bank, ProgramError>)
      ensures r.Err? <==> Lamports(from) < amount
      ensures r.Err? ==> r.error == RESULT_WITH_NEGATIVE_LAMPORTS
      ensures r.Ok? ==> r.value.data == data
      ensures r.Ok? ==> r.value.Lamports(from) + r.value.Lamports(to) == Lamports(from) + Lamports(to)
      ensures r.Ok? && from != to ==>
                r.value.Lamports(from) == Lamports(from) - amount && r.value.Lamports(to) == Lamports(to) + amount
      ensures r.Ok? ==> forall k :: k != from && k != to ==> r.value.Lamports(k) == Lamports(k)
    {
      if Lamports(from) < amount then Err(RESULT_WITH_NEGATIVE_LAMPORTS)
      else
        var debited := SetLamports(from, Lamports(from) - amount);
        Ok(debited.SetLamports(to, debited.Lamports(to) + amount))
    }

    /**
     * `system_instruction::create_account`: `payer` funds `to` with `lamports`
     * and `to` gets `space` zero bytes. Fails when `to` is already in use or
     * `payer` cannot pay.
     */
    function CreateAccount(payer: Pubkey, to: Pubkey, lamports: nat, space: nat): (r: Result<Bank, ProgramError>)
      ensures (Lamports(to) != 0 || Data(to) != []) ==> r == Err(ACCOUNT_ALREADY_IN_USE)
      ensures Lamports(to) == 0 && Data(to) == [] ==>
                (r.Err? <==> Lamports(payer) < lamports)
      ensures Lamports(to) == 0 && Data(to) == [] && Lamports(payer) < lamports ==>
                r == Err(RESULT_WITH_NEGATIVE_LAMPORTS)
      ensures r.Ok? ==> r.value.Data(to) == Zeros(space)
      ensures r.Ok? && payer != to ==> r.value.Data(payer) == Data(payer)
      ensures r.Ok? && payer != to ==>
                r.value.Lamports(to) == lamports && r.value.Lamports(payer) == Lamports(payer) - lamports
      ensures r.Ok? ==> forall k :: k != payer && k != to ==>
                r.value.Lamports(k) == Lamports(k) && r.value.Data(k) == Data(k)
    {
      if Lamports(to) != 0 || Data(to) != [] then Err(ACCOUNT_ALREADY_IN_USE)
      else
        var funded :- Transfer(payer, to, lamports);
        Ok(funded.SetData(to, Zeros(space)))
    }
  }

  /** `accounts.len() >= n`: every `next_account_info` of the first `n` succeeds. */
  function RequireAccounts(accounts: seq<AccountMeta>, n: nat): (r: Result<Unit, ProgramError>)
    ensures r.Ok? <==> |accounts| >= n
    ensures r.Err? ==> r.error == NotEnoughAccountKeys
  {
    if |accounts| < n then Err(NotEnoughAccountKeys) else Ok(Unit)
  }

  /**
   * A handler's result and the accounts it leaves agree with the outcome its
   * specification gives: the same error, or success with exactly that state.
   */
  predicate Completes(r: Result<Unit, ProgramError>, after: Bank, spec: Result<Bank, ProgramError>) {
    match spec
    case Ok(b) => r == Ok(Unit) && after == b
    case Err(e) => r == Err(e)
  }

  /**
   * The accounts the runtime lends one instruction. Handlers change lamports
   * and data step by step; `State` is the snapshot the specifications use.
   */
  class Ledger {
    var lamports: map<Pubkey, nat>
    var data: map<Pubkey, seq<Byte>>

    constructor (b: Bank)
      ensures State() == b
    {
      lamports := b.lamports;
      data := b.data;
    }

    function State(): Bank
      reads this
    {
      Bank(lamports, data)
    }

    function Lamports(k: Pubkey): nat
      reads this
    {
      State().Lamports(k)
    }

    function Data(k: Pubkey): seq<Byte>
      reads this
    {
      State().Data(k)
    }

    method Transfer(from: Pubkey, to: Pubkey, amount: nat) returns (r: Result<Unit, ProgramError>)
      modifies this
      ensures var t := old(State()).Transfer(from, to, amount);
              (r.Ok? <==> t.Ok?) && (t.Err? ==> r.error == t.error && State() == old(State()))
              && (t.Ok? ==> State() == t.value)
    {
      if Lamports(from) < amount {
        return Err(RESULT_WITH_NEGATIVE_LAMPORTS);
      }
      lamports := lamports[from := Lamports(from) - amount];
      lamports := lamports[to := Lamports(to) + amount];
      return Ok(Unit);
    }

    method CreateAccount(payer: Pubkey, to: Pubkey, amount: nat, space: nat) returns (r: Result<Unit, ProgramError>)
      modifies this
      ensures var c := old(State()).CreateAccount(payer, to, amount, space);
              (r.Ok? <==> c.Ok?) && (c.Err? ==> r.error == c.error && State() == old(State()))
              && (c.Ok? ==> State() == c.value)
    {
      if Lamports(to) != 0 || Data(to) != [] {
        return Err(ACCOUNT_ALREADY_IN_USE);
      }
      r := Transfer(payer, to, amount);
      if r.Ok? {
        data := data[to := Zeros(space)];
      }
    }

    /** `**account.try_borrow_mut_lamports()? -= amount`, unchecked in the source. */
    method Debit(k: Pubkey, amount: nat)
      requires Lamports(k) >= amount
      modifies this
      ensures State() == old(State()).SetLamports(k, old(Lamports(k)) - amount)
    {
      lamports := lamports[k := Lamports(k) - amount];
    }

    /** `**account.try_borrow_mut_lamports()? += amount`. */
    method Credit(k: Pubkey, amount: nat)
      modifies this
      ensures State() == old(State()).SetLamports(k, old(Lamports(k)) + amount)
    {
      lamports := lamports[k := Lamports(k) + amount];
    }

    /** Overwrite the account's data buffer (its length is the caller's to keep). */
    method WriteData(k: Pubkey, d: seq<Byte>)
      modifies this
      ensures State() == old(State()).SetData(k, d)
    {
      data := data[k := d];
    }

    /** The runtime discarding every change of a failed instruction. */
    method Restore(b: Bank)
      modifies this
      ensures State() == b
    {
      lamports := b.lamports;
      data := b.data;
    }
  }
}
