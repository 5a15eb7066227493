/**
 * The test counter program: an 8-byte little-endian `u64` at the front of the
 * "counter" account's data, set to 0 by `initialize`, raised by one by
 * `increment` (refusing to wrap) and read by `get_value`.
 */
module CounterProgram {
  import opened Wrappers
  import opened Bytes
  import opened Solana
  import opened CounterInstructions

  /** b"counter" */
  const COUNTER_SEED: seq<Byte> := [99, 111, 117, 110, 116, 101, 114]
  const COUNTER_LEN: nat := 8

  function CounterAddress(rt: Runtime): Pubkey {
    rt.pda([COUNTER_SEED])
  }

  /** The counter in a data buffer; a buffer shorter than 8 bytes holds none. */
  function ReadCounter(data: seq<Byte>): (r: Result<U64, ProgramError>)
    ensures r.Err? <==> |data| < COUNTER_LEN
    ensures r.Err? ==> r.error == InvalidAccountData
    ensures r.Ok? ==> LeEncode(r.value, 8) == data[..8]
  {
    if |data| < COUNTER_LEN then Err(InvalidAccountData) else Ok(U64Le(data[..8]))
  }

  /** `data[0..8].copy_from_slice(&value.to_le_bytes())`. */
  function WriteCounter(data: seq<Byte>, value: U64): (r: seq<Byte>)
    requires |data| >= COUNTER_LEN
    ensures |r| == |data| && r[COUNTER_LEN..] == data[COUNTER_LEN..]
    ensures ReadCounter(r) == Ok(value)
  {
    var r := LeEncode(value, 8) + data[8..];
    assert r[..8] == LeEncode(value, 8);
    LeDecodeEncode(value, 8);
    r
  }

  /** Writing back the value a buffer already holds leaves it as it was. */
  lemma WriteCounterSame(data: seq<Byte>)
    requires |data| >= COUNTER_LEN
    ensures WriteCounter(data, ReadCounter(data).value) == data
  {
    assert data == data[..8] + data[8..];
  }

  /**
   * The buffer after `increment`: the stored value plus one, or
   * `ArithmeticOverflow` at `u64::MAX`; bytes after the counter are kept.
   */
  function IncrementedData(data: seq<Byte>): (r: Result<seq<Byte>, ProgramError>)
    ensures ReadCounter(data).Err? ==> r == Err(InvalidAccountData)
    ensures ReadCounter(data).Ok? && ReadCounter(data).value == U64_MAX ==> r == Err(ArithmeticOverflow)
    ensures ReadCounter(data).Ok? && ReadCounter(data).value < U64_MAX ==>
              && r.Ok? && |r.value| == |data|
              && ReadCounter(r.value) == Ok(ReadCounter(data).value + 1)
              && r.value[COUNTER_LEN..] == data[COUNTER_LEN..]
  {
    var value :- ReadCounter(data);
    if value == U64_MAX then Err(ArithmeticOverflow)
    else Ok(WriteCounter(data, value + 1))
  }

  /** `k` successive increments of a buffer. */
  function Increments(data: seq<Byte>, k: nat): Result<seq<Byte>, ProgramError> {
    if k == 0 then Ok(data)
    else
      var before :- Increments(data, k - 1);
      IncrementedData(before)
  }

  /** `k` increments from value `v` read `v + k`, as long as that fits in a `u64`. */
  lemma {:induction false} IncrementsCount(data: seq<Byte>, k: nat)
    requires ReadCounter(data).Ok? && ReadCounter(data).value + k <= U64_MAX
    ensures Increments(data, k).Ok?
    ensures ReadCounter(Increments(data, k).value) == Ok(ReadCounter(data).value + k)
    ensures |Increments(data, k).value| == |data|
    ensures Increments(data, k).value[COUNTER_LEN..] == data[COUNTER_LEN..]
  {
    if k > 0 {
      IncrementsCount(data, k - 1);
    }
  }

  /** The same write made in place on a data buffer, one byte at a time. */
  method StoreCounter(data: array<Byte>, value: U64)
    requires data.Length >= COUNTER_LEN
    modifies data
    ensures data[..] == WriteCounter(old(data[..]), value)
  {
    var bytes := LeEncode(value, 8);
    var i := 0;
    while i < 8
      invariant 0 <= i <= 8
      invariant data[..i] == bytes[..i]
      invariant data[i..] == old(data[..])[i..]
    {
      data[i] := bytes[i];
      i := i + 1;
      assert data[..i] == data[..i - 1] + [data[i - 1]];
    }
    assert data[..] == data[..8] + data[8..];
  }

  // ===== handlers =====

  /**
   * `initialize`: the user must sign and the counter must be the "counter"
   * address; a counter holding no lamports is created (8 bytes, paid by the
   * user); then 0 is written.
   */
  function InitializeSpec(b: Bank, rt: Runtime, accounts: seq<AccountMeta>): Result<Bank, ProgramError>
  {
    var _ :- RequireAccounts(accounts, 3);
    var counter, user := accounts[0].key, accounts[1];
    if !user.isSigner then Err(MissingRequiredSignature)
    else if counter != CounterAddress(rt) then Err(InvalidAccountData)
    else
      var created :- if b.Lamports(counter) == 0
                     then b.CreateAccount(user.key, counter, rt.minimumBalance(COUNTER_LEN), COUNTER_LEN)
                     else Ok(b);
      var data := created.Data(counter);
      if |data| < COUNTER_LEN then Err(InvalidAccountData)
      else Ok(created.SetData(counter, WriteCounter(data, 0)))
  }

  /** `increment`: the first account's counter goes up by one. */
  function IncrementSpec(b: Bank, accounts: seq<AccountMeta>): Result<Bank, ProgramError>
  {
    var _ :- RequireAccounts(accounts, 1);
    var counter := accounts[0].key;
    var data :- IncrementedData(b.Data(counter));
    Ok(b.SetData(counter, data))
  }

  /** `get_value`: read the first account's counter; nothing changes. */
  function GetValueSpec(b: Bank, accounts: seq<AccountMeta>): Result<Bank, ProgramError>
  {
    var _ :- RequireAccounts(accounts, 1);
    var _ :- ReadCounter(b.Data(accounts[0].key));
    Ok(b)
  }

  /** `process_instruction`: route on the tag byte. */
  function ProcessSpec(b: Bank, rt: Runtime, accounts: seq<AccountMeta>, data: seq<Byte>): Result<Bank, ProgramError>
  {
    var command :- DecodeCommand(data);
    match command
    case Initialize => InitializeSpec(b, rt, accounts)
    case Increment => IncrementSpec(b, accounts)
    case GetValue => GetValueSpec(b, accounts)
  }

  /**
   * Every outcome of `initialize`: too few accounts, an unsigned user, a
   * counter key other than the derived address, a creation the system program
   * refuses, or an existing buffer too short to hold a counter; anything else
   * succeeds.
   */
  lemma InitializeOutcome(b: Bank, rt: Runtime, accounts: seq<AccountMeta>)
    ensures |accounts| < 3 ==> InitializeSpec(b, rt, accounts) == Err(NotEnoughAccountKeys)
    ensures |accounts| >= 3 && !accounts[1].isSigner ==> InitializeSpec(b, rt, accounts) == Err(MissingRequiredSignature)
    ensures |accounts| >= 3 && accounts[1].isSigner && accounts[0].key != CounterAddress(rt)
            ==> InitializeSpec(b, rt, accounts) == Err(InvalidAccountData)
    ensures |accounts| >= 3 && accounts[1].isSigner && accounts[0].key == CounterAddress(rt) ==>
              var counter, user, r := accounts[0].key, accounts[1].key, InitializeSpec(b, rt, accounts);
              && (b.Lamports(counter) == 0 && b.Data(counter) != [] ==> r == Err(ACCOUNT_ALREADY_IN_USE))
              && (b.Lamports(counter) == 0 && b.Data(counter) == [] ==>
                    (r.Ok? <==> b.Lamports(user) >= rt.minimumBalance(COUNTER_LEN))
                    && (r.Err? ==> r == Err(RESULT_WITH_NEGATIVE_LAMPORTS)))
              && (b.Lamports(counter) != 0 ==>
                    (r.Ok? <==> |b.Data(counter)| >= COUNTER_LEN) && (r.Err? ==> r == Err(InvalidAccountData)))
  {
  }

  /**
   * A successful `initialize` leaves the counter reading 0 with the rest of its
   * buffer kept, and touches no other buffer; a fresh counter is 8 bytes.
   */
  lemma InitializeZeroes(b: Bank, rt: Runtime, accounts: seq<AccountMeta>)
    requires InitializeSpec(b, rt, accounts).Ok?
    ensures |accounts| >= 3 && accounts[1].isSigner && accounts[0].key == CounterAddress(rt)
    ensures var b', counter := InitializeSpec(b, rt, accounts).value, accounts[0].key;
      && ReadCounter(b'.Data(counter)) == Ok(0)
      && (b.Lamports(counter) == 0 ==> b'.Data(counter) == Zeros(COUNTER_LEN))
      && (b.Lamports(counter) != 0 ==> b'.Data(counter)[COUNTER_LEN..] == b.Data(counter)[COUNTER_LEN..])
      && (forall k :: k != counter ==> b'.Data(k) == b.Data(k))
  {
    var counter := accounts[0].key;
    if b.Lamports(counter) == 0 {
      var created := b.CreateAccount(accounts[1].key, counter, rt.minimumBalance(COUNTER_LEN), COUNTER_LEN).value;
      LeDecodeZeros(8);
      LeEncodeDecode(Zeros(8));
      assert WriteCounter(created.Data(counter), 0) == Zeros(8);
    }
  }

  /**
   * `increment` on a counter holding `v`: `v + 1` when `v < u64::MAX`, with
   * only that buffer changed; `ArithmeticOverflow` at `u64::MAX`.
   */
  lemma IncrementAddsOne(b: Bank, accounts: seq<AccountMeta>)
    requires |accounts| >= 1 && ReadCounter(b.Data(accounts[0].key)).Ok?
    ensures var v := ReadCounter(b.Data(accounts[0].key)).value;
            var r := IncrementSpec(b, accounts);
      && (v == U64_MAX ==> r == Err(ArithmeticOverflow))
      && (v < U64_MAX ==>
            && r.Ok?
            && ReadCounter(r.value.Data(accounts[0].key)) == Ok(v + 1)
            && r.value.Data(accounts[0].key)[COUNTER_LEN..] == b.Data(accounts[0].key)[COUNTER_LEN..]
            && r.value.lamports == b.lamports
            && (forall k :: k != accounts[0].key ==> r.value.Data(k) == b.Data(k)))
  {
  }

  /** Each tag reaches its handler; an empty or unknown tag is refused. */
  lemma ProcessRoutes(b: Bank, rt: Runtime, accounts: seq<AccountMeta>, rest: seq<Byte>)
    ensures ProcessSpec(b, rt, accounts, [Tag(Command.Initialize)] + rest) == InitializeSpec(b, rt, accounts)
    ensures ProcessSpec(b, rt, accounts, [Tag(Command.Increment)] + rest) == IncrementSpec(b, accounts)
    ensures ProcessSpec(b, rt, accounts, [Tag(Command.GetValue)] + rest) == GetValueSpec(b, accounts)
    ensures forall t: Byte :: t > 2 ==> ProcessSpec(b, rt, accounts, [t] + rest) == Err(InvalidInstructionData)
    ensures ProcessSpec(b, rt, accounts, []) == Err(InvalidInstructionData)
  {
    DecodeTag(Command.Initialize, rest);
    DecodeTag(Command.Increment, rest);
    DecodeTag(Command.GetValue, rest);
  }

  method Initialize(ledger: Ledger, rt: Runtime, accounts: seq<AccountMeta>) returns (r: Result<Unit, ProgramError>)
    modifies ledger
    ensures Completes(r, ledger.State(), InitializeSpec(old(ledger.State()), rt, accounts))
  {
    var _ :- RequireAccounts(accounts, 3);
    var counter, user := accounts[0].key, accounts[1];
    if !user.isSigner {
      return Err(MissingRequiredSignature);
    }
    if counter != CounterAddress(rt) {
      return Err(InvalidAccountData);
    }
    if ledger.Lamports(counter) == 0 {
      var _ :- ledger.CreateAccount(user.key, counter, rt.minimumBalance(COUNTER_LEN), COUNTER_LEN);
    }
    var data := ledger.Data(counter);
    if |data| < COUNTER_LEN {
      return Err(InvalidAccountData);
    }
    ledger.WriteData(counter, WriteCounter(data, 0));
    return Ok(Unit);
  }

  method Increment(ledger: Ledger, accounts: seq<AccountMeta>) returns (r: Result<Unit, ProgramError>)
    modifies ledger
    ensures Completes(r, ledger.State(), IncrementSpec(old(ledger.State()), accounts))
    ensures r.Err? ==> ledger.State() == old(ledger.State())
  {
    var _ :- RequireAccounts(accounts, 1);
    var counter := accounts[0].key;
    var data := ledger.Data(counter);
    if |data| < COUNTER_LEN {
      return Err(InvalidAccountData);
    }
    var value := U64Le(data[..8]);
    if value == U64_MAX {
      return Err(ArithmeticOverflow);
    }
    value := value + 1;
    ledger.WriteData(counter, WriteCounter(data, value));
    return Ok(Unit);
  }

  /**
   * `get_value`: the counter the first account holds (which the program only
   * logs). The ledger is read, never written.
   */
  method GetValue(ledger: Ledger, accounts: seq<AccountMeta>) returns (r: Result<U64, ProgramError>)
    ensures |accounts| < 1 ==> r == Err(NotEnoughAccountKeys)
    ensures |accounts| >= 1 ==> r == ReadCounter(ledger.Data(accounts[0].key))
  {
    var _ :- RequireAccounts(accounts, 1);
    var data := ledger.Data(accounts[0].key);
    if |data| < COUNTER_LEN {
      return Err(InvalidAccountData);
    }
    return Ok(U64Le(data[..8]));
  }

  /** The runtime's view: on error every account is as it was. */
  method ProcessInstruction(ledger: Ledger, rt: Runtime, accounts: seq<AccountMeta>, data: seq<Byte>)
    returns (r: Result<Unit, ProgramError>)
    modifies ledger
    ensures Completes(r, ledger.State(), ProcessSpec(old(ledger.State()), rt, accounts, data))
    ensures r.Err? ==> ledger.State() == old(ledger.State())
  {
    var snapshot := ledger.State();
    var command :- DecodeCommand(data);
    match command {
      case Initialize => r := Initialize(ledger, rt, accounts);
      case Increment => r := Increment(ledger, accounts);
      case GetValue =>
        var value := GetValue(ledger, accounts);
        r := if value.Ok? then Ok(Unit) else Err(value.error);
    }
    if r.Err? {
      ledger.Restore(snapshot);
    }
  }
}
