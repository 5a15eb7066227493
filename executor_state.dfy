/**
 * The executor program's persistent records and their fixed layouts:
 *   Executor    = execution_account(32) | authority(32) | is_initialized(1)   (65 bytes)
 *   UserDeposit = user(32) | balance handle (u128 little-endian, 16)          (48 bytes)
 * `pack_into_slice` writes into the front of an account buffer in place and
 * does nothing when the buffer is too short; `unpack_from_slice` reads the
 * front of a buffer; `unpack` is `Pack`'s provided method, which also
 * demands the exact length and an initialised record.
 */
module ExecutorState {
  import opened Wrappers
  import opened Bytes
  import opened Solana

  datatype Executor = Executor(executionAccount: Pubkey, authority: Pubkey, isInitialized: bool)

  datatype UserDeposit = UserDeposit(user: Pubkey, balance: U128)

  const EXECUTOR_LEN: nat := 65
  const USER_DEPOSIT_LEN: nat := 48

  // ----- Executor -----

  function FlagByte(b: bool): Byte {
    if b then 1 else 0
  }

  /** The buffer after `pack_into_slice(dst)`. */
  function ExecutorPackedInto(e: Executor, dst: seq<Byte>): (r: seq<Byte>)
    ensures |r| == |dst|
    ensures |dst| < EXECUTOR_LEN ==> r == dst
    ensures |dst| >= EXECUTOR_LEN ==>
              r[..32] == e.executionAccount && r[32..64] == e.authority
              && r[64] == FlagByte(e.isInitialized)
    ensures |dst| >= EXECUTOR_LEN ==> r[EXECUTOR_LEN..] == dst[EXECUTOR_LEN..]
  {
    if |dst| < EXECUTOR_LEN then dst
    else e.executionAccount + e.authority + [FlagByte(e.isInitialized)] + dst[EXECUTOR_LEN..]
  }

  /** `Executor::unpack_from_slice`. The flag reads as true only for byte value 1. */
  function ExecutorUnpackFromSlice(src: seq<Byte>): (r: Result<Executor, ProgramError>)
    ensures r.Err? <==> |src| < EXECUTOR_LEN
    ensures r.Err? ==> r.error == InvalidAccountData
    ensures r.Ok? ==> r.value.executionAccount == src[..32] && r.value.authority == src[32..64]
                      && (r.value.isInitialized <==> src[64] == 1)
  {
    if |src| < EXECUTOR_LEN then Err(InvalidAccountData)
    else Ok(Executor(src[..32], src[32..64], src[64] == 1))
  }

  /** `Pack::unpack` for `Executor`: exact length, then `is_initialized`. */
  function ExecutorUnpack(src: seq<Byte>): (r: Result<Executor, ProgramError>)
    ensures |src| != EXECUTOR_LEN ==> r == Err(InvalidAccountData)
    ensures |src| == EXECUTOR_LEN && src[64] != 1 ==> r == Err(UninitializedAccount)
    ensures |src| == EXECUTOR_LEN && src[64] == 1 ==> r == ExecutorUnpackFromSlice(src)
    ensures r.Ok? ==> r == ExecutorUnpackFromSlice(src) && r.value.isInitialized
  {
    if |src| != EXECUTOR_LEN then Err(InvalidAccountData)
    else
      var e := ExecutorUnpackFromSlice(src).value;
      if e.isInitialized then Ok(e) else Err(UninitializedAccount)
  }

  /** Packing into a buffer of at least 65 bytes and unpacking gives the record back. */
  lemma ExecutorRoundTrip(e: Executor, dst: seq<Byte>)
    requires |dst| >= EXECUTOR_LEN
    ensures ExecutorUnpackFromSlice(ExecutorPackedInto(e, dst)) == Ok(e)
  {
  }

  /** `unpack` of an initialised record packed into a 65-byte buffer gives the record back. */
  lemma ExecutorUnpackPacked(e: Executor, dst: seq<Byte>)
    requires |dst| == EXECUTOR_LEN && e.isInitialized
    ensures ExecutorUnpack(ExecutorPackedInto(e, dst)) == Ok(e)
  {
    ExecutorRoundTrip(e, dst);
  }

  /** The bytes a record occupies are determined by the record alone. */
  lemma ExecutorPackIgnoresOldBytes(e: Executor, d1: seq<Byte>, d2: seq<Byte>)
    requires |d1| == |d2| >= EXECUTOR_LEN
    requires d1[EXECUTOR_LEN..] == d2[EXECUTOR_LEN..]
    ensures ExecutorPackedInto(e, d1) == ExecutorPackedInto(e, d2)
  {
  }

  /** `pack_into_slice`, in place on the account buffer. */
  method ExecutorPackIntoSlice(e: Executor, dst: array<Byte>)
    modifies dst
    ensures dst[..] == ExecutorPackedInto(e, old(dst[..]))
  {
    if dst.Length < EXECUTOR_LEN {
      return;
    }
    forall i | 0 <= i < 32 {
      dst[i] := e.executionAccount[i];
    }
    forall i | 32 <= i < 64 {
      dst[i] := e.authority[i - 32];
    }
    dst[64] := FlagByte(e.isInitialized);
    assert dst[..] == e.executionAccount + e.authority + [FlagByte(e.isInitialized)] + old(dst[..])[EXECUTOR_LEN..];
  }

  // ----- UserDeposit -----

  /** `UserDeposit::is_initialized`: a non-zero balance handle or a non-default owner. */
  predicate UserDepositIsInitialized(d: UserDeposit) {
    d.balance > 0 || d.user != DEFAULT_PUBKEY
  }

  /** The buffer after `pack_into_slice(dst)`. */
  function UserDepositPackedInto(d: UserDeposit, dst: seq<Byte>): (r: seq<Byte>)
    ensures |r| == |dst|
    ensures |dst| < USER_DEPOSIT_LEN ==> r == dst
    ensures |dst| >= USER_DEPOSIT_LEN ==>
              r[..32] == d.user && r[32..48] == LeEncode(d.balance, 16)
    ensures |dst| >= USER_DEPOSIT_LEN ==> r[USER_DEPOSIT_LEN..] == dst[USER_DEPOSIT_LEN..]
  {
    if |dst| < USER_DEPOSIT_LEN then dst
    else d.user + LeEncode(d.balance, 16) + dst[USER_DEPOSIT_LEN..]
  }

  /** `UserDeposit::unpack_from_slice`. */
  function UserDepositUnpackFromSlice(src: seq<Byte>): (r: Result<UserDeposit, ProgramError>)
    ensures r.Err? <==> |src| < USER_DEPOSIT_LEN
    ensures r.Err? ==> r.error == InvalidAccountData
    ensures r.Ok? ==> r.value.user == src[..32] && LeEncode(r.value.balance, 16) == src[32..48]
  {
    if |src| < USER_DEPOSIT_LEN then Err(InvalidAccountData)
    else Ok(UserDeposit(src[..32], U128Le(src[32..48])))
  }

  /** `Pack::unpack` for `UserDeposit`: exact length, then `is_initialized`. */
  function UserDepositUnpack(src: seq<Byte>): (r: Result<UserDeposit, ProgramError>)
    ensures |src| != USER_DEPOSIT_LEN ==> r == Err(InvalidAccountData)
    ensures |src| == USER_DEPOSIT_LEN ==>
              (r.Err? <==> !UserDepositIsInitialized(UserDepositUnpackFromSlice(src).value))
    ensures r.Err? && |src| == USER_DEPOSIT_LEN ==> r.error == UninitializedAccount
    ensures r.Ok? ==> r == UserDepositUnpackFromSlice(src) && UserDepositIsInitialized(r.value)
  {
    if |src| != USER_DEPOSIT_LEN then Err(InvalidAccountData)
    else
      var d := UserDepositUnpackFromSlice(src).value;
      if UserDepositIsInitialized(d) then Ok(d) else Err(UninitializedAccount)
  }

  /** A 48-byte buffer is an uninitialised record exactly when every byte is zero. */
  lemma UserDepositUninitializedIsZero(src: seq<Byte>)
    requires |src| == USER_DEPOSIT_LEN
    ensures UserDepositUnpack(src) == Err(UninitializedAccount) <==> src == Zeros(USER_DEPOSIT_LEN)
  {
    var d := UserDepositUnpackFromSlice(src).value;
    if !UserDepositIsInitialized(d) {
      ZeroHandle(src[32..48]);
      assert src == DEFAULT_PUBKEY + Zeros(16);
    }
    if src == Zeros(USER_DEPOSIT_LEN) {
      assert src[32..48] == Zeros(16);
      LeDecodeZeros(16);
    }
  }

  lemma ZeroHandle(s: seq<Byte>)
    requires |s| == 16 && U128Le(s) == 0
    ensures s == Zeros(16)
  {
    LeDecodeZeros(16);
    LeDecodeInjective(s, Zeros(16));
  }

  /** Packing into a buffer of at least 48 bytes and unpacking gives the record back. */
  lemma UserDepositRoundTrip(d: UserDeposit, dst: seq<Byte>)
    requires |dst| >= USER_DEPOSIT_LEN
    ensures UserDepositUnpackFromSlice(UserDepositPackedInto(d, dst)) == Ok(d)
  {
    var r := UserDepositPackedInto(d, dst);
    U128RoundTrip(d.balance);
    assert r[32..48] == LeEncode(d.balance, 16);
  }

  /** `Pack::unpack` of a packed 48-byte buffer gives back every initialised record. */
  lemma UserDepositUnpackPacked(d: UserDeposit, dst: seq<Byte>)
    requires |dst| == USER_DEPOSIT_LEN && UserDepositIsInitialized(d)
    ensures UserDepositUnpack(UserDepositPackedInto(d, dst)) == Ok(d)
  {
    UserDepositRoundTrip(d, dst);
  }

  /** `pack_into_slice`, in place on the account buffer. */
  method UserDepositPackIntoSlice(d: UserDeposit, dst: array<Byte>)
    modifies dst
    ensures dst[..] == UserDepositPackedInto(d, old(dst[..]))
  {
    if dst.Length < USER_DEPOSIT_LEN {
      return;
    }
    var balance := LeEncode(d.balance, 16);
    forall i | 0 <= i < 32 {
      dst[i] := d.user[i];
    }
    forall i | 32 <= i < 48 {
      dst[i] := balance[i - 32];
    }
    assert dst[..] == d.user + balance + old(dst[..])[USER_DEPOSIT_LEN..];
  }
}
