/**
 * The bridge to the Inco Lightning coprocessor. Encrypted values are opaque
 * `u128` handles; every operation is a cross-program invocation whose answer
 * comes back as return data. The coprocessor itself is an oracle: a function
 * from (program account, signing account, call) to its reply.
 */
module Inco {
  import opened Wrappers
  import opened Bytes
  import opened Solana

  /** The calls the executor makes; each `inco_*` builder sends one of these. */
  datatype IncoCall =
    | NewEuint128(ciphertext: seq<Byte>, inputType: Byte)
    | AsEuint128(value: U128)
    | EAdd(lhs: U128, rhs: U128)
    | ESub(lhs: U128, rhs: U128)
    | EGe(lhs: U128, rhs: U128)
    | EEq(lhs: U128, rhs: U128)

  /** What an invocation yields: the callee's error, or the return data left behind (if any). */
  datatype Reply = Failed(error: ProgramError) | Returned(returnData: Option<seq<Byte>>)

  /** The coprocessor: (Inco program account key, signer key, call) to reply. */
  type Coprocessor = (Pubkey, Pubkey, IncoCall) -> Reply

  const HANDLE_LEN := 16

  /**
   * `inco_return_u128`: absent or short return data is `InvalidAccountData`;
   * otherwise the little-endian `u128` of the first 16 bytes.
   */
  function ReturnU128(returnData: Option<seq<Byte>>): (r: Result<U128, ProgramError>)
    ensures r.Err? <==> returnData.None? || |returnData.value| < HANDLE_LEN
    ensures r.Err? ==> r.error == InvalidAccountData
    ensures r.Ok? ==> LeEncode(r.value, HANDLE_LEN) == returnData.value[..HANDLE_LEN]
  {
    match returnData
    case None => Err(InvalidAccountData)
    case Some(bytes) =>
      if |bytes| < HANDLE_LEN then Err(InvalidAccountData) else Ok(U128Le(bytes[..HANDLE_LEN]))
  }

  /** Bytes after the first sixteen never change the decoded handle. */
  lemma ReturnU128IgnoresTrailing(bytes: seq<Byte>, trailing: seq<Byte>)
    requires |bytes| == HANDLE_LEN
    ensures ReturnU128(Some(bytes + trailing)) == ReturnU128(Some(bytes)) == Ok(U128Le(bytes))
  {
    assert (bytes + trailing)[..HANDLE_LEN] == bytes;
    assert bytes[..HANDLE_LEN] == bytes;
  }

  /** A handle the coprocessor returned as `u128::to_le_bytes` decodes to itself. */
  lemma ReturnU128OfHandle(h: U128, trailing: seq<Byte>)
    ensures ReturnU128(Some(LeEncode(h, HANDLE_LEN) + trailing)) == Ok(h)
  {
    ReturnU128IgnoresTrailing(LeEncode(h, HANDLE_LEN), trailing);
    U128RoundTrip(h);
  }

  /**
   * `invoke` of one coprocessor call followed by `inco_return_u128`: a handle
   * comes back exactly when the call succeeds and leaves at least 16 bytes of
   * return data, and it is those bytes read little-endian.
   */
  function Invoke(inco: Coprocessor, program: Pubkey, signer: Pubkey, call: IncoCall): (r: Result<U128, ProgramError>)
    ensures var reply := inco(program, signer, call);
            r.Ok? <==> reply.Returned? && reply.returnData.Some? && |reply.returnData.value| >= HANDLE_LEN
    ensures var reply := inco(program, signer, call);
            r.Ok? ==> LeEncode(r.value, HANDLE_LEN) == reply.returnData.value[..HANDLE_LEN]
    ensures inco(program, signer, call).Failed? ==> r == Err(inco(program, signer, call).error)
    ensures inco(program, signer, call).Returned? && r.Err? ==> r.error == InvalidAccountData
  {
    match inco(program, signer, call)
    case Failed(e) => Err(e)
    case Returned(rd) => ReturnU128(rd)
  }

  /** The only decoding the executor applies to a returned handle: zero is false. */
  predicate IsTrue(h: U128) {
    h != 0
  }
}
