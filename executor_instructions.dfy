/**
 * The executor's instruction format: a one-byte tag selects the handler and
 * the remaining bytes are its payload.
 *   initialize:          execution_account(32)
 *   deposit:             amount(u64 LE) | ciphertext_len(u32 LE) | ciphertext | input_type(1)
 *   withdraw:            amount(u64 LE)
 *   execute_with_intent: intent_hash(32) | signature_len(u32 LE) | signature
 *                        | amount(u64 LE) | ciphertext_len(u32 LE) | ciphertext | input_type(1)
 * Every parser reads a prefix and ignores trailing bytes. The encoders are
 * what a client sends; each parser is proved to invert its encoder.
 */
module ExecutorInstructions {
  import opened Wrappers
  import opened Bytes
  import opened Solana

  datatype Instruction = Initialize | Deposit | Withdraw | ExecuteWithIntent

  /** The discriminator constants `INITIALIZE` .. `EXECUTE_WITH_INTENT`. */
  function Tag(ix: Instruction): Byte {
    match ix
    case Initialize => 0
    case Deposit => 1
    case Withdraw => 2
    case ExecuteWithIntent => 3
  }

  /** The dispatch of `process_instruction`: the handler and exactly `data[1..]`. */
  function DecodeInstruction(data: seq<Byte>): (r: Result<(Instruction, seq<Byte>), ProgramError>)
    ensures r.Err? <==> |data| == 0 || data[0] > 3
    ensures r.Err? ==> r.error == InvalidInstructionData
    ensures r.Ok? ==> Tag(r.value.0) == data[0] && r.value.1 == data[1..]
  {
    if |data| == 0 then Err(InvalidInstructionData)
    else if data[0] == 0 then Ok((Initialize, data[1..]))
    else if data[0] == 1 then Ok((Deposit, data[1..]))
    else if data[0] == 2 then Ok((Withdraw, data[1..]))
    else if data[0] == 3 then Ok((ExecuteWithIntent, data[1..]))
    else Err(InvalidInstructionData)
  }

  /** A tag followed by any payload is routed to that tag's handler with that payload. */
  lemma DecodeTagged(ix: Instruction, payload: seq<Byte>)
    ensures DecodeInstruction([Tag(ix)] + payload) == Ok((ix, payload))
  {
    assert ([Tag(ix)] + payload)[1..] == payload;
  }

  // ----- initialize and withdraw -----

  /** The execution account of an `initialize` payload. */
  function ParseInitialize(payload: seq<Byte>): (r: Result<Pubkey, ProgramError>)
    ensures r.Err? <==> |payload| < 32
    ensures r.Err? ==> r.error == InvalidInstructionData
    ensures r.Ok? ==> r.value == payload[..32]
  {
    if |payload| < 32 then Err(InvalidInstructionData) else Ok(payload[..32])
  }

  /** The amount of a `withdraw` payload. */
  function ParseWithdraw(payload: seq<Byte>): (r: Result<U64, ProgramError>)
    ensures r.Err? <==> |payload| < 8
    ensures r.Err? ==> r.error == InvalidInstructionData
    ensures r.Ok? ==> LeEncode(r.value, 8) == payload[..8]
  {
    if |payload| < 8 then Err(InvalidInstructionData) else Ok(U64Le(payload[..8]))
  }

  // ----- deposit -----

  datatype DepositArgs = DepositArgs(amount: U64, ciphertext: seq<Byte>, inputType: Byte)

  function EncodeDeposit(a: DepositArgs): (r: seq<Byte>)
    requires |a.ciphertext| < U32_LIMIT
    ensures |r| == 13 + |a.ciphertext|
  {
    LeEncode(a.amount, 8) + LeEncode(|a.ciphertext|, 4) + a.ciphertext + [a.inputType]
  }

  /** The payload is long enough for the ciphertext length it declares. */
  predicate DepositFits(payload: seq<Byte>) {
    |payload| >= 13 && |payload| >= 12 + U32Le(payload[8..12]) + 1
  }

  /**
   * The payload checks of `deposit`: structural errors are
   * `InvalidInstructionData`, a zero amount is `InvalidArgument`.
   */
  function ParseDeposit(payload: seq<Byte>): (r: Result<DepositArgs, ProgramError>)
    ensures !DepositFits(payload) <==> r == Err(InvalidInstructionData)
    ensures r == Err(InvalidArgument) <==> DepositFits(payload) && payload[..8] == Zeros(8)
    ensures r.Ok? || r == Err(InvalidInstructionData) || r == Err(InvalidArgument)
    ensures r.Ok? ==> r.value.amount > 0 && |r.value.ciphertext| < U32_LIMIT
                      && 13 + |r.value.ciphertext| <= |payload|
                      && payload[..13 + |r.value.ciphertext|] == EncodeDeposit(r.value)
  {
    if |payload| < 13 then Err(InvalidInstructionData)
    else
      var amount := U64Le(payload[..8]);
      var ciphertextLen := U32Le(payload[8..12]);
      if |payload| < 12 + ciphertextLen + 1 then Err(InvalidInstructionData)
      else
        var ciphertextEnd := 12 + ciphertextLen;
        var a := DepositArgs(amount, payload[12..ciphertextEnd], payload[ciphertextEnd]);
        ZeroAmount(payload[..8]);
        if amount == 0 then Err(InvalidArgument)
        else
          assert payload[..13 + ciphertextLen] ==
                 payload[..8] + payload[8..12] + payload[12..ciphertextEnd] + [payload[ciphertextEnd]];
          Ok(a)
  }

  lemma ZeroAmount(s: seq<Byte>)
    requires |s| == 8
    ensures U64Le(s) == 0 <==> s == Zeros(8)
  {
    LeDecodeZeros(8);
    if U64Le(s) == 0 {
      LeDecodeInjective(s, Zeros(8));
    }
  }

  /** Every deposit a client can encode parses back, whatever follows it. */
  lemma ParseDepositEncode(a: DepositArgs, trailing: seq<Byte>)
    requires a.amount > 0 && |a.ciphertext| < U32_LIMIT
    ensures ParseDeposit(EncodeDeposit(a) + trailing) == Ok(a)
  {
    var p := EncodeDeposit(a) + trailing;
    var n := |a.ciphertext|;
    assert p[..8] == LeEncode(a.amount, 8);
    assert p[8..12] == LeEncode(n, 4);
    assert p[12..12 + n] == a.ciphertext;
    assert p[12 + n] == a.inputType;
    U64RoundTrip(a.amount);
    U32RoundTrip(n);
  }

  // ----- execute_with_intent -----

  datatype IntentArgs = IntentArgs(
    intentHash: Hash32, signature: seq<Byte>, amount: U64, ciphertext: seq<Byte>, inputType: Byte)

  function EncodeIntent(a: IntentArgs): (r: seq<Byte>)
    requires |a.signature| < U32_LIMIT && |a.ciphertext| < U32_LIMIT
    ensures |r| == 49 + |a.signature| + |a.ciphertext|
  {
    a.intentHash + LeEncode(|a.signature|, 4) + a.signature
    + LeEncode(a.amount, 8) + LeEncode(|a.ciphertext|, 4) + a.ciphertext + [a.inputType]
  }

  /** The declared signature length, when the fixed head is present. */
  function SignatureLen(payload: seq<Byte>): U32
    requires |payload| >= 36
  {
    U32Le(payload[32..36])
  }

  /** The payload holds the intent head, the signature, the amount and both lengths it declares. */
  predicate IntentFits(payload: seq<Byte>) {
    && |payload| >= 36
    && |payload| >= 36 + SignatureLen(payload) + 8 + 4 + 1
    && var amountOffset := 36 + SignatureLen(payload);
       |payload| >= amountOffset + 12 + U32Le(payload[amountOffset + 8..amountOffset + 12]) + 1
  }

  /**
   * The payload checks of `execute_with_intent`, all made before any account
   * data is read: structural errors are `InvalidInstructionData`, an empty
   * signature is `InvalidArgument`.
   */
  function ParseIntent(payload: seq<Byte>): (r: Result<IntentArgs, ProgramError>)
    ensures !IntentFits(payload) <==> r == Err(InvalidInstructionData)
    ensures r == Err(InvalidArgument) <==> IntentFits(payload) && SignatureLen(payload) == 0
    ensures r.Ok? || r == Err(InvalidInstructionData) || r == Err(InvalidArgument)
    ensures r.Ok? ==> |r.value.signature| > 0
                      && |r.value.signature| < U32_LIMIT && |r.value.ciphertext| < U32_LIMIT
                      && 49 + |r.value.signature| + |r.value.ciphertext| <= |payload|
                      && payload[..49 + |r.value.signature| + |r.value.ciphertext|] == EncodeIntent(r.value)
  {
    if |payload| < 36 then Err(InvalidInstructionData)
    else
      var intentHash := payload[..32];
      var signatureLen := U32Le(payload[32..36]);
      if |payload| < 36 + signatureLen + 8 + 4 + 1 then Err(InvalidInstructionData)
      else
        var signature := payload[36..36 + signatureLen];
        var amountOffset := 36 + signatureLen;
        var amount := U64Le(payload[amountOffset..amountOffset + 8]);
        var ciphertextLenOffset := amountOffset + 8;
        var ciphertextLen := U32Le(payload[ciphertextLenOffset..ciphertextLenOffset + 4]);
        var ciphertextStart := ciphertextLenOffset + 4;
        var ciphertextEnd := ciphertextStart + ciphertextLen;
        if |payload| < ciphertextEnd + 1 then Err(InvalidInstructionData)
        else
          var a := IntentArgs(intentHash, signature, amount,
                              payload[ciphertextStart..ciphertextEnd], payload[ciphertextEnd]);
          if |signature| == 0 then Err(InvalidArgument)
          else
            IntentPrefix(payload, a);
            Ok(a)
  }

  lemma IntentPrefix(payload: seq<Byte>, a: IntentArgs)
    requires |a.signature| < U32_LIMIT && |a.ciphertext| < U32_LIMIT
    requires |payload| >= 49 + |a.signature| + |a.ciphertext|
    requires var s, n := |a.signature|, |a.ciphertext|;
             && payload[..32] == a.intentHash
             && payload[32..36] == LeEncode(s, 4)
             && payload[36..36 + s] == a.signature
             && payload[36 + s..44 + s] == LeEncode(a.amount, 8)
             && payload[44 + s..48 + s] == LeEncode(n, 4)
             && payload[48 + s..48 + s + n] == a.ciphertext
             && payload[48 + s + n] == a.inputType
    ensures payload[..49 + |a.signature| + |a.ciphertext|] == EncodeIntent(a)
  {
    var s, n := |a.signature|, |a.ciphertext|;
    PrefixExtend(payload, 32, 36);
    PrefixExtend(payload, 36, 36 + s);
    PrefixExtend(payload, 36 + s, 44 + s);
    PrefixExtend(payload, 44 + s, 48 + s);
    PrefixExtend(payload, 48 + s, 48 + s + n);
    PrefixExtend(payload, 48 + s + n, 49 + s + n);
    assert payload[48 + s + n..49 + s + n] == [a.inputType];
  }

  /** A longer prefix is the shorter one followed by the slice between them. */
  lemma PrefixExtend(p: seq<Byte>, i: nat, j: nat)
    requires i <= j <= |p|
    ensures p[..j] == p[..i] + p[i..j]
  {
  }

  /** Every intent with a non-empty signature that a client can encode parses back. */
  lemma ParseIntentEncode(a: IntentArgs, trailing: seq<Byte>)
    requires |a.signature| > 0 && |a.signature| < U32_LIMIT && |a.ciphertext| < U32_LIMIT
    ensures ParseIntent(EncodeIntent(a) + trailing) == Ok(a)
  {
    var p := EncodeIntent(a) + trailing;
    var s := |a.signature|;
    var n := |a.ciphertext|;
    assert p[..32] == a.intentHash;
    assert p[32..36] == LeEncode(s, 4);
    assert p[36..36 + s] == a.signature;
    assert p[36 + s..44 + s] == LeEncode(a.amount, 8);
    assert p[44 + s..48 + s] == LeEncode(n, 4);
    assert p[48 + s..48 + s + n] == a.ciphertext;
    assert p[48 + s + n] == a.inputType;
    U32RoundTrip(s);
    U32RoundTrip(n);
    U64RoundTrip(a.amount);
  }
}
