# Anonymous executor vault — a Dafny model

This project models three small Solana programs and proves properties about them.

**The native executor** (`anonymaus-executor`) is a vault that has four instructions, chosen by a one-byte tag:

- `initialize` stores a configuration record. The record holds the execution account, the authority and an initialised flag.
- `deposit` moves lamports from a user into the vault and updates the user's record. The record holds the owner and an *encrypted* balance.
- `withdraw` and `execute_with_intent` subtract from the encrypted balance, then pay lamports out of the vault. `withdraw` pays the user; `execute_with_intent` pays the configured execution account.

The balance is an opaque `u128` handle. The program never computes on it directly. Every operation on it is a cross-program call into the Inco Lightning coprocessor, which returns a new handle as 16 bytes of return data. The only decoding the program does is to read a returned handle of `0` as false.

**The Anchor variant** (`anonymous-executor-anchor`) is the same vault with a plaintext `u64` balance and checked arithmetic.

**The test counter** (`test_magic`) keeps a little-endian `u64` in the first 8 bytes of a "counter" account.

## How the model is built

| file | module | what it holds |
|---|---|---|
| `wrappers.dfy` | `Wrappers` | `Option`, `Result` (usable with `:-`), `Unit` |
| `bytes.dfy` | `Bytes` | bytes, `u32`/`u64`/`u128` ranges, 32-byte keys, little-endian encode and decode with their round trips |
| `solana.dfy` | `Solana` | `ProgramError`, the account list, and a `Bank` snapshot of every account's lamports and data. The system program's `create_account` and `transfer` are effects on that snapshot. The `Ledger` class holds the same state as mutable fields. |
| `inco.dfy` | `Inco` | the coprocessor as an oracle, and `inco_return_u128` |
| `executor_state.dfy` | `ExecutorState` | the `Executor` (65 bytes) and `UserDeposit` (48 bytes) `Pack` implementations, both as functions on byte strings and as in-place writes to an `array` |
| `executor_instructions.dfy` | `ExecutorInstructions` | tag dispatch, and the length-checked payload parsers with encoders they invert |
| `executor_program.dfy` | `ExecutorProgram` | the four native handlers and `process_instruction` |
| `anchor_executor.dfy` | `AnchorExecutor` | the Anchor accounts as classes and the four handlers as methods that assign their fields |
| `counter_instructions.dfy`, `counter_program.dfy` | `CounterInstructions`, `CounterProgram` | the counter program |

**Native handlers.** Each native handler is written twice:

- A function over a `Bank` value, for example `DepositSpec`. It gives either the instruction's error or the exact state the instruction leaves.
- A method over the `Ledger`, for example `Deposit`. It makes the same checks and writes in the source's order, and is proved to agree with the function (`Completes`). `ProcessInstruction` restores the ledger when a handler fails, which is the runtime discarding a failed instruction's writes.

The properties of the vault are lemmas about the functions.

**Anchor handlers.** These mutate their account objects in place. The `...Instruction` wrappers restore the fields on failure.

**The coprocessor.** It is a parameter `inco: (program, signer, call) -> reply`. A reply is either a failure or the return data it leaves, which may be absent. So every lemma holds for every coprocessor, and a handle is only ever compared with `0`.

**Addresses and rent.** Program-derived addresses come from a parameter `pda: seeds -> key`. Rent comes from `minimumBalance`.

**Where the code departs from its documented intent.** The comments in the source describe some steps differently from what the code does. The model follows the code in each case:

- **Unguarded re-initialisation.** The executor's doc comment (`anonymaus-executor/src/lib.rs:207-213`) presents `initialize` as a setup step signed by an authority, but the handler never reads the stored configuration. Once the executor account holds lamports, any signer replaces the execution account and the authority with its own choice. `InitializeOverwritesOtherAuthority` shows this; `InitializeIdempotent` covers only a repeat by the same signer with the same payload.
- **Funded but empty executor.** `initialize` creates the executor account only when it holds no lamports (`anonymaus-executor/src/lib.rs:257`), and packing into a buffer shorter than 65 bytes silently writes nothing (`:786-788`). An executor address that already received lamports but has no data is therefore never allocated. `initialize` returns success without storing a configuration, and every `execute_with_intent` then fails. `InitializeOnFundedEmptyExecutor` shows this.
- **Zero-balance reset.** `deposit` replaces the balance with an encrypted zero whenever the stored handle is `0`, not only for a newly created record.
- **Byte-0 test.** `deposit` treats a record as new when byte 0 of the buffer is zero, although its comment (`anonymaus-executor/src/lib.rs:477`) speaks of an account that was just created. An owner whose key starts with a zero byte therefore has the stored balance discarded on every deposit. `DepositForgetsBalanceOfZeroLeadingOwner` shows this.
- **Writes before errors.** Errors are not all detected before the first write. In `deposit`, the vault creation and the lamport transfer come before the record is read. In `withdraw` and `execute_with_intent`, the record is written before the vault is debited. Nothing partial persists only because the runtime discards a failed instruction's writes (`ProcessInstruction`, `DepositInstruction`, `WithdrawInstruction`).
- **Anchor intent.** In the Anchor variant, `execute_with_intent` only lowers the balance. It moves no lamports, and the user it names need not sign (`Walkthrough`).

## Model

| member | source | states |
|---|---|---|
| Bytes.U64Le | tests/test_magic/src/lib.rs:127-129 | `u64::from_le_bytes` of 8 bytes; encoding the result gives the bytes back |
| Bytes.U32Le | server/programs/anonymaus-executor/src/lib.rs:363 | `u32::from_le_bytes` of 4 bytes; encoding the result gives the bytes back |
| Bytes.U128Le | server/programs/anonymaus-executor/src/lib.rs:50-52 | `u128::from_le_bytes` of 16 bytes; encoding the result gives the bytes back |
| Solana.RequireAccounts | server/programs/anonymaus-executor/src/lib.rs:224-226 | `next_account_info` fails with NotEnoughAccountKeys exactly when fewer accounts than needed are passed |
| Solana.Bank.Transfer | server/programs/anonymaus-executor/src/lib.rs:411-424 | the system transfer fails exactly when the payer holds less than the amount; on success the pair's sum is kept, and each side moves by the amount when the two are distinct; no other account or buffer changes |
| Solana.Bank.CreateAccount | server/programs/anonymaus-executor/src/lib.rs:257-281 | creating an account that holds lamports or data is AccountAlreadyInUse; otherwise it fails exactly when the payer cannot pay, with ResultWithNegativeLamports; on success the new account has the rent lamports and `space` zero bytes, the payer pays them and keeps its data, and no other account changes |
| Inco.ReturnU128 | server/programs/anonymaus-executor/src/lib.rs:45-53 | absent or shorter-than-16-byte return data is InvalidAccountData; otherwise the result is the little-endian value of the first 16 bytes |
| Inco.Invoke | server/programs/anonymaus-executor/src/lib.rs:45-53 | a coprocessor call yields a handle exactly when it succeeds and leaves at least 16 bytes of return data, and the handle is those bytes read little-endian; a failed call passes its error through, and missing or short return data is InvalidAccountData |
| Inco.ReturnU128IgnoresTrailing | server/programs/anonymaus-executor/src/lib.rs:45-53 | bytes after the first 16 never change the decoded handle |
| Inco.ReturnU128OfHandle | server/programs/anonymaus-executor/src/lib.rs:45-53 | a handle returned as its 16 little-endian bytes, with anything after them, decodes to itself |
| ExecutorState.ExecutorPackedInto | server/programs/anonymaus-executor/src/lib.rs:783-791 | packing into a slice shorter than 65 bytes leaves it unchanged; otherwise the execution account goes to bytes 0..32, the authority to 32..64 and the flag as 1/0 to byte 64; bytes from 65 on are kept and the length is unchanged |
| ExecutorState.ExecutorUnpackFromSlice | server/programs/anonymaus-executor/src/lib.rs:793-809 | a slice shorter than 65 bytes is InvalidAccountData; otherwise both keys are read back from their byte ranges |
| ExecutorState.ExecutorUnpack | server/programs/anonymaus-executor/src/lib.rs:774-809 | `Pack::unpack`: a length other than 65 is InvalidAccountData; a flag byte other than 1 is UninitializedAccount; a 65-byte buffer whose flag byte is 1 gives `unpack_from_slice`'s record, which is initialised |
| ExecutorState.ExecutorRoundTrip | server/programs/anonymaus-executor/src/lib.rs:783-809 | unpacking what was packed into any slice of at least 65 bytes gives back the record |
| ExecutorState.ExecutorUnpackPacked | server/programs/anonymaus-executor/src/lib.rs:774-809 | `unpack` of an initialised record packed into a 65-byte buffer gives the record back |
| ExecutorState.ExecutorPackIgnoresOldBytes | server/programs/anonymaus-executor/src/lib.rs:783-791 | the packed bytes do not depend on the first 65 bytes the slice held before |
| ExecutorState.ExecutorPackIntoSlice | server/programs/anonymaus-executor/src/lib.rs:783-791 | the in-place write on an array leaves exactly the bytes `ExecutorPackedInto` describes |
| ExecutorState.UserDepositPackedInto | server/programs/anonymaus-executor/src/lib.rs:830-837 | packing into a slice shorter than 48 bytes leaves it unchanged; otherwise the owner goes to bytes 0..32 and the balance as little-endian `u128` to 32..48, with later bytes kept |
| ExecutorState.UserDepositUnpackFromSlice | server/programs/anonymaus-executor/src/lib.rs:839-854 | a slice shorter than 48 bytes is InvalidAccountData; otherwise the owner and balance are read from their byte ranges |
| ExecutorState.UserDepositUnpack | server/programs/anonymaus-executor/src/lib.rs:821-854 | `Pack::unpack`: a length other than 48 is InvalidAccountData; a record with a zero balance and the default owner is UninitializedAccount; otherwise the record read from the slice |
| ExecutorState.UserDepositUninitializedIsZero | server/programs/anonymaus-executor/src/lib.rs:821-825 | a 48-byte record is refused as uninitialised exactly when all its bytes are zero |
| ExecutorState.UserDepositRoundTrip | server/programs/anonymaus-executor/src/lib.rs:830-854 | unpacking from a slice what was packed into it (at least 48 bytes) gives back the record |
| ExecutorState.UserDepositUnpackPacked | server/programs/anonymaus-executor/src/lib.rs:821-854 | `unpack` of a packed 48-byte initialised record gives the record back |
| ExecutorState.UserDepositPackIntoSlice | server/programs/anonymaus-executor/src/lib.rs:830-837 | the in-place write on an array leaves exactly the bytes `UserDepositPackedInto` describes |
| ExecutorInstructions.DecodeInstruction | server/programs/anonymaus-executor/src/lib.rs:185-204 | empty data or a first byte above 3 is InvalidInstructionData; otherwise the tag names the instruction and exactly `data[1..]` is its payload |
| ExecutorInstructions.DecodeTagged | server/programs/anonymaus-executor/src/lib.rs:194-201 | each instruction's tag followed by any payload decodes to that instruction and that payload |
| ExecutorInstructions.ParseInitialize | server/programs/anonymaus-executor/src/lib.rs:244-250 | fewer than 32 bytes is InvalidInstructionData; otherwise the first 32 bytes are the execution account |
| ExecutorInstructions.ParseWithdraw | server/programs/anonymaus-executor/src/lib.rs:548-557 | fewer than 8 bytes is InvalidInstructionData; otherwise the amount is the little-endian `u64` of the first 8 bytes |
| ExecutorInstructions.ParseDeposit | server/programs/anonymaus-executor/src/lib.rs:354-374 | a payload shorter than 13 bytes, or shorter than 12 + ciphertext length + 1, is InvalidInstructionData; a payload that fits with a zero amount is InvalidArgument; otherwise the amount is positive and the payload begins with the encoding of the parsed fields |
| ExecutorInstructions.ZeroAmount | server/programs/anonymaus-executor/src/lib.rs:359-373 | a little-endian `u64` is zero exactly when its 8 bytes are zero |
| ExecutorInstructions.ParseDepositEncode | server/programs/anonymaus-executor/src/lib.rs:354-370 | parsing an encoded deposit, with any bytes after it, gives back amount, ciphertext and input type |
| ExecutorInstructions.ParseIntent | server/programs/anonymaus-executor/src/lib.rs:663-716 | a payload shorter than 36, shorter than 36 + signature length + 13, or ending before ciphertext end + 1 is InvalidInstructionData; a fitting payload with an empty signature is InvalidArgument; otherwise the signature is non-empty and the payload begins with the encoding of the parsed fields |
| ExecutorInstructions.ParseIntentEncode | server/programs/anonymaus-executor/src/lib.rs:663-711 | parsing an encoded intent, with any bytes after it, gives back hash, signature, amount, ciphertext and input type |
| ExecutorProgram.MoveLamports | server/programs/anonymaus-executor/src/lib.rs:579-581 | the unchecked vault debit aborts exactly when the vault holds less than the amount; otherwise the vault and receiver keep their sum (each moves by the amount when distinct) and nothing else changes |
| ExecutorProgram.PayFromVault | server/programs/anonymaus-executor/src/lib.rs:746-748 | the two lamport updates on the ledger give `MoveLamports`' outcome and change nothing on abort |
| ExecutorProgram.Initialize | server/programs/anonymaus-executor/src/lib.rs:215-296 | the handler's result and ledger agree with `InitializeSpec`: address and signer checks, payload parse, creation when the executor holds no lamports, then the packed configuration |
| ExecutorProgram.InitializeStoresConfig | server/programs/anonymaus-executor/src/lib.rs:229-291 | a successful initialize had the derived executor address, a signing authority and a 32-byte payload, and, when the executor buffer holds at least 65 bytes (always, when `initialize` created the account), leaves the record (execution account, authority, initialised); only the executor's buffer changes |
| ExecutorProgram.InitializeOnFundedEmptyExecutor | server/programs/anonymaus-executor/src/lib.rs:257-291 | on an executor address that holds lamports but no data, `initialize` succeeds yet changes no account; the executor still does not unpack (InvalidAccountData), and every later `execute_with_intent` fails |
| ExecutorProgram.InitializeIdempotent | server/programs/anonymaus-executor/src/lib.rs:257-291 | when the executor then holds lamports, repeating the same initialize on the state it produced succeeds and changes nothing |
| ExecutorProgram.InitializeOverwritesOtherAuthority | server/programs/anonymaus-executor/src/lib.rs:215-291 | on an executor that holds lamports and a configuration from another authority, `initialize` by any signer succeeds and stores that signer as authority with the new execution account |
| ExecutorProgram.DepositPreflight | server/programs/anonymaus-executor/src/lib.rs:313-374 | deposit's checks, which come before any account change: fewer than 6 accounts, an unsigned user, a vault or record key that is not the derived address, and a bad payload each give their error; on success the keys are accounts 0, 1, 2 and 5 (the second `inco_program` binding) and the amount is positive |
| ExecutorProgram.DepositedRecordBalance | server/programs/anonymaus-executor/src/lib.rs:466-493 | a record with byte 0 zero or a zero handle restarts from `AsE(0)`, owned by the signer, plus `NewE(ciphertext)`; any other record keeps its owner and stores `Add(handle, NewE(ciphertext))` |
| ExecutorProgram.DepositForgetsBalanceOfZeroLeadingOwner | server/programs/anonymaus-executor/src/lib.rs:473-490 | for an owner whose key begins with a zero byte, the deposit computes the same record as for an all-zero 48-byte buffer, whatever handle was stored |
| ExecutorProgram.DepositFundingEffect | server/programs/anonymaus-executor/src/lib.rs:376-463 | with distinct accounts, the vault gains `amount` (plus its rent when created), a new record account gets its rent, and the user pays all of it; no other account changes, and a new record buffer is 48 zero bytes |
| ExecutorProgram.Deposit | server/programs/anonymaus-executor/src/lib.rs:313-500 | the handler's result and ledger agree with `DepositSpec`, and a failed preflight leaves the ledger untouched |
| ExecutorProgram.DepositEffect | server/programs/anonymaus-executor/src/lib.rs:376-495 | a successful deposit with distinct accounts: the lamport movements above, the record buffer decodes to the updated record, and no other buffer changes |
| ExecutorProgram.WithdrawPreflight | server/programs/anonymaus-executor/src/lib.rs:510-557 | withdraw's checks: fewer than 3 accounts, an unsigned user, a vault or record key that is not the derived address each give their error; otherwise the amount parse decides |
| ExecutorProgram.WithdrawnBalance | server/programs/anonymaus-executor/src/lib.rs:565-575 | every outcome: a coprocessor failure on encrypting the amount or on `Ge` is passed through; a zero `Ge(balance, AsE(amount))` is InsufficientFunds; a non-zero one gives `Sub(balance, AsE(amount))`, and that is the only way to succeed |
| ExecutorProgram.Withdraw | server/programs/anonymaus-executor/src/lib.rs:510-586 | the handler's result and ledger agree with `WithdrawSpec`; every error except the vault abort leaves the ledger untouched (the record bytes included) |
| ExecutorProgram.WithdrawRejectsOtherOwner | server/programs/anonymaus-executor/src/lib.rs:559-564 | a record owned by someone other than the signer is InvalidAccountData |
| ExecutorProgram.WithdrawInsufficientFails | server/programs/anonymaus-executor/src/lib.rs:565-572 | when the coprocessor answers 0 to `Ge(balance, AsE(amount))` the withdrawal is InsufficientFunds |
| ExecutorProgram.WithdrawSucceeds | server/programs/anonymaus-executor/src/lib.rs:510-586 | a withdrawal succeeds exactly when the account checks pass, the record belongs to the signer, the coprocessor steps succeed with a non-zero `Ge`, and the vault holds the amount |
| ExecutorProgram.WithdrawEffect | server/programs/anonymaus-executor/src/lib.rs:559-581 | a successful withdrawal: the signer owns the record, the vault held the amount, the record now holds the coprocessor's difference, the vault and user keep their sum (user gains `amount` when distinct), and nothing else changes |
| ExecutorProgram.ExecutePreflight | server/programs/anonymaus-executor/src/lib.rs:607-716 | execute's checks, in order, each with its error: account count, executor address, the stored configuration's unpack error, a different configured execution account, its missing signature, vault or record address mismatch, then the intent parser's error passed through; on success the keys and the parsed intent |
| ExecutorProgram.ExecutedBalance | server/programs/anonymaus-executor/src/lib.rs:724-744 | every outcome, with the execution account as signer: a coprocessor failure is passed through; a zero `Eq(NewE(ct), AsE(amount))` is InvalidArgument; a zero amount or a zero `Ge(balance, NewE(ct))` is InsufficientFunds; otherwise the result is `Sub(balance, NewE(ct))`, and that is the only way to succeed |
| ExecutorProgram.ExecutedBalanceMismatch | server/programs/anonymaus-executor/src/lib.rs:724-731 | a ciphertext the coprocessor says differs from the plaintext amount is InvalidArgument |
| ExecutorProgram.ExecutedBalanceInsufficient | server/programs/anonymaus-executor/src/lib.rs:733-737 | an agreeing intent for zero lamports, or one the balance does not cover, is InsufficientFunds |
| ExecutorProgram.ExecuteWithIntent | server/programs/anonymaus-executor/src/lib.rs:607-762 | the handler's result and ledger agree with `ExecuteSpec`; every error except the vault abort leaves the ledger untouched |
| ExecutorProgram.ExecuteRequiresConfiguredSigner | server/programs/anonymaus-executor/src/lib.rs:624-641 | a successful intent was presented by the execution account stored in the configuration, signing |
| ExecutorProgram.ExecuteParsesBeforeReading | server/programs/anonymaus-executor/src/lib.rs:663-718 | a malformed intent payload fails, and its outcome does not depend on any account buffer other than the executor's |
| ExecutorProgram.ExecuteSucceeds | server/programs/anonymaus-executor/src/lib.rs:607-762 | an intent succeeds exactly when the preflight passes, the record belongs to the named user, the coprocessor steps accept the intent, and the vault holds the amount |
| ExecutorProgram.ExecuteEffect | server/programs/anonymaus-executor/src/lib.rs:718-748 | a successful intent: the named user owns the record, the amount is positive and covered by the vault, the record holds the coprocessor's difference, the vault and execution account keep their sum (receiver gains `amount` when distinct), and nothing else changes |
| ExecutorProgram.ProcessRoutes | server/programs/anonymaus-executor/src/lib.rs:185-204 | each tag reaches its handler with the bytes after it; an empty or unknown tag is InvalidInstructionData |
| ExecutorProgram.ProcessInstruction | server/programs/anonymaus-executor/src/lib.rs:185-204 | the result and ledger agree with `ProcessSpec`, and any error leaves every account as it was |
| AnchorExecutor.CheckedAdd | server/programs/anonymous-executor-anchor/programs/anonymous-executor-anchor/src/lib.rs:42-44 | the sum exists exactly when it fits in a `u64`; otherwise ArithmeticOverflow |
| AnchorExecutor.CheckedSub | server/programs/anonymous-executor-anchor/programs/anonymous-executor-anchor/src/lib.rs:66-68 | the difference exists exactly when it is not negative; otherwise ArithmeticOverflow |
| AnchorExecutor.AddThenSubRestores | server/programs/anonymous-executor-anchor/programs/anonymous-executor-anchor/src/lib.rs:42-68 | subtracting what was added gives back the balance |
| AnchorExecutor.SignatureCheck | server/programs/anonymous-executor-anchor/programs/anonymous-executor-anchor/src/lib.rs:97 | an empty signature is InvalidSignature, any other passes |
| AnchorExecutor.SignatureCheckNeverFails | server/programs/anonymous-executor-anchor/programs/anonymous-executor-anchor/src/lib.rs:89-97 | a 64-byte signature argument always passes the check |
| AnchorExecutor.SystemTransfer | server/programs/anonymous-executor-anchor/programs/anonymous-executor-anchor/src/lib.rs:30-37 | fails, changing nothing, exactly when the payer is short; keeps the two balances' sum; moves the amount between two distinct accounts |
| AnchorExecutor.Initialize | server/programs/anonymous-executor-anchor/programs/anonymous-executor-anchor/src/lib.rs:11-21 | the record holds the execution account argument, the signer's key and the derived bump |
| AnchorExecutor.Deposit | server/programs/anonymous-executor-anchor/programs/anonymous-executor-anchor/src/lib.rs:24-48 | a zero amount is InvalidAmount before anything moves; a short payer fails the transfer; an overflowing sum is ArithmeticOverflow; success makes the signer the owner, adds the amount and moves the lamports |
| AnchorExecutor.DepositInstruction | server/programs/anonymous-executor-anchor/programs/anonymous-executor-anchor/src/lib.rs:24-48 | deposit as one instruction: succeeds exactly when the amount is positive, payable and fits, and otherwise leaves every field as it was |
| AnchorExecutor.Withdraw | server/programs/anonymous-executor-anchor/programs/anonymous-executor-anchor/src/lib.rs:51-86 | another owner is UnauthorizedUser and a balance below the amount is InsufficientFunds, both changing nothing; success lowers the balance by the amount and moves the lamports from the vault to the user |
| AnchorExecutor.WithdrawInstruction | server/programs/anonymous-executor-anchor/programs/anonymous-executor-anchor/src/lib.rs:51-86 | withdraw as one instruction: succeeds exactly when the owner matches and the balance and vault cover the amount, and otherwise leaves every field as it was |
| AnchorExecutor.ExecuteWithIntent | server/programs/anonymous-executor-anchor/programs/anonymous-executor-anchor/src/lib.rs:89-120 | the same owner and sufficiency checks; success lowers the balance by the amount and moves no lamports; InvalidSignature never occurs |
| AnchorExecutor.DepositThenWithdraw | server/programs/anonymous-executor-anchor/programs/anonymous-executor-anchor/src/lib.rs:24-86 | a deposit of `x` followed by a withdrawal of `x` succeeds whenever the deposit does, and restores the balance and both lamport balances |
| AnchorExecutor.Walkthrough | server/programs/anonymous-executor-anchor/programs/anonymous-executor-anchor/src/lib.rs:24-120 | deposit 1000, withdraw 400 and an intent for 600 succeed, leaving balance 0 and 600 lamports in the vault; a further intent is InsufficientFunds |
| CounterInstructions.DecodeCommand | tests/test_magic/src/lib.rs:25-44 | empty data or a tag above 2 is InvalidInstructionData; otherwise the command's tag is the first byte |
| CounterInstructions.DecodeTag | tests/test_magic/src/lib.rs:34-41 | each command's tag decodes to that command whatever follows it |
| CounterProgram.ReadCounter | tests/test_magic/src/lib.rs:152-159 | a buffer shorter than 8 bytes is InvalidAccountData; otherwise the value whose little-endian encoding is bytes 0..8 |
| CounterProgram.WriteCounter | tests/test_magic/src/lib.rs:103-104 | after the write the buffer reads back the value, with its length and bytes from 8 on unchanged |
| CounterProgram.WriteCounterSame | tests/test_magic/src/lib.rs:96-104 | writing back the value a buffer already holds leaves the buffer as it was |
| CounterProgram.IncrementedData | tests/test_magic/src/lib.rs:121-135 | a short buffer is InvalidAccountData; `u64::MAX` is ArithmeticOverflow; otherwise the buffer reads `v + 1` with the same length and bytes from 8 on kept |
| CounterProgram.IncrementsCount | tests/test_magic/src/lib.rs:121-135 | `k` increments of a counter holding `v` all succeed and leave `v + k` when that fits in a `u64`, with the rest of the buffer kept |
| CounterProgram.StoreCounter | tests/test_magic/src/lib.rs:135 | the in-place byte-by-byte write on an array leaves exactly `WriteCounter`'s bytes |
| CounterProgram.InitializeOutcome | tests/test_magic/src/lib.rs:48-104 | every outcome: too few accounts, an unsigned user (MissingRequiredSignature), a counter key other than the derived address (InvalidAccountData), a creation the system program refuses, an existing buffer shorter than 8 bytes (InvalidAccountData); success otherwise |
| CounterProgram.InitializeZeroes | tests/test_magic/src/lib.rs:59-104 | a successful initialize had a signing user and the derived counter address, and leaves the counter reading 0 (a fresh account is 8 zero bytes), with no other buffer changed |
| CounterProgram.IncrementAddsOne | tests/test_magic/src/lib.rs:121-135 | increment turns `v` into `v + 1` changing only that buffer, and refuses `u64::MAX` with ArithmeticOverflow |
| CounterProgram.ProcessRoutes | tests/test_magic/src/lib.rs:25-44 | each tag reaches its handler; an empty or unknown tag is InvalidInstructionData |
| CounterProgram.Initialize | tests/test_magic/src/lib.rs:48-108 | the handler's result and ledger agree with `InitializeSpec` |
| CounterProgram.Increment | tests/test_magic/src/lib.rs:112-139 | the handler's result and ledger agree with `IncrementSpec`, and an error changes nothing |
| CounterProgram.GetValue | tests/test_magic/src/lib.rs:143-163 | an empty account list is NotEnoughAccountKeys; otherwise the result is the first account's counter, or InvalidAccountData for a short buffer; the method cannot write the ledger |
| CounterProgram.ProcessInstruction | tests/test_magic/src/lib.rs:25-44 | the result and ledger agree with `ProcessSpec`, and any error leaves every account as it was |

## Left out

- **Coprocessor requests.** The SHA-256 operation selectors (`inco_sighash`) and the byte layout of the requests the `inco_*` builders assemble are not modelled. A call is named by its operation and typed arguments.
- **Coprocessor side effects.** A coprocessor call is assumed to change no account the instruction holds; only its reply is modelled.
- **Encryption.** Nothing is said about what handles mean. `Add`, `Sub`, `Ge` and `Eq` are uninterpreted, so claims about decrypted balances are out of reach.
- **Fresh handles.** The coprocessor is a function: the same call with the same accounts gives the same reply, whereas the real service may return fresh handles.
- **Address derivation.** Derivation is a parameter; its hashing and bump search are not modelled. It is not assumed injective. Lemmas that need distinct vault, user and record keys require it.
- **Runtime checks.** These are not modelled:
  - account ownership and writability;
  - rent exemption;
  - the runtime's lamport-sum check;
  - signer privileges in cross-program calls;
  - the identity of the system-program account argument.
- **Other deposit accounts.** `deposit`'s first `inco_program` binding (account 3) and its system program account (account 4) are read but never inspected, and are not modelled.
- **Logging.** `msg!` output is left out. `get_value`'s logged value is returned instead.
- **Lamport additions.** Credits are unbounded; a `u64` overflow on them is not modelled. The unchecked vault subtraction is the `Aborted` error.
- **Withdraw's coprocessor account.** `withdraw` uses a coprocessor account it never takes from the account list, so its key is an extra parameter (`WithdrawSpec`, `Withdraw`).
- **Anchor account macros.** These are taken as already satisfied:
  - `seeds` and `bump` checks;
  - `init` and `init_if_needed` allocation (a fresh record is the zero-field constructor);
  - `Signer`;
  - the discriminator;
  - Borsh decoding of arguments.
- **Anchor `intent_hash`.** It is only logged, and is an unused parameter.
- **Intent signatures.** Signature verification and replay protection are TODOs in the source. They are not modelled: a non-empty signature is accepted.
- **Data buffers.** The handlers hold data buffers as `seq` values in the ledger. The in-place writes are modelled separately on arrays (`ExecutorPackIntoSlice`, `UserDepositPackIntoSlice`, `StoreCounter`).
- **Other files.** `lib-inco-backup.rs` is not part of this model.
- ExecutorProgram.DepositEffect: states per-account lamport amounts only for distinct vault, user and record keys, because derived addresses are not assumed distinct from the user's key.
- ExecutorProgram.DepositFundingEffect: has the same distinct-keys requirement as `DepositEffect`.
- ExecutorProgram.WithdrawEffect: states the user's gain only when the user is not the vault; the pair's sum is stated in every case.
- ExecutorProgram.ExecuteEffect: states the receiver's gain only when the receiver is not the vault; the pair's sum is stated in every case.
