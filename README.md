# Wormhole withdrawal verification, modelled in Dafny

Wormhole lets a depositor burn ether by sending it to an address derived from a
private secret. The depositor later mints it back in withdrawals that a
zero-knowledge program vouches for. This project models the core of that
program, and proves properties of the model:

- **The secret** (`secret.dfy`): the burn address, the nullifier of each
  withdrawal index and the proof-of-work test are SHA-256 digests of
  domain-separated preimages. Here SHA-256 is an arbitrary function parameter,
  and the preimage layouts are exact.
- **The constants** (`constants.dfy`): the magic bytes, the proof-of-work
  difficulty 2^24, the 32-ether deposit cap and the transaction type 5.
- **The verification program, in its three versions**:
  - `program_core.dfy`: the current version. It returns a `Result`.
  - `program.dfy`: a version in which every failed check aborts. It reads the registry at a fixed address.
  - `legacy_guest.dfy`: the first guest. It also proves that the current nullifier is absent, and it stores the cumulative amount unhashed.

  Each version is a function from its input to an outcome: an output, an error value, or an abort that names the guard that fired. The checks every version runs the same way live in `guest.dfy`.
- **The wormhole typed transaction** (`wormhole_tx.dfy`):
  - the field coding of `WormholeTx` and `WormholeTxProof`, as buffer-appending and cursor-advancing methods, each proved against a function on byte strings;
  - the signing payload and its length;
  - `set_chain_id`;
  - `effective_gas_price`;
  - the fixed accessors.

The foreign collaborators are fields of the record `Trie.Oracles` and of
`WormholeTransaction.Codecs`, passed as parameters:

- SHA-256 and Keccak-256;
- the Merkle-Patricia proof verifier (Appendix D of the Ethereum Yellow Paper);
- the trie node and account RLP;
- the per-field RLP codecs.

So every theorem holds whatever those functions compute. The foreign functions
enter a theorem only through these hypotheses, each stated where it is used:

- `WormholeTransaction.CodecsSound`: each field codec decodes its own encoding
  followed by any rest, and its length function reports the length of its
  encoding (`Rlp.Sound`). `ProofLength`, `FieldsLength`, `ProofRoundTrip`,
  `ProofCodecSound`, `FieldsRoundTrip`, `SigningPayloadDecodes` and
  `SetChainIdEncoding` assume it.
- `Secret.TestSecretIsValid`: SHA-256 makes `TEST_SECRET` valid
  (`ProgramCore.InvalidWithdrawAmountTest` assumes it).
- SHA-256 makes neither the empty secret nor the secret `01 02 03` valid
  (`ProgramCore.InvalidSecretTest` assumes both).
- The random source eventually fails or yields a valid secret
  (`Secret.TryRandom` assumes it).

The RLP of a 32-byte string and of a 256-bit scalar (Appendix B of the Yellow
Paper) is concrete, because the difference between the legacy and the current
registry values depends on it.

`WormholeSecret` accepts a secret of any length: `TEST_SECRET` has 8 bytes, and
only `try_random` produces 32. The model's secret is likewise a byte string of
any length. The doc comment of `rlp_decode_fields` lists a `value` field that
the code neither writes nor reads; the model follows the code and has no such
field.

## Model

| member | source | states |
|---|---|---|
| Primitives.BE32 | crates/program-core/src/lib.rs:102-103 | the 32-byte big-endian form of a 256-bit value reads back as that value |
| Primitives.LE32 | crates/alloy-wormhole/src/secret.rs:80 | the 32-byte little-endian form of the index reads back as the index |
| Primitives.FromBE32 | crates/alloy-wormhole/src/secret.rs:96 | reading 32 bytes big-endian is the inverse of `BE32`, so every digest is the form of exactly one value |
| Primitives.LE32Injective | crates/alloy-wormhole/src/secret.rs:80 | distinct indices have distinct little-endian forms |
| Primitives.RlpU256 | program/src/main.rs:74 | the RLP of a scalar is 1 to 33 bytes, and at most 32 below 2^248 |
| Primitives.RlpU256Value | program/src/main.rs:74 | the RLP of a scalar is canonical: a value from 1 to 127 is its own single byte; any other value is the header `0x80 + length` followed by its big-endian digits with no leading zero |
| Primitives.RawAndHashedSlotValuesDiffer | program/src/main.rs:74 | a scalar below 2^248 never has the RLP of a 32-byte hash |
| Constants.MagicBytesDistinct | crates/alloy-wormhole/src/constants.rs:3-10 | the three domain-separation bytes are pairwise distinct |
| Constants.PowDifficultyIsPowerOfTwo | crates/alloy-wormhole/src/constants.rs:12-17 | the limbs of the difficulty denote 2^POW_LOG_DIFFICULTY = 2^24 = 16777216 |
| Constants.MaxDepositIs32Ether | crates/alloy-wormhole/src/constants.rs:19-21 | the limbs of the deposit cap denote 32 * 10^18 wei |
| Constants.FromLimbs | crates/alloy-wormhole/src/constants.rs:17 | four 64-bit little-endian limbs always denote a 256-bit value |
| Secret.NewUnchecked | crates/alloy-wormhole/src/secret.rs:27-29 | the secret holds exactly the given bytes, with no validation |
| Secret.IsValidWormholeSecret | crates/alloy-wormhole/src/secret.rs:91-97 | a secret is valid exactly when the last three bytes of sha256(0x02 ++ secret) are zero, i.e. its big-endian value is a multiple of 2^24 |
| Secret.MultipleOf2To24 | crates/alloy-wormhole/src/secret.rs:96 | a 32-byte big-endian value is a multiple of 2^24 exactly when its last three bytes are zero |
| Secret.ProofOfWorkSecretHash | crates/alloy-wormhole/src/secret.rs:84-89 | the proof-of-work hash is sha256 of the byte 0x02 followed by the secret |
| Secret.IsValid | crates/alloy-wormhole/src/secret.rs:59-62 | a secret is valid exactly when its proof-of-work hash ends in three zero bytes |
| Secret.ProofOfWorkHash | crates/alloy-wormhole/src/secret.rs:64-68 | the secret's proof-of-work hash is sha256(0x02 ++ secret), and the secret is valid exactly when that hash ends in three zero bytes |
| Secret.Nullifier | crates/alloy-wormhole/src/secret.rs:77-81 | the nullifier is the digest of a preimage 33 bytes longer than the secret: the byte 0x01, the secret, then 32 bytes that read little-endian as the index |
| Secret.BurnAddress | crates/alloy-wormhole/src/secret.rs:72-75 | the burn address is bytes 12..32 of sha256(0xfe ++ secret) |
| Secret.DerivationsDomainSeparated | crates/alloy-wormhole/src/secret.rs:73-88 | the address, nullifier and proof-of-work preimages never coincide, whatever the secrets and the index |
| Secret.NullifierPreimageInjective | crates/alloy-wormhole/src/secret.rs:79-81 | the nullifier preimage determines the secret and the index, so equal nullifiers for different pairs are a SHA-256 collision |
| Secret.NullifierIndexIsLittleEndian | crates/alloy-wormhole/src/secret.rs:79-81 | the preimage is 33 bytes longer than the secret, and its last 32 bytes read little-endian are the index |
| Secret.TryFrom | crates/alloy-wormhole/src/secret.rs:11-22 | `Ok` exactly for a valid secret; both `Ok` and `Err` carry the input bytes unchanged |
| Secret.TryRandom | crates/alloy-wormhole/src/secret.rs:49-57 | the result is decided by the first random fill that fails or is valid: that fill's bytes as a valid 32-byte secret, or that call's error |
| Trie.Unpack | crates/program-core/src/lib.rs:70 | a key of n bytes becomes a path of 2n nibbles: nibble 2k is the high half of byte k and nibble 2k+1 its low half |
| Trie.UnpackInjective | crates/program-core/src/lib.rs:70 | distinct keys have distinct trie paths |
| Guest.CheckProofs | crates/program-core/src/lib.rs:68-115 | the proof checks succeed exactly when the deposit account and the registry account with its previous-nullifier slot are proven, and return the registry account; otherwise they name the first failing check, each exactly under its condition: a rejected deposit proof; after it holds, an empty registry proof, a last node that does not decode, is not a leaf, or holds no account; after the registry account is read, a rejected account or previous-slot proof |
| Guest.RunningTotalsWithinDeposit | crates/program-core/src/lib.rs:45-55 | positive amounts whose running totals each stay within the deposit add up to at most the deposit, and there are at most `deposit` of them |
| ProgramCore.AmountAccepted | crates/program-core/src/lib.rs:45-55 | the amount guards pass exactly when the amount is positive and amount plus cumulative stays within the deposit |
| ProgramCore.ProofError | crates/program-core/src/lib.rs:84-114 | a leaf that is not a leaf becomes `NullifierAccountMissing`, an undecodable node or account becomes `Rlp`, and every other failure becomes `Proof`, so no proof failure is reported as an invalid secret or amount |
| ProgramCore.VerifyProofs | crates/program-core/src/lib.rs:68-127 | the proof stage yields an output exactly when the three proofs hold, with the output fields copied or derived as the source builds them; it aborts exactly on an empty registry proof after a valid deposit proof; `NullifierAccountMissing` exactly when the registry proof's last node is not a leaf, `Rlp` exactly when that node or its account does not decode, `Proof` exactly when `verify_proof` rejects a proof |
| ProgramCore.Execute | crates/program-core/src/lib.rs:37-128 | success exactly when every check holds (`Accepts`), with the five output fields as specified; `InvalidSecret` exactly for an invalid secret; `InvalidWithdrawAmount` exactly for a valid secret and a failed amount rule; aborts only at the three unwrap/panic sites, each exactly under its condition; once the secret, amount and index-0 rules hold, `NullifierAccountMissing` exactly for a non-leaf last registry node, `Rlp` exactly for an undecodable node or account, `Proof` exactly for a proof `verify_proof` rejects |
| ProgramCore.AccountingBoundary | crates/program-core/src/lib.rs:53-55 | a total equal to the deposit passes the amount guards, and one more wei fails them |
| ProgramCore.OverflowIsAnError | crates/program-core/src/lib.rs:49-52 | a sum beyond 256 bits is an `InvalidWithdrawAmount` error, never a wrapped total |
| ProgramCore.InvalidSecretTest | crates/program-core/src/lib.rs:220-233 | the default input and the 3-byte secret give `InvalidSecret` |
| ProgramCore.InvalidWithdrawAmountTest | crates/program-core/src/lib.rs:235-259 | with the test secret, a zero amount, an overflowing sum and a sum above the deposit each give `InvalidWithdrawAmount` |
| ProgramCore.SucceededWithinDeposit | crates/program-core/src/lib.rs:45-55 | a successful run withdraws a positive amount and keeps the total within the deposit |
| ProgramCore.AcceptedChainWithinDeposit | crates/program-core/src/lib.rs:45-55 | a chain of successful withdrawals from one deposit, each claiming the total before it, withdraws at most the deposit in at most `deposit` steps |
| ProgramCore.ThreeWithdrawalScenario | crates/program-core/src/lib.rs:45-127 | from a deposit of 100 with valid proofs, 10 at index 0 is accepted and outputs the nullifier of index 0; 50 at index 1, with the hash of 10 at the previous slot, is accepted and outputs the nullifier of index 1 and that hash; 41 on top of 60 is rejected as `InvalidWithdrawAmount` |
| ProgramCore.ChainWithinDeposit | crates/program-core/src/lib.rs:45-55 | positive withdrawals, each within the deposit together with the total claimed before it, and each claiming the total of the ones before, add up to at most the deposit in at most `deposit` steps |
| Program.Run | crates/program/src/lib.rs:6-93 | completion exactly when the secret, index, overflow and deposit guards and all proofs pass; each amount-related abort exactly under its condition |
| Program.Execute | crates/program/src/lib.rs:6-93 | as written, a run completes exactly when the total is at least the deposit (and below 2^256) and every other check holds; the output is the source's four fields |
| Program.ExecuteIntended | crates/program/src/lib.rs:20-27 | with the guard reversed, a run completes exactly when the total stays within the deposit and every other check holds |
| Program.PartialWithdrawalAborts | crates/program/src/lib.rs:20-27 | as written, an honest partial withdrawal always aborts at the deposit guard |
| Program.OverdrawCompletes | crates/program/src/lib.rs:20-27 | as written, withdrawing 2 wei from a 1-wei deposit completes whenever the proofs hold |
| Program.BothCompleteOnlyAtExactDeposit | crates/program/src/lib.rs:20-27 | the written and the intended guard both pass only when the total equals the deposit |
| Program.AsCoreInput | crates/program/src/lib.rs:95-118 | this version's input plus the fixed registry address is a `Result`-version input that carries every field unchanged and the registry address as its nullifier address |
| Program.IntendedMatchesCore | crates/program/src/lib.rs:6-93 | with the guard reversed, this version completes on every input the `Result` version accepts, with the same outputs; a positive-amount completion is accepted there |
| Program.ZeroWithdrawalPassesAmountGuards | crates/program/src/lib.rs:6-27 | this version has no zero-amount check |
| LegacyGuest.PlainAdd | program/src/main.rs:28 | with wrapping the sum is exact below 2^256 and otherwise wraps below the first operand; with checking it is `None` exactly on overflow |
| LegacyGuest.Main | program/src/main.rs:11-99 | a run commits exactly when the secret, index and amount rules and all four proofs hold, including the absence of the current nullifier's slot; it commits the state root, the current nullifier and the amount, in that order |
| LegacyGuest.ProveAndCommit | program/src/main.rs:32-98 | the proof stage commits exactly when the deposit, registry-account, previous-slot and exclusion proofs all hold, and commits the state root, the current nullifier and the amount; an abort at the exclusion proof means the current slot was not proven absent |
| LegacyGuest.CheckedCommitWithinDeposit | program/src/main.rs:28-30 | with a checked `+`, a committed withdrawal keeps the total within the deposit |
| LegacyGuest.WrappedOverdrawCommits | program/src/main.rs:28-30 | with a wrapping `+`, 2^256 - 1 wei on top of 1 wei passes the guard of an empty deposit and commits whenever the proofs hold |
| LegacyGuest.WrappedSumPassesGuard | program/src/main.rs:28-30 | with a wrapping `+`, every withdrawal whose sum overflows 2^256 by at most the deposit passes the guard and goes on to the proof checks |
| LegacyGuest.CheckedSumAborts | program/src/main.rs:28-30 | with a checked `+`, every sum beyond 2^256 aborts at the addition |
| LegacyGuest.SlotValueFormatsDiffer | program/src/main.rs:74 | for every amount below 2^248, the legacy slot value (the RLP of the raw amount) differs from the later versions' slot value (the RLP of the amount's hash) |
| LegacyGuest.CommittedNullifierWasAbsent | program/src/main.rs:84-98 | a committed run has proven the absence of the slot of the nullifier it commits |
| Rlp.DecodeB256 | crates/alloy-wormhole/src/lib.rs:345-346 | a 32-byte string decodes exactly from `0xa0` and 32 bytes, and the input is its encoding followed by the rest |
| Rlp.B256CodecSound | crates/alloy-wormhole/src/lib.rs:328-329 | the 32-byte string codec decodes its own encoding and reports its length |
| WormholeTransaction.ProofLength | crates/alloy-wormhole/src/lib.rs:334-339 | the proof's length is the length of its encoding |
| WormholeTransaction.ProofRoundTrip | crates/alloy-wormhole/src/lib.rs:326-351 | decoding a proof's encoding gives the proof and leaves what followed |
| WormholeTransaction.ProofCodecSound | crates/alloy-wormhole/src/lib.rs:326-351 | the proof is itself a sound field codec |
| WormholeTransaction.EncodeProof | crates/alloy-wormhole/src/lib.rs:327-332 | appends exactly the proof's encoding to the buffer |
| WormholeTransaction.DecodeProof | crates/alloy-wormhole/src/lib.rs:342-351 | a decoded proof starts with its state root and nullifier, each as `0xa0` and 32 bytes |
| WormholeTransaction.ReadProof | crates/alloy-wormhole/src/lib.rs:342-351 | succeeds exactly when the proof decodes, and then leaves the cursor after it |
| WormholeTransaction.FieldsEncodingIsConcatenation | crates/alloy-wormhole/src/lib.rs:125-136 | appending the ten field encodings one by one appends the fields' encoding |
| WormholeTransaction.FieldsLength | crates/alloy-wormhole/src/lib.rs:110-121 | the fields' length is the length of exactly what `rlp_encode_fields` writes |
| WormholeTransaction.FieldsRoundTrip | crates/alloy-wormhole/src/lib.rs:125-171 | decoding the fields' encoding gives the transaction back and leaves what followed |
| WormholeTransaction.EncodeFields | crates/alloy-wormhole/src/lib.rs:125-136 | appends exactly the fields' encoding to the buffer |
| WormholeTransaction.DecodeFields | crates/alloy-wormhole/src/lib.rs:158-171 | the chain id is the first value read, and a decode fails when it cannot be read |
| WormholeTransaction.ReadFields | crates/alloy-wormhole/src/lib.rs:158-171 | succeeds exactly when the fields decode, and then leaves the cursor after them |
| WormholeTransaction.Cursor.Read | crates/alloy-wormhole/src/lib.rs:160-169 | a field read returns the decoded value and moves the cursor past it |
| WormholeTransaction.TxLength | crates/alloy-wormhole/src/lib.rs:302-304 | the encoded length is the length of the header and fields written |
| WormholeTransaction.Encode | crates/alloy-wormhole/src/lib.rs:298-300 | appends the list header of the fields' length, then the fields |
| WormholeTransaction.EncodeForSigning | crates/alloy-wormhole/src/lib.rs:287-290 | appends the type byte, then the encoding |
| WormholeTransaction.PayloadLenForSignature | crates/alloy-wormhole/src/lib.rs:292-294 | one more than the encoded length, which is the length of the signing payload |
| WormholeTransaction.SigningPayloadDecodes | crates/alloy-wormhole/src/lib.rs:287-294 | the signing payload starts with type 5, and after it and the header the fields decode to the transaction with nothing left |
| WormholeTransaction.SetChainId | crates/alloy-wormhole/src/lib.rs:283-285 | the chain id becomes the given one and no other field changes |
| WormholeTransaction.SetChainIdEncoding | crates/alloy-wormhole/src/lib.rs:283-285 | the re-encoded transaction decodes to the old one with only the chain id replaced |
| WormholeTransaction.EffectiveGasPrice | crates/alloy-wormhole/src/lib.rs:215-227 | the max fee without a base fee; otherwise min(max fee, priority fee + base fee); never above the max fee, and the sum stays within 128 bits |
| WormholeTransaction.EffectiveGasPriceBounds | crates/alloy-wormhole/src/lib.rs:215-227 | when the max fee covers the base fee, the price is at least the base fee and at most the base fee plus the priority fee |
| WormholeTransaction.FixedAccessors | crates/alloy-wormhole/src/lib.rs:174-280 | type 5, `is_type` always false, value 0, no gas price, no blob gas or hashes, a dynamic fee whose tip is the priority fee, `Some` chain id and access list |
| WormholeTransaction.Kind | crates/alloy-wormhole/src/lib.rs:259-262 | as written, every transaction reports a contract creation |
| WormholeTransaction.IsCreate | crates/alloy-wormhole/src/lib.rs:264-267 | a transaction is a creation exactly when `to`, read as a number, is zero |
| Primitives.FromBEZero | crates/alloy-wormhole/src/lib.rs:266 | a big-endian byte string is zero exactly when every byte is |
| WormholeTransaction.KindContradictsIsCreate | crates/alloy-wormhole/src/lib.rs:259-267 | for a non-zero `to`, `kind` reports a creation while `is_create` reports none |
| WormholeTransaction.KindCorrected | crates/alloy-wormhole/src/lib.rs:259-267 | a creation exactly when `is_create` holds, otherwise a call to `to` |

## Left out

- SHA-256, Keccak-256, `alloy_trie::verify_proof`, `TrieNode::decode` and the `TrieAccount` RLP are foreign library functions. They are uninterpreted parameters (`Trie.Oracles`), and `TrieNode` is reduced to whether a node is a leaf.
- The RLP of `u64`, `u128`, `Address`, `Bytes` and `AccessList` is library code. These codecs are parameters, and only their round trip and the length each reports are assumed (`Rlp.Sound`).
- The outer RLP list header is left out, and so is the type handling of `rlp_encode`/`rlp_decode` and `Decodable for WormholeTx`. The header is a parameter `ListHeader` that the encoding places before the fields. No decoder of the whole envelope is modelled.
- `WORMHOLE_NULLIFIER_ADDRESS` is not part of this model: its definition is not among the modelled files. It is the parameter `registry`.
- Two behaviours are left as the parameter `LegacyGuest.U256Addition`:
  - the overflow behaviour of the 256-bit `+` at program/src/main.rs:28, which belongs to the integer library;
  - whether `+` wraps or panics, which depends on the build profile.
- Reading the guest input and committing its public values (`sp1_zkvm::io`) become the function's parameter and its result.
- `TryRandom`: `getrandom` is the stream parameter `rng`. The loop ends only with probability 1, so some call that fails or yields a valid secret is a precondition. The source fills the same buffer in place on every call, and so does the model; nothing else about randomness is modelled.
- `WormholeSecret::random`, which unwraps `try_random`, is not modelled: it adds only the abort.
- Two parts of `WormholeProgramError` are not modelled:
  - the payloads of `Rlp` and `Proof`: they are library error values;
  - its `Display` text.
- `size()` is not modelled, because it depends on the in-memory sizes of library types.
- The serde derives and `Default` are left out.
- Several plain accessors are covered only by the record fields: `nonce`, `gas_limit`, `max_fee_per_gas` and `input`.
- `authorization_list`, which always returns `None`, is not modelled: the model has no authorization type.
- `WormholeTransaction.ReadFields` says nothing about the cursor after a failed decode. The library may have consumed part of the input, and every caller discards it.
- `WormholeTransaction.ReadProof` likewise says nothing about the cursor after a failed decode.
- The command-line tool, the input builders, the prover shims under `programs/` and the build script are out of scope: they do I/O and call external SDKs.

## Findings

| source | as written | input that shows it | evidently intended | confidence | as-written member | corrected member |
|---|---|---|---|---|---|---|
| crates/program/src/lib.rs:20-27 | aborts when withdraw + cumulative is below the deposit | deposit 1, withdraw 2, cumulative 0, index 0: completes; deposit 100, withdraw 10: aborts | abort when the total exceeds the deposit, as the panic message and crates/program-core/src/lib.rs:53 say | high; not executed | Program.OverdrawCompletes | Program.ExecuteIntended |
| program/src/main.rs:28 | plain 256-bit `+`, which wraps when overflow checks are off | withdraw 2^256 - 1, cumulative 1, deposit 0, index 1: the sum wraps to 0 and passes | reject an overflowing sum, as the later versions do with `checked_add` | medium (depends on the build profile); not executed | LegacyGuest.WrappedOverdrawCommits | LegacyGuest.CheckedCommitWithinDeposit |
| crates/alloy-wormhole/src/lib.rs:259-267 | `kind` is always a contract creation | any transaction whose `to` is non-zero: `kind` says create, `is_create` says no | derive `kind` from `to`, as `is_create` does | medium; not executed | WormholeTransaction.KindContradictsIsCreate | WormholeTransaction.KindCorrected |
