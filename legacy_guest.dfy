/** The first SP1 guest, `program/src/main.rs`, over `Sp1Input`
    (`crates/alloy-wormhole/src/sp1.rs`). Unlike the later versions it also
    proves that the current nullifier's slot is absent from the registry, it
    expects the previous slot to hold the cumulative amount itself (not its
    keccak256), and it adds the amounts with the plain `+` of the 256-bit integer
    type, whose overflow behaviour is the parameter `U256Addition`. Reading the
    input and committing the public values are a parameter and a result. */
module LegacyGuest {
  import opened Primitives
  import opened Secret
  import opened Trie
  import opened Guest

  datatype Sp1Input = Sp1Input(
    secret: WormholeSecret,
    depositAmount: U256,
    withdrawAmount: U256,
    cumulativeWithdrawnAmount: U256,
    withdrawalIndex: U256,
    stateRoot: Bytes32,
    depositAccountProof: seq<seq<byte>>,
    nullifierAccountProof: seq<seq<byte>>,
    previousNullifierStorageProof: seq<seq<byte>>,
    nullifierStorageProof: seq<seq<byte>>)

  /** What `+` on two 256-bit integers does when the sum overflows: wrap modulo
      2^256, or abort like an overflow check. */
  datatype U256Addition = Wrapping | Checked

  /** `a + b` on 256-bit integers; `None` is an abort. */
  function PlainAdd(mode: U256Addition, a: U256, b: U256): (r: Option<U256>)
    ensures mode == Wrapping ==> r.Some? && (a + b < U256_MODULUS ==> r.value == a + b)
    ensures mode == Wrapping && a + b >= U256_MODULUS ==> r.value == a + b - U256_MODULUS && r.value < a
    ensures mode == Checked ==> (r.Some? <==> a + b < U256_MODULUS) && (r.Some? ==> r.value == a + b)
  {
    match mode
    case Wrapping => Some((a + b) % U256_MODULUS)
    case Checked => CheckedAdd(a, b)
  }

  /** A value committed to the public output, with the type it is written as. */
  datatype PublicValue = B256Value(hash: Bytes32) | U256Value(amount: U256)

  /** A run commits its public values in order, or aborts at one guard. */
  datatype Execution = Committed(values: seq<PublicValue>) | Panic(at: Abort)

  /** The storage value the legacy registry holds at a nullifier's slot: the RLP of
      the cumulative amount as a scalar. */
  function LegacySlotValue(cumulative: U256): seq<byte> {
    RlpU256(cumulative)
  }

  /** Every proof the legacy guest checks holds: the ones shared with the later
      versions (with the raw-amount slot value), and the absence of the current
      nullifier's slot under the registry's storage root. */
  ghost predicate ProofsHold(o: Oracles, registry: Address, input: Sp1Input) {
    && DepositProven(o, input.stateRoot, input.secret, input.depositAmount, input.depositAccountProof)
    && RegistryProven(o, input.stateRoot, registry, input.nullifierAccountProof,
                      input.secret, input.withdrawalIndex,
                      LegacySlotValue(input.cumulativeWithdrawnAmount),
                      input.previousNullifierStorageProof)
    && CurrentNullifierAbsent(o, input)
  }

  /** The exclusion proof of the current nullifier's slot, under the storage root of
      the registry account its proof claims. */
  ghost predicate CurrentNullifierAbsent(o: Oracles, input: Sp1Input) {
    match ClaimedAccount(o, input.nullifierAccountProof)
    case None => false
    case Some((_, account)) =>
      o.verifyProof(account.storageRoot, NullifierSlotKey(o, input.secret, input.withdrawalIndex),
                    None, input.nullifierStorageProof)
  }

  /** `main`: the secret, the index-0 rules, the sum against the deposit, the shared
      proof checks, the exclusion proof; then the state root, the current nullifier
      and the withdrawn amount are committed. */
  function Main(o: Oracles, registry: Address, mode: U256Addition, input: Sp1Input): (r: Execution)
    ensures r.Committed? <==>
      && IsValid(o.sha256, input.secret)
      && FirstWithdrawalConsistent(input.withdrawalIndex, input.cumulativeWithdrawnAmount, input.previousNullifierStorageProof)
      && PlainAdd(mode, input.withdrawAmount, input.cumulativeWithdrawnAmount).Some?
      && PlainAdd(mode, input.withdrawAmount, input.cumulativeWithdrawnAmount).value <= input.depositAmount
      && ProofsHold(o, registry, input)
    ensures r.Committed? ==> r.values == [
      B256Value(input.stateRoot),
      B256Value(Nullifier(o.sha256, input.secret, input.withdrawalIndex)),
      U256Value(input.withdrawAmount)]
    ensures r == Panic(CurrentNullifierNotAbsent) ==> !CurrentNullifierAbsent(o, input)
  {
    if !IsValid(o.sha256, input.secret) then Panic(SecretInvalid)
    else if input.withdrawalIndex == 0 && input.cumulativeWithdrawnAmount != 0 then Panic(CumulativeNotZeroAtFirst)
    else if input.withdrawalIndex == 0 && input.previousNullifierStorageProof != [] then Panic(PreviousProofNotEmptyAtFirst)
    else match PlainAdd(mode, input.withdrawAmount, input.cumulativeWithdrawnAmount)
    case None => Panic(WithdrawSumOverflow)
    case Some(total) =>
      if total > input.depositAmount then Panic(WithdrawExceedsDeposit)
      else ProveAndCommit(o, registry, input)
  }

  /** The proof checks of `main`, the exclusion proof last, then the commitment. */
  function ProveAndCommit(o: Oracles, registry: Address, input: Sp1Input): (r: Execution)
    ensures r.Committed? <==> ProofsHold(o, registry, input)
    ensures r.Committed? ==> r.values == [
      B256Value(input.stateRoot),
      B256Value(Nullifier(o.sha256, input.secret, input.withdrawalIndex)),
      U256Value(input.withdrawAmount)]
    ensures r == Panic(CurrentNullifierNotAbsent) ==> !CurrentNullifierAbsent(o, input)
  {
    match CheckProofs(o, input.stateRoot, input.secret, input.depositAmount, input.depositAccountProof,
                      registry, input.nullifierAccountProof, input.withdrawalIndex,
                      LegacySlotValue(input.cumulativeWithdrawnAmount), input.previousNullifierStorageProof)
    case Err(site) => Panic(site)
    case Ok(account) =>
      if !o.verifyProof(account.storageRoot, NullifierSlotKey(o, input.secret, input.withdrawalIndex),
                        None, input.nullifierStorageProof)
      then Panic(CurrentNullifierNotAbsent)
      else Committed([B256Value(input.stateRoot),
                      B256Value(Nullifier(o.sha256, input.secret, input.withdrawalIndex)),
                      U256Value(input.withdrawAmount)])
  }

  /** With a checked `+`, a committed withdrawal keeps the total within the deposit. */
  lemma CheckedCommitWithinDeposit(o: Oracles, registry: Address, input: Sp1Input)
    requires Main(o, registry, Checked, input).Committed?
    ensures input.withdrawAmount + input.cumulativeWithdrawnAmount <= input.depositAmount
  {
  }

  /** With a wrapping `+`, a withdrawal of 2^256 - 1 wei on top of 1 wei already
      withdrawn sums to 0 and passes the deposit guard even for an empty deposit:
      it is committed whenever its proofs hold. A checked `+` aborts it. */
  lemma WrappedOverdrawCommits(o: Oracles, registry: Address, input: Sp1Input)
    requires IsValid(o.sha256, input.secret)
    requires input.depositAmount == 0 && input.withdrawAmount == U256_MODULUS - 1
    requires input.cumulativeWithdrawnAmount == 1 && input.withdrawalIndex == 1
    requires ProofsHold(o, registry, input)
    ensures Main(o, registry, Wrapping, input).Committed?
    ensures Main(o, registry, Checked, input) == Panic(WithdrawSumOverflow)
  {
    WrappedSumPassesGuard(o, registry, input);
    CheckedSumAborts(o, registry, input);
  }

  /** A sum that wraps to at most the deposit reaches the proofs of `main`. */
  lemma WrappedSumPassesGuard(o: Oracles, registry: Address, input: Sp1Input)
    requires IsValid(o.sha256, input.secret) && input.withdrawalIndex != 0
    requires U256_MODULUS <= input.withdrawAmount + input.cumulativeWithdrawnAmount <= U256_MODULUS + input.depositAmount
    ensures Main(o, registry, Wrapping, input) == ProveAndCommit(o, registry, input)
  {
  }

  /** A sum beyond 256 bits aborts `main` under a checked `+`. */
  lemma CheckedSumAborts(o: Oracles, registry: Address, input: Sp1Input)
    requires IsValid(o.sha256, input.secret) && input.withdrawalIndex != 0
    requires input.withdrawAmount + input.cumulativeWithdrawnAmount >= U256_MODULUS
    ensures Main(o, registry, Checked, input) == Panic(WithdrawSumOverflow)
  {
  }

  /** The registry value this guest expects at the previous slot never equals the
      one the later versions expect for any amount below 2^248 (every amount up to
      far beyond `MAX_DEPOSIT`): a registry written for one cannot serve the other. */
  lemma SlotValueFormatsDiffer(o: Oracles, cumulative: U256)
    requires cumulative < Pow256(31)
    ensures LegacySlotValue(cumulative) != RlpB256(HashedCumulative(o, cumulative))
  {
    RawAndHashedSlotValuesDiffer(cumulative, HashedCumulative(o, cumulative));
  }

  /** A committed run has proven that the slot of the nullifier it commits is absent. */
  lemma CommittedNullifierWasAbsent(o: Oracles, registry: Address, mode: U256Addition, input: Sp1Input)
    requires Main(o, registry, mode, input).Committed?
    ensures CurrentNullifierAbsent(o, input)
    ensures Main(o, registry, mode, input).values[1] == B256Value(Nullifier(o.sha256, input.secret, input.withdrawalIndex))
  {
  }
}
