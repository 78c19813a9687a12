/** `execute_wormhole_program` of `crates/program-core/src/lib.rs`, the version that
    returns `Result` (the SP1 entry point runs it). A run ends in an output, an
    error value, or an abort: the index-0 rules and the empty registry proof panic
    rather than return an error. */
module ProgramCore {
  import opened Primitives
  import opened Secret
  import opened Trie
  import opened Guest

  datatype WormholeProgramInput = WormholeProgramInput(
    secret: WormholeSecret,
    depositAmount: U256,
    withdrawAmount: U256,
    cumulativeWithdrawnAmount: U256,
    withdrawalIndex: U256,
    stateRoot: Bytes32,
    depositAccountProof: seq<seq<byte>>,
    nullifierAddress: Address,
    nullifierAccountProof: seq<seq<byte>>,
    previousNullifierStorageProof: seq<seq<byte>>)

  datatype WormholeProgramOutput = WormholeProgramOutput(
    nullifierAddress: Address,
    stateRoot: Bytes32,
    withdrawAmount: U256,
    currentNullifier: Bytes32,
    cumulativeWithdrawnAmountHashed: Bytes32)

  /** `WormholeProgramError`; the payloads of `Rlp` and `Proof` come from the
      foreign decoders and verifier and are not modelled. */
  datatype WormholeProgramError = InvalidSecret | InvalidWithdrawAmount | NullifierAccountMissing | Rlp | Proof

  /** A run either returns the function's `Result` or aborts. */
  datatype Execution =
    | Returned(result: Result<WormholeProgramOutput, WormholeProgramError>)
    | Panic(at: Abort)
  {
    predicate Succeeded() { Returned? && result.Ok? }
  }

  /** The withdrawal-accounting rule: a positive amount that keeps the running total
      within the deposit (in unbounded arithmetic, so an overflowing sum fails it). */
  predicate AccountingHolds(withdraw: U256, cumulative: U256, deposit: U256) {
    0 < withdraw && withdraw + cumulative <= deposit
  }

  /** Every condition a successful run checks, as one conjunction with no order. */
  ghost predicate Accepts(o: Oracles, input: WormholeProgramInput) {
    && IsValid(o.sha256, input.secret)
    && AccountingHolds(input.withdrawAmount, input.cumulativeWithdrawnAmount, input.depositAmount)
    && FirstWithdrawalConsistent(input.withdrawalIndex, input.cumulativeWithdrawnAmount, input.previousNullifierStorageProof)
    && DepositProven(o, input.stateRoot, input.secret, input.depositAmount, input.depositAccountProof)
    && RegistryProven(o, input.stateRoot, input.nullifierAddress, input.nullifierAccountProof,
                      input.secret, input.withdrawalIndex,
                      RlpB256(HashedCumulative(o, input.cumulativeWithdrawnAmount)),
                      input.previousNullifierStorageProof)
  }

  /** The secret, the amount rules and the index-0 rules hold: a run reaches the proofs. */
  predicate ReachesProofs(o: Oracles, input: WormholeProgramInput) {
    && IsValid(o.sha256, input.secret)
    && AccountingHolds(input.withdrawAmount, input.cumulativeWithdrawnAmount, input.depositAmount)
    && FirstWithdrawalConsistent(input.withdrawalIndex, input.cumulativeWithdrawnAmount, input.previousNullifierStorageProof)
  }

  /** A proof that `verify_proof` rejects: the deposit account's, or, once the
      registry account has been read from its leaf, the registry account's or the
      previous slot's. */
  ghost predicate ProofRejected(o: Oracles, input: WormholeProgramInput) {
    || !DepositProven(o, input.stateRoot, input.secret, input.depositAmount, input.depositAccountProof)
    || (&& ClaimedAccount(o, input.nullifierAccountProof).Some?
        && !RegistryProven(o, input.stateRoot, input.nullifierAddress, input.nullifierAccountProof,
                           input.secret, input.withdrawalIndex,
                           RlpB256(HashedCumulative(o, input.cumulativeWithdrawnAmount)),
                           input.previousNullifierStorageProof))
  }

  /** The amount guards: a zero amount, a sum that overflows 256 bits (`checked_add`)
      and a sum above the deposit are each rejected. */
  function AmountAccepted(withdraw: U256, cumulative: U256, deposit: U256): (ok: bool)
    ensures ok <==> AccountingHolds(withdraw, cumulative, deposit)
  {
    if withdraw == 0 then false
    else match CheckedAdd(withdraw, cumulative)
      case None => false
      case Some(nextCumulative) => nextCumulative <= deposit
  }

  /** The error value into which the `?` operator turns a failed proof check;
      only an empty registry proof aborts instead (`last().unwrap()`). */
  function ProofError(site: Abort): (e: WormholeProgramError)
    ensures e == NullifierAccountMissing <==> site == NullifierAccountNotLeaf
    ensures e == Rlp <==> site in {NullifierNodeUndecodable, NullifierAccountUndecodable}
    ensures e == Proof <==> site !in {NullifierAccountNotLeaf, NullifierNodeUndecodable, NullifierAccountUndecodable}
  {
    match site
    case NullifierAccountNotLeaf => NullifierAccountMissing
    case NullifierNodeUndecodable => Rlp
    case NullifierAccountUndecodable => Rlp
    case _ => Proof
  }

  /** The proof checks after the index-0 rules, then the output. */
  function VerifyProofs(o: Oracles, input: WormholeProgramInput): (r: Execution)
    ensures r.Succeeded() <==>
      && DepositProven(o, input.stateRoot, input.secret, input.depositAmount, input.depositAccountProof)
      && RegistryProven(o, input.stateRoot, input.nullifierAddress, input.nullifierAccountProof,
                        input.secret, input.withdrawalIndex,
                        RlpB256(HashedCumulative(o, input.cumulativeWithdrawnAmount)),
                        input.previousNullifierStorageProof)
    ensures r.Succeeded() ==>
      && r.result.value.nullifierAddress == input.nullifierAddress
      && r.result.value.stateRoot == input.stateRoot
      && r.result.value.withdrawAmount == input.withdrawAmount
      && r.result.value.currentNullifier == Nullifier(o.sha256, input.secret, input.withdrawalIndex)
      && r.result.value.cumulativeWithdrawnAmountHashed == o.keccak256(BE32(input.cumulativeWithdrawnAmount))
    ensures r.Panic? <==> DepositProven(o, input.stateRoot, input.secret, input.depositAmount, input.depositAccountProof)
                          && input.nullifierAccountProof == []
    ensures r.Panic? ==> r.at == NullifierProofEmpty
    ensures r.Returned? && r.result.Err? ==> r.result.error in {NullifierAccountMissing, Rlp, Proof}
    ensures r == Returned(Err(NullifierAccountMissing)) <==>
      DepositProven(o, input.stateRoot, input.secret, input.depositAmount, input.depositAccountProof)
      && LastNodeNotLeaf(o, input.nullifierAccountProof)
    ensures r == Returned(Err(Rlp)) <==>
      DepositProven(o, input.stateRoot, input.secret, input.depositAmount, input.depositAccountProof)
      && (LastNodeUndecodable(o, input.nullifierAccountProof) || LeafAccountUndecodable(o, input.nullifierAccountProof))
    ensures r == Returned(Err(Proof)) <==> ProofRejected(o, input)
  {
    var hashed := HashedCumulative(o, input.cumulativeWithdrawnAmount);
    match CheckProofs(o, input.stateRoot, input.secret, input.depositAmount, input.depositAccountProof,
                      input.nullifierAddress, input.nullifierAccountProof,
                      input.withdrawalIndex, RlpB256(hashed), input.previousNullifierStorageProof)
    case Err(NullifierProofEmpty) => Panic(NullifierProofEmpty)
    case Err(site) => Returned(Err(ProofError(site)))
    case Ok(_) => Returned(Ok(WormholeProgramOutput(
      input.nullifierAddress, input.stateRoot, input.withdrawAmount,
      Nullifier(o.sha256, input.secret, input.withdrawalIndex), hashed)))
  }

  /** `execute_wormhole_program`: the secret, the amount, the index-0 rules, then the proofs. */
  function Execute(o: Oracles, input: WormholeProgramInput): (r: Execution)
    ensures r.Succeeded() <==> Accepts(o, input)
    ensures r.Succeeded() ==>
      && r.result.value.nullifierAddress == input.nullifierAddress
      && r.result.value.stateRoot == input.stateRoot
      && r.result.value.withdrawAmount == input.withdrawAmount
      && r.result.value.currentNullifier == Nullifier(o.sha256, input.secret, input.withdrawalIndex)
      && r.result.value.cumulativeWithdrawnAmountHashed == o.keccak256(BE32(input.cumulativeWithdrawnAmount))
    ensures r == Returned(Err(InvalidSecret)) <==> !IsValid(o.sha256, input.secret)
    ensures r == Returned(Err(InvalidWithdrawAmount)) <==>
      IsValid(o.sha256, input.secret) && !AccountingHolds(input.withdrawAmount, input.cumulativeWithdrawnAmount, input.depositAmount)
    ensures r.Panic? ==> r.at in {CumulativeNotZeroAtFirst, PreviousProofNotEmptyAtFirst, NullifierProofEmpty}
    ensures r == Panic(CumulativeNotZeroAtFirst) <==>
      && IsValid(o.sha256, input.secret)
      && AccountingHolds(input.withdrawAmount, input.cumulativeWithdrawnAmount, input.depositAmount)
      && input.withdrawalIndex == 0 && input.cumulativeWithdrawnAmount != 0
    ensures r == Panic(PreviousProofNotEmptyAtFirst) <==>
      && IsValid(o.sha256, input.secret)
      && AccountingHolds(input.withdrawAmount, input.cumulativeWithdrawnAmount, input.depositAmount)
      && input.withdrawalIndex == 0 && input.cumulativeWithdrawnAmount == 0
      && input.previousNullifierStorageProof != []
    ensures r == Panic(NullifierProofEmpty) <==>
      && ReachesProofs(o, input)
      && DepositProven(o, input.stateRoot, input.secret, input.depositAmount, input.depositAccountProof)
      && input.nullifierAccountProof == []
    ensures r == Returned(Err(NullifierAccountMissing)) <==>
      && ReachesProofs(o, input)
      && DepositProven(o, input.stateRoot, input.secret, input.depositAmount, input.depositAccountProof)
      && LastNodeNotLeaf(o, input.nullifierAccountProof)
    ensures r == Returned(Err(Rlp)) <==>
      && ReachesProofs(o, input)
      && DepositProven(o, input.stateRoot, input.secret, input.depositAmount, input.depositAccountProof)
      && (LastNodeUndecodable(o, input.nullifierAccountProof) || LeafAccountUndecodable(o, input.nullifierAccountProof))
    ensures r == Returned(Err(Proof)) <==> ReachesProofs(o, input) && ProofRejected(o, input)
  {
    if !IsValid(o.sha256, input.secret) then Returned(Err(InvalidSecret))
    else if !AmountAccepted(input.withdrawAmount, input.cumulativeWithdrawnAmount, input.depositAmount)
    then Returned(Err(InvalidWithdrawAmount))
    else if input.withdrawalIndex == 0 && input.cumulativeWithdrawnAmount != 0 then Panic(CumulativeNotZeroAtFirst)
    else if input.withdrawalIndex == 0 && input.previousNullifierStorageProof != [] then Panic(PreviousProofNotEmptyAtFirst)
    else VerifyProofs(o, input)
  }

  /** A sum of exactly the deposit passes the accounting guards; one more wei does not. */
  lemma AccountingBoundary(o: Oracles, input: WormholeProgramInput)
    requires IsValid(o.sha256, input.secret) && 0 < input.withdrawAmount
    ensures input.withdrawAmount + input.cumulativeWithdrawnAmount == input.depositAmount ==>
      Execute(o, input) != Returned(Err(InvalidWithdrawAmount))
    ensures input.withdrawAmount + input.cumulativeWithdrawnAmount == input.depositAmount + 1 ==>
      Execute(o, input) == Returned(Err(InvalidWithdrawAmount))
  {
  }

  /** A sum beyond 256 bits is an `InvalidWithdrawAmount` error, never a wrapped total. */
  lemma OverflowIsAnError(o: Oracles, input: WormholeProgramInput)
    requires IsValid(o.sha256, input.secret) && 0 < input.withdrawAmount
    requires input.withdrawAmount + input.cumulativeWithdrawnAmount >= U256_MODULUS
    ensures Execute(o, input) == Returned(Err(InvalidWithdrawAmount))
  {
  }

  /** The input `WormholeProgramInput::default()` of the tests: an empty secret,
      zero amounts and index, a zero root and address, and no proofs. */
  const DEFAULT_INPUT: WormholeProgramInput :=
    WormholeProgramInput(WormholeSecret([]), 0, 0, 0, 0, seq(32, i => 0), [], seq(20, i => 0), [], [])

  /** The test `invalid_secret`, given that SHA-256 does not make the empty and the
      three-byte secret valid (which the test observes of the real digest). */
  lemma InvalidSecretTest(o: Oracles)
    requires !IsValid(o.sha256, WormholeSecret([]))
    requires !IsValid(o.sha256, NewUnchecked([0x1, 0x2, 0x3]))
    ensures Execute(o, DEFAULT_INPUT) == Returned(Err(InvalidSecret))
    ensures Execute(o, DEFAULT_INPUT.(secret := NewUnchecked([0x1, 0x2, 0x3]))) == Returned(Err(InvalidSecret))
  {
  }

  /** The test `invalid_withdraw_amount`, given that `TEST_SECRET` is valid: a zero
      amount, an overflowing sum and a sum above the deposit are all rejected. */
  lemma InvalidWithdrawAmountTest(o: Oracles)
    requires TestSecretIsValid(o.sha256)
    ensures var input := DEFAULT_INPUT.(secret := TEST_SECRET);
      && Execute(o, input) == Returned(Err(InvalidWithdrawAmount))
      && Execute(o, input.(cumulativeWithdrawnAmount := U256_MODULUS - 1, withdrawAmount := 2, depositAmount := 2))
         == Returned(Err(InvalidWithdrawAmount))
      && Execute(o, input.(cumulativeWithdrawnAmount := 0, withdrawAmount := 2, depositAmount := 1))
         == Returned(Err(InvalidWithdrawAmount))
  {
  }

  /** A chain of accepted withdrawals from one deposit, each claiming as its
      cumulative amount the total of the ones before it, never withdraws more than
      the deposit, and since each withdraws at least one wei there are at most
      `deposit` of them. */
  lemma AcceptedChainWithinDeposit(o: Oracles, runs: seq<WormholeProgramInput>, deposit: U256)
    requires forall k :: 0 <= k < |runs| ==> Succeeds(o, runs[k])
    requires forall k :: 0 <= k < |runs| ==> runs[k].depositAmount == deposit
    requires forall k :: 0 <= k < |runs| ==> runs[k].cumulativeWithdrawnAmount == Sum(Withdrawn(runs[..k]))
    ensures Sum(Withdrawn(runs)) <= deposit
    ensures |runs| <= deposit
  {
    forall k | 0 <= k < |runs|
      ensures 0 < runs[k].withdrawAmount && runs[k].withdrawAmount + runs[k].cumulativeWithdrawnAmount <= deposit
    {
      SucceededWithinDeposit(o, runs[k]);
    }
    ChainWithinDeposit(runs, deposit);
  }

  /** Positive withdrawals that each keep their claimed total within the deposit,
      each claiming the total of the ones before it, stay within the deposit. */
  lemma ChainWithinDeposit(runs: seq<WormholeProgramInput>, deposit: U256)
    requires forall k :: 0 <= k < |runs| ==>
      0 < runs[k].withdrawAmount && runs[k].withdrawAmount + runs[k].cumulativeWithdrawnAmount <= deposit
    requires forall k :: 0 <= k < |runs| ==> runs[k].cumulativeWithdrawnAmount == Sum(Withdrawn(runs[..k]))
    ensures Sum(Withdrawn(runs)) <= deposit
    ensures |runs| <= deposit
  {
    var amounts := Withdrawn(runs);
    forall k | 0 <= k < |amounts|
      ensures 0 < amounts[k] && Sum(amounts[..k]) + amounts[k] <= deposit
    {
      WithdrawnPrefix(runs, k);
    }
    RunningTotalsWithinDeposit(amounts, deposit);
  }

  lemma WithdrawnPrefix(runs: seq<WormholeProgramInput>, k: nat)
    requires k <= |runs|
    ensures Withdrawn(runs)[..k] == Withdrawn(runs[..k])
  {
  }

  /** The run on `input` returns an output. */
  predicate Succeeds(o: Oracles, input: WormholeProgramInput) {
    Execute(o, input).Succeeded()
  }

  /** A successful run withdraws a positive amount that keeps the total within the deposit. */
  lemma SucceededWithinDeposit(o: Oracles, input: WormholeProgramInput)
    requires Succeeds(o, input)
    ensures 0 < input.withdrawAmount
    ensures input.withdrawAmount + input.cumulativeWithdrawnAmount <= input.depositAmount
  {
  }

  /** The amounts of a run of withdrawals. */
  function Withdrawn(runs: seq<WormholeProgramInput>): (amounts: seq<U256>)
    ensures |amounts| == |runs|
    ensures forall k :: 0 <= k < |runs| ==> amounts[k] == runs[k].withdrawAmount
  {
    if runs == [] then [] else Withdrawn(runs[..|runs| - 1]) + [runs[|runs| - 1].withdrawAmount]
  }

  /** The scenario of three withdrawals from a deposit of 100 with one secret: 10 at
      index 0 is accepted and commits the nullifier of index 0; 50 at index 1, with
      the registry holding the hash of 10 at the previous slot, is accepted and
      commits the nullifier of index 1; 41 on top of 60 overdraws and is rejected.
      The first two runs prove their accounts under their own state roots. */
  lemma ThreeWithdrawalScenario(
    o: Oracles, secret: WormholeSecret, registry: Address,
    root0: Bytes32, depositProof0: seq<seq<byte>>, accountProof0: seq<seq<byte>>,
    root1: Bytes32, depositProof1: seq<seq<byte>>, accountProof1: seq<seq<byte>>,
    previousProof1: seq<seq<byte>>)
    requires IsValid(o.sha256, secret)
    requires DepositProven(o, root0, secret, 100, depositProof0)
    requires RegistryProven(o, root0, registry, accountProof0, secret, 0, RlpB256(HashedCumulative(o, 0)), [])
    requires DepositProven(o, root1, secret, 100, depositProof1)
    requires RegistryProven(o, root1, registry, accountProof1, secret, 1, RlpB256(HashedCumulative(o, 10)), previousProof1)
    ensures var r := Execute(o, WormholeProgramInput(secret, 100, 10, 0, 0, root0, depositProof0, registry, accountProof0, []));
      r.Succeeded() && r.result.value.currentNullifier == Nullifier(o.sha256, secret, 0)
      && r.result.value.withdrawAmount == 10
    ensures var r := Execute(o, WormholeProgramInput(secret, 100, 50, 10, 1, root1, depositProof1, registry, accountProof1, previousProof1));
      r.Succeeded() && r.result.value.currentNullifier == Nullifier(o.sha256, secret, 1)
      && r.result.value.withdrawAmount == 50 && r.result.value.cumulativeWithdrawnAmountHashed == HashedCumulative(o, 10)
    ensures Execute(o, WormholeProgramInput(secret, 100, 41, 60, 2, root1, depositProof1, registry, accountProof1, previousProof1))
      == Returned(Err(InvalidWithdrawAmount))
  {
  }
}
