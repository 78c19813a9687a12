/** `execute_wormhole_program` of `crates/program/src/lib.rs`: the version in
    which every failed check aborts the run (`assert!`, `panic!`, `unwrap`,
    `expect`) and the registry address is the constant `WORMHOLE_NULLIFIER_ADDRESS`,
    a parameter `registry` here. Its deposit guard aborts when the new total is
    BELOW the deposit; `ExecuteIntended` is the same program with the guard the
    message and the other versions call for (abort when the total is ABOVE it). */
module Program {
  import opened Primitives
  import opened Secret
  import opened Trie
  import opened Guest
  import ProgramCore

  datatype WormholeProgramInput = WormholeProgramInput(
    secret: WormholeSecret,
    depositAmount: U256,
    withdrawAmount: U256,
    cumulativeWithdrawnAmount: U256,
    withdrawalIndex: U256,
    stateRoot: Bytes32,
    depositAccountProof: seq<seq<byte>>,
    nullifierAccountProof: seq<seq<byte>>,
    previousNullifierStorageProof: seq<seq<byte>>)

  datatype WormholeProgramOutput = WormholeProgramOutput(
    stateRoot: Bytes32,
    withdrawAmount: U256,
    currentNullifier: Bytes32,
    cumulativeWithdrawnAmountHashed: Bytes32)

  /** A run returns its output or aborts at one guard. */
  datatype Execution = Completed(output: WormholeProgramOutput) | Panic(at: Abort)

  /** Which comparison the deposit guard makes. */
  datatype DepositGuard = AsWritten | Intended

  /** Whether the deposit guard aborts on the new total `total`. */
  predicate Exceeds(guard: DepositGuard, total: nat, deposit: U256) {
    match guard
    case AsWritten => total < deposit
    case Intended => total > deposit
  }

  /** The output every completed run returns. */
  function Output(o: Oracles, input: WormholeProgramInput): WormholeProgramOutput {
    WormholeProgramOutput(input.stateRoot, input.withdrawAmount,
                          Nullifier(o.sha256, input.secret, input.withdrawalIndex),
                          HashedCumulative(o, input.cumulativeWithdrawnAmount))
  }

  /** The proof checks of this version, with the registry at `registry`. */
  function Proofs(o: Oracles, registry: Address, input: WormholeProgramInput): Result<TrieAccount, Abort> {
    CheckProofs(o, input.stateRoot, input.secret, input.depositAmount, input.depositAccountProof,
                registry, input.nullifierAccountProof, input.withdrawalIndex,
                RlpB256(HashedCumulative(o, input.cumulativeWithdrawnAmount)),
                input.previousNullifierStorageProof)
  }

  /** Every proof this version checks holds. */
  ghost predicate ProofsHold(o: Oracles, registry: Address, input: WormholeProgramInput) {
    && DepositProven(o, input.stateRoot, input.secret, input.depositAmount, input.depositAccountProof)
    && RegistryProven(o, input.stateRoot, registry, input.nullifierAccountProof,
                      input.secret, input.withdrawalIndex,
                      RlpB256(HashedCumulative(o, input.cumulativeWithdrawnAmount)),
                      input.previousNullifierStorageProof)
  }

  /** The guards in source order: the secret, the index-0 rules, the overflow of the
      new total (`unwrap` of `checked_add`), the deposit guard, then the proofs. */
  function Run(o: Oracles, registry: Address, input: WormholeProgramInput, guard: DepositGuard): (r: Execution)
    ensures r.Completed? <==>
      && IsValid(o.sha256, input.secret)
      && FirstWithdrawalConsistent(input.withdrawalIndex, input.cumulativeWithdrawnAmount, input.previousNullifierStorageProof)
      && input.withdrawAmount + input.cumulativeWithdrawnAmount < U256_MODULUS
      && !Exceeds(guard, input.withdrawAmount + input.cumulativeWithdrawnAmount, input.depositAmount)
      && ProofsHold(o, registry, input)
    ensures r.Completed? ==> r.output == Output(o, input)
    ensures r == Panic(SecretInvalid) <==> !IsValid(o.sha256, input.secret)
    ensures r == Panic(WithdrawSumOverflow) <==>
      && IsValid(o.sha256, input.secret)
      && FirstWithdrawalConsistent(input.withdrawalIndex, input.cumulativeWithdrawnAmount, input.previousNullifierStorageProof)
      && input.withdrawAmount + input.cumulativeWithdrawnAmount >= U256_MODULUS
    ensures r == Panic(WithdrawExceedsDeposit) <==>
      && IsValid(o.sha256, input.secret)
      && FirstWithdrawalConsistent(input.withdrawalIndex, input.cumulativeWithdrawnAmount, input.previousNullifierStorageProof)
      && input.withdrawAmount + input.cumulativeWithdrawnAmount < U256_MODULUS
      && Exceeds(guard, input.withdrawAmount + input.cumulativeWithdrawnAmount, input.depositAmount)
  {
    if !IsValid(o.sha256, input.secret) then Panic(SecretInvalid)
    else if input.withdrawalIndex == 0 && input.cumulativeWithdrawnAmount != 0 then Panic(CumulativeNotZeroAtFirst)
    else if input.withdrawalIndex == 0 && input.previousNullifierStorageProof != [] then Panic(PreviousProofNotEmptyAtFirst)
    else match CheckedAdd(input.withdrawAmount, input.cumulativeWithdrawnAmount)
    case None => Panic(WithdrawSumOverflow)
    case Some(nextCumulative) =>
      if Exceeds(guard, nextCumulative, input.depositAmount) then Panic(WithdrawExceedsDeposit)
      else match Proofs(o, registry, input)
        case Err(site) => Panic(site)
        case Ok(_) => Completed(Output(o, input))
  }

  /** `execute_wormhole_program` as written: the run aborts when the new total is
      below the deposit, so it completes only when the total reaches the deposit. */
  function Execute(o: Oracles, registry: Address, input: WormholeProgramInput): (r: Execution)
    ensures r.Completed? ==> input.withdrawAmount + input.cumulativeWithdrawnAmount >= input.depositAmount
    ensures r.Completed? <==>
      && IsValid(o.sha256, input.secret)
      && FirstWithdrawalConsistent(input.withdrawalIndex, input.cumulativeWithdrawnAmount, input.previousNullifierStorageProof)
      && input.depositAmount <= input.withdrawAmount + input.cumulativeWithdrawnAmount < U256_MODULUS
      && ProofsHold(o, registry, input)
    ensures r.Completed? ==> r.output == Output(o, input)
  {
    Run(o, registry, input, AsWritten)
  }

  /** The program with the deposit guard reversed: it completes only when the new
      total stays within the deposit, and then returns the same output. */
  function ExecuteIntended(o: Oracles, registry: Address, input: WormholeProgramInput): (r: Execution)
    ensures r.Completed? ==> input.withdrawAmount + input.cumulativeWithdrawnAmount <= input.depositAmount
    ensures r.Completed? <==>
      && IsValid(o.sha256, input.secret)
      && FirstWithdrawalConsistent(input.withdrawalIndex, input.cumulativeWithdrawnAmount, input.previousNullifierStorageProof)
      && input.withdrawAmount + input.cumulativeWithdrawnAmount <= input.depositAmount
      && ProofsHold(o, registry, input)
    ensures r.Completed? ==> r.output == Output(o, input)
  {
    Run(o, registry, input, Intended)
  }

  /** As written, an honest partial withdrawal (a positive amount that leaves part
      of the deposit unwithdrawn) always aborts at the deposit guard. */
  lemma PartialWithdrawalAborts(o: Oracles, registry: Address, input: WormholeProgramInput)
    requires IsValid(o.sha256, input.secret)
    requires FirstWithdrawalConsistent(input.withdrawalIndex, input.cumulativeWithdrawnAmount, input.previousNullifierStorageProof)
    requires 0 < input.withdrawAmount && input.withdrawAmount + input.cumulativeWithdrawnAmount < input.depositAmount
    ensures Execute(o, registry, input) == Panic(WithdrawExceedsDeposit)
    ensures ExecuteIntended(o, registry, input) != Panic(WithdrawExceedsDeposit)
  {
    assert Run(o, registry, input, AsWritten) == Panic(WithdrawExceedsDeposit);
  }

  /** As written, an overdraw passes every amount guard: a first withdrawal of 2 wei
      from a 1-wei deposit completes whenever its proofs hold; the intended
      version aborts it at the deposit guard. */
  lemma OverdrawCompletes(o: Oracles, registry: Address, input: WormholeProgramInput)
    requires IsValid(o.sha256, input.secret)
    requires input.depositAmount == 1 && input.withdrawAmount == 2
    requires input.cumulativeWithdrawnAmount == 0 && input.withdrawalIndex == 0 && input.previousNullifierStorageProof == []
    requires ProofsHold(o, registry, input)
    ensures Execute(o, registry, input) == Completed(Output(o, input))
    ensures ExecuteIntended(o, registry, input) == Panic(WithdrawExceedsDeposit)
  {
    assert Run(o, registry, input, Intended) == Panic(WithdrawExceedsDeposit);
  }

  /** The two versions of the guard agree only on withdrawals that exactly use up the deposit. */
  lemma BothCompleteOnlyAtExactDeposit(o: Oracles, registry: Address, input: WormholeProgramInput)
    requires Execute(o, registry, input).Completed? && ExecuteIntended(o, registry, input).Completed?
    ensures input.withdrawAmount + input.cumulativeWithdrawnAmount == input.depositAmount
  {
  }

  /** The same withdrawal as an input of the `Result`-returning version, with the
      registry address as its `nullifier_address`. */
  function AsCoreInput(registry: Address, input: WormholeProgramInput): (c: ProgramCore.WormholeProgramInput)
    ensures c.nullifierAddress == registry && c.secret == input.secret && c.withdrawalIndex == input.withdrawalIndex
    ensures && c.depositAmount == input.depositAmount && c.withdrawAmount == input.withdrawAmount
            && c.cumulativeWithdrawnAmount == input.cumulativeWithdrawnAmount && c.stateRoot == input.stateRoot
    ensures && c.depositAccountProof == input.depositAccountProof
            && c.nullifierAccountProof == input.nullifierAccountProof
            && c.previousNullifierStorageProof == input.previousNullifierStorageProof
  {
    ProgramCore.WormholeProgramInput(
      input.secret, input.depositAmount, input.withdrawAmount, input.cumulativeWithdrawnAmount,
      input.withdrawalIndex, input.stateRoot, input.depositAccountProof, registry,
      input.nullifierAccountProof, input.previousNullifierStorageProof)
  }

  /** With the guard reversed this version accepts what the `Result`-returning
      version accepts, and returns the same values: every output of the latter is
      completed here, and every completed run with a positive amount is an output
      there. The versions differ only on a zero amount, which this one lets through. */
  lemma IntendedMatchesCore(o: Oracles, registry: Address, input: WormholeProgramInput)
    ensures ProgramCore.Execute(o, AsCoreInput(registry, input)).Succeeded() ==>
      ExecuteIntended(o, registry, input).Completed?
    ensures ExecuteIntended(o, registry, input).Completed? && input.withdrawAmount > 0 ==>
      ProgramCore.Execute(o, AsCoreInput(registry, input)).Succeeded()
    ensures ProgramCore.Execute(o, AsCoreInput(registry, input)).Succeeded() ==>
      var out := ProgramCore.Execute(o, AsCoreInput(registry, input)).result.value;
      ExecuteIntended(o, registry, input).output
        == WormholeProgramOutput(out.stateRoot, out.withdrawAmount, out.currentNullifier, out.cumulativeWithdrawnAmountHashed)
  {
    var c := AsCoreInput(registry, input);
    assert ProgramCore.Accepts(o, c) <==>
      && IsValid(o.sha256, input.secret)
      && ProgramCore.AccountingHolds(input.withdrawAmount, input.cumulativeWithdrawnAmount, input.depositAmount)
      && FirstWithdrawalConsistent(input.withdrawalIndex, input.cumulativeWithdrawnAmount, input.previousNullifierStorageProof)
      && ProofsHold(o, registry, input);
  }

  /** A zero-amount withdrawal is not rejected by any amount guard of this version,
      whichever way the deposit guard points. */
  lemma ZeroWithdrawalPassesAmountGuards(o: Oracles, registry: Address, input: WormholeProgramInput)
    requires IsValid(o.sha256, input.secret)
    requires input.withdrawAmount == 0 && input.cumulativeWithdrawnAmount == input.depositAmount
    requires FirstWithdrawalConsistent(input.withdrawalIndex, input.cumulativeWithdrawnAmount, input.previousNullifierStorageProof)
    requires ProofsHold(o, registry, input)
    ensures Execute(o, registry, input).Completed? && ExecuteIntended(o, registry, input).Completed?
  {
  }
}
