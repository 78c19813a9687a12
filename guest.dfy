/** What the three versions of the withdrawal program share: where they can abort,
    the trie keys and expected values they derive, and the checks that read the
    same in all of them. */
module Guest {
  import opened Primitives
  import opened Secret
  import opened Trie

  /** The guard at which a run aborts: a `panic!`, a failed `assert!`, or an
      `unwrap`/`expect` on a `None` or an `Err`. */
  datatype Abort =
    | SecretInvalid
    | CumulativeNotZeroAtFirst
    | PreviousProofNotEmptyAtFirst
    | WithdrawSumOverflow
    | WithdrawExceedsDeposit
    | DepositProofRejected
    | NullifierProofEmpty
    | NullifierNodeUndecodable
    | NullifierAccountNotLeaf
    | NullifierAccountUndecodable
    | NullifierProofRejected
    | PreviousNullifierProofRejected
    | CurrentNullifierNotAbsent

  /** The trie path of the deposit account: the nibbles of keccak256 of the burn address. */
  function DepositAccountKey(o: Oracles, secret: WormholeSecret): seq<Nibble> {
    Unpack(o.keccak256(BurnAddress(o.sha256, secret)))
  }

  /** The RLP of the account the deposit must have left: the default account with
      the deposited balance (nonce 0, no storage, no code). */
  function ExpectedDepositAccount(o: Oracles, deposit: U256): seq<byte> {
    o.encodeAccount(DefaultAccount(o).(balance := deposit))
  }

  /** The trie path of an account. */
  function AccountKey(o: Oracles, address: Address): seq<Nibble> {
    Unpack(o.keccak256(address))
  }

  /** The storage-trie path of the registry slot of `nullifier(index)`. */
  function NullifierSlotKey(o: Oracles, secret: WormholeSecret, index: U256): seq<Nibble> {
    Unpack(o.keccak256(Nullifier(o.sha256, secret, index)))
  }

  /** keccak256 of the 32-byte big-endian cumulative amount. */
  function HashedCumulative(o: Oracles, cumulative: U256): Bytes32 {
    o.keccak256(BE32(cumulative))
  }

  /** The rule for the first withdrawal: nothing withdrawn yet, and no proof of a previous nullifier. */
  predicate FirstWithdrawalConsistent(index: U256, cumulative: U256, previousProof: seq<seq<byte>>) {
    index == 0 ==> cumulative == 0 && previousProof == []
  }

  /** The deposit account is proven, under `root`, to be the default account holding `deposit`. */
  ghost predicate DepositProven(o: Oracles, root: Bytes32, secret: WormholeSecret, deposit: U256, proof: seq<seq<byte>>) {
    o.verifyProof(root, DepositAccountKey(o, secret), Some(ExpectedDepositAccount(o, deposit)), proof)
  }

  /** The account that the last node of the registry's account proof claims: the
      leaf's raw value and its decoding, when that node is a leaf that decodes. */
  function ClaimedAccount(o: Oracles, proof: seq<seq<byte>>): Option<(seq<byte>, TrieAccount)> {
    if proof == [] then None
    else match o.decodeNode(proof[|proof| - 1])
      case Some(Leaf(_, value)) =>
        (match o.decodeAccount(value)
         case Some(account) => Some((value, account))
         case None => None)
      case _ => None
  }

  /** The last node of a non-empty proof does not decode. */
  predicate LastNodeUndecodable(o: Oracles, proof: seq<seq<byte>>) {
    proof != [] && o.decodeNode(proof[|proof| - 1]).None?
  }

  /** The last node of a non-empty proof decodes to a node that is not a leaf. */
  predicate LastNodeNotLeaf(o: Oracles, proof: seq<seq<byte>>) {
    proof != [] && o.decodeNode(proof[|proof| - 1]).Some? && !o.decodeNode(proof[|proof| - 1]).value.Leaf?
  }

  /** The last node of a non-empty proof is a leaf whose value is not an account. */
  predicate LeafAccountUndecodable(o: Oracles, proof: seq<seq<byte>>) {
    && proof != [] && o.decodeNode(proof[|proof| - 1]).Some? && o.decodeNode(proof[|proof| - 1]).value.Leaf?
    && o.decodeAccount(o.decodeNode(proof[|proof| - 1]).value.value).None?
  }

  /** The registry account claimed by `proof` is proven under `root`, and the
      storage proof of the previous slot (when `index > 0`) holds `expected` under
      its storage root. */
  ghost predicate RegistryProven(
    o: Oracles, root: Bytes32, registry: Address, accountProof: seq<seq<byte>>,
    secret: WormholeSecret, index: U256, expected: seq<byte>, previousProof: seq<seq<byte>>)
  {
    match ClaimedAccount(o, accountProof)
    case None => false
    case Some((value, account)) =>
      && o.verifyProof(root, AccountKey(o, registry), Some(value), accountProof)
      && (index != 0 ==> o.verifyProof(account.storageRoot, NullifierSlotKey(o, secret, index - 1), Some(expected), previousProof))
  }

  /** The proof checks that all three versions run after the amount rules, in
      their order: the deposit account under `root`; the registry account, read
      from the last node of its proof, which must be a leaf holding a decodable
      account, and proven under `root`; and, from the second withdrawal on, the
      previous nullifier's slot holding `expected` under that account's storage
      root. The result is the registry account, or the first check that fails. */
  function CheckProofs(
    o: Oracles, root: Bytes32, secret: WormholeSecret, deposit: U256, depositProof: seq<seq<byte>>,
    registry: Address, accountProof: seq<seq<byte>>,
    index: U256, expected: seq<byte>, previousProof: seq<seq<byte>>): (r: Result<TrieAccount, Abort>)
    ensures r.Ok? <==>
      && DepositProven(o, root, secret, deposit, depositProof)
      && RegistryProven(o, root, registry, accountProof, secret, index, expected, previousProof)
    ensures r.Ok? ==> ClaimedAccount(o, accountProof).Some? && ClaimedAccount(o, accountProof).value.1 == r.value
    ensures r == Err(DepositProofRejected) <==> !DepositProven(o, root, secret, deposit, depositProof)
    ensures r == Err(NullifierProofEmpty) <==> DepositProven(o, root, secret, deposit, depositProof) && accountProof == []
    ensures r == Err(NullifierNodeUndecodable) <==>
      DepositProven(o, root, secret, deposit, depositProof) && LastNodeUndecodable(o, accountProof)
    ensures r == Err(NullifierAccountNotLeaf) <==>
      DepositProven(o, root, secret, deposit, depositProof) && LastNodeNotLeaf(o, accountProof)
    ensures r == Err(NullifierAccountUndecodable) <==>
      DepositProven(o, root, secret, deposit, depositProof) && LeafAccountUndecodable(o, accountProof)
    ensures r in {Err(NullifierProofRejected), Err(PreviousNullifierProofRejected)} <==>
      && DepositProven(o, root, secret, deposit, depositProof)
      && ClaimedAccount(o, accountProof).Some?
      && !RegistryProven(o, root, registry, accountProof, secret, index, expected, previousProof)
    ensures r.Err? ==> r.error in {DepositProofRejected, NullifierProofEmpty, NullifierNodeUndecodable,
                                   NullifierAccountNotLeaf, NullifierAccountUndecodable,
                                   NullifierProofRejected, PreviousNullifierProofRejected}
  {
    if !o.verifyProof(root, DepositAccountKey(o, secret), Some(ExpectedDepositAccount(o, deposit)), depositProof)
    then Err(DepositProofRejected)
    else if accountProof == [] then Err(NullifierProofEmpty)
    else match o.decodeNode(accountProof[|accountProof| - 1])
      case None => Err(NullifierNodeUndecodable)
      case Some(node) =>
        if !node.Leaf? then Err(NullifierAccountNotLeaf)
        else match o.decodeAccount(node.value)
        case None => Err(NullifierAccountUndecodable)
        case Some(account) =>
          if !o.verifyProof(root, AccountKey(o, registry), Some(node.value), accountProof)
          then Err(NullifierProofRejected)
          else if index != 0 && !o.verifyProof(account.storageRoot, NullifierSlotKey(o, secret, index - 1), Some(expected), previousProof)
          then Err(PreviousNullifierProofRejected)
          else Ok(account)
  }

  /** The total of a run of amounts. */
  function Sum(amounts: seq<U256>): nat {
    if amounts == [] then 0 else Sum(amounts[..|amounts| - 1]) + amounts[|amounts| - 1]
  }

  /** Amounts of at least one each add up to at least their number. */
  lemma {:induction false} SumAtLeastCount(amounts: seq<U256>)
    requires forall k :: 0 <= k < |amounts| ==> amounts[k] > 0
    ensures Sum(amounts) >= |amounts|
  {
    if amounts != [] {
      SumAtLeastCount(amounts[..|amounts| - 1]);
    }
  }

  /** When every amount is positive and keeps the running total within `deposit`,
      the whole run stays within it and has at most `deposit` entries. */
  lemma RunningTotalsWithinDeposit(amounts: seq<U256>, deposit: nat)
    requires forall k :: 0 <= k < |amounts| ==> 0 < amounts[k] && Sum(amounts[..k]) + amounts[k] <= deposit
    ensures Sum(amounts) <= deposit
    ensures |amounts| <= deposit
  {
    if amounts != [] {
      var n := |amounts| - 1;
      assert Sum(amounts[..n]) + amounts[n] <= deposit;
      SumAtLeastCount(amounts);
    }
  }
}
