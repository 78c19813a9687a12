/** The external collaborators of the withdrawal program: the two digest functions
    and the Merkle-Patricia trie library (Appendix D of the Ethereum Yellow Paper).
    None of them is modelled; each is a function-typed field of `Oracles`, so every
    statement about the program holds whatever these functions compute. */
module Trie {
  import opened Primitives

  type Nibble = x: int | 0 <= x < 16

  /** `TrieAccount`: an account as stored in the state trie. */
  datatype TrieAccount = TrieAccount(nonce: U64, balance: U256, storageRoot: Bytes32, codeHash: Bytes32)

  /** `TrieNode`, reduced to what the program inspects: whether it is a leaf, and the leaf's value. */
  datatype TrieNode =
    | EmptyRoot
    | Branch
    | Extension
    | Leaf(key: seq<Nibble>, value: seq<byte>)

  datatype Oracles = Oracles(
    /** SHA-256 (section 6.2 of FIPS 180-4). */
    sha256: seq<byte> -> Bytes32,
    /** Keccak-256. */
    keccak256: seq<byte> -> Bytes32,
    /** `alloy_trie::proof::verify_proof(root, key, expected, proof).is_ok()`; `None`
        as the expected value asks for a proof of absence. */
    verifyProof: (Bytes32, seq<Nibble>, Option<seq<byte>>, seq<seq<byte>>) -> bool,
    /** `TrieNode::decode`; `None` is an RLP error. */
    decodeNode: seq<byte> -> Option<TrieNode>,
    /** `TrieAccount::decode`; `None` is an RLP error. */
    decodeAccount: seq<byte> -> Option<TrieAccount>,
    /** `alloy_rlp::encode` of a `TrieAccount`. */
    encodeAccount: TrieAccount -> seq<byte>
  )

  /** `TrieAccount::default()`: nonce and balance zero, the empty storage root
      (keccak256 of the RLP empty string `0x80`) and the code hash of empty code. */
  function DefaultAccount(o: Oracles): TrieAccount {
    TrieAccount(0, 0, o.keccak256([0x80]), o.keccak256([]))
  }

  /** `Nibbles::unpack`: each byte becomes its high nibble, then its low nibble. */
  function Unpack(s: seq<byte>): (r: seq<Nibble>)
    ensures |r| == 2 * |s|
    ensures forall k :: 0 <= k < |s| ==> r[2 * k] == s[k] / 16 && r[2 * k + 1] == s[k] % 16
  {
    if s == [] then [] else [s[0] / 16, s[0] % 16] + Unpack(s[1..])
  }

  /** Distinct keys are looked up at distinct trie paths. */
  lemma {:induction false} UnpackInjective(a: seq<byte>, b: seq<byte>)
    requires Unpack(a) == Unpack(b)
    ensures a == b
  {
    if a != [] {
      var ua, ub := Unpack(a), Unpack(b);
      assert a[0] as int == ua[0] as int * 16 + ua[1] as int;
      assert b[0] as int == ub[0] as int * 16 + ub[1] as int;
      assert ua[2..] == Unpack(a[1..]);
      assert ub[2..] == Unpack(b[1..]);
      UnpackInjective(a[1..], b[1..]);
      assert a == [a[0]] + a[1..];
      assert b == [b[0]] + b[1..];
    }
  }
}
