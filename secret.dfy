/** `WormholeSecret` and its SHA-256 derivations (`crates/alloy-wormhole/src/secret.rs`).
    SHA-256 (section 6.2 of FIPS 180-4) is an opaque parameter `sha`: every
    statement here holds for any function from byte strings to 32-byte digests.
    Only the preimage layouts (domain byte, secret, little-endian index) are exact. */
module Secret {
  import opened Primitives
  import opened Constants

  /** The opaque digest function. */
  type Sha256 = seq<byte> -> Bytes32

  /** The secret preimage: bytes of any length (the type does not fix 32). */
  datatype WormholeSecret = WormholeSecret(bytes: seq<byte>)

  /** `new_unchecked`: wraps the bytes as given, with no validation. */
  function NewUnchecked(bytes: seq<byte>): (s: WormholeSecret)
    ensures s.bytes == bytes
  {
    WormholeSecret(bytes)
  }

  function PowPreimage(secret: seq<byte>): seq<byte> {
    [MAGIC_POW] + secret
  }

  function AddressPreimage(secret: seq<byte>): seq<byte> {
    [MAGIC_ADDRESS] + secret
  }

  function NullifierPreimage(secret: seq<byte>, index: U256): seq<byte> {
    [MAGIC_NULLIFIER] + secret + LE32(index)
  }

  /** `proof_of_work_secret_hash`: the digest of the proof-of-work byte `0x02` and the secret. */
  function ProofOfWorkSecretHash(sha: Sha256, secret: seq<byte>): (h: Bytes32)
    ensures h == sha([0x02] + secret)
  {
    sha(PowPreimage(secret))
  }

  /** `is_valid_wormhole_secret`: the big-endian value of the proof-of-work digest
      is a multiple of 2^24, which is the same as its last three bytes being zero. */
  function IsValidWormholeSecret(sha: Sha256, secret: seq<byte>): (valid: bool)
    ensures var h := ProofOfWorkSecretHash(sha, secret);
      valid <==> h[29] == 0 && h[30] == 0 && h[31] == 0
  {
    var h := ProofOfWorkSecretHash(sha, secret);
    PowDifficultyIsPowerOfTwo();
    MultipleOf2To24(h);
    FromBE32(h) % POW_DIFFICULTY_U256 == 0
  }

  /** `WormholeSecret::is_valid`: the last three bytes of the secret's proof-of-work
      digest are zero. */
  function IsValid(sha: Sha256, s: WormholeSecret): (valid: bool)
    ensures valid <==> ProofOfWorkSecretHash(sha, s.bytes)[29..] == [0, 0, 0]
  {
    IsValidWormholeSecret(sha, s.bytes)
  }

  /** `WormholeSecret::proof_of_work_hash`: the digest whose last three bytes decide validity. */
  function ProofOfWorkHash(sha: Sha256, s: WormholeSecret): (h: Bytes32)
    ensures h == sha([0x02] + s.bytes)
    ensures IsValid(sha, s) <==> h[29] == 0 && h[30] == 0 && h[31] == 0
  {
    ProofOfWorkSecretHash(sha, s.bytes)
  }

  /** `burn_address`: the last 20 of the 32 digest bytes of `0xfe ++ secret`. */
  function BurnAddress(sha: Sha256, s: WormholeSecret): (a: Address)
    ensures var h := sha(AddressPreimage(s.bytes));
      forall k :: 0 <= k < 20 ==> a[k] == h[32 - 20 + k]
  {
    sha(AddressPreimage(s.bytes))[12..]
  }

  /** `nullifier`: the digest of `0x01 ++ secret ++ le32(index)`. */
  function Nullifier(sha: Sha256, s: WormholeSecret, index: U256): (n: Bytes32)
    ensures exists p :: (&& n == sha(p) && |p| == |s.bytes| + 33 && p[0] == 0x01
                         && p[1..|s.bytes| + 1] == s.bytes && FromLE(p[|s.bytes| + 1..]) == index)
  {
    var p := NullifierPreimage(s.bytes, index);
    NullifierIndexIsLittleEndian(s.bytes, index);
    assert p[1..|s.bytes| + 1] == s.bytes;
    sha(p)
  }

  /** `TryFrom<Bytes>`: `Ok` exactly for valid secrets; both arms carry the input bytes. */
  function TryFrom(sha: Sha256, bytes: seq<byte>): (r: Result<WormholeSecret, WormholeSecret>)
    ensures r.Ok? <==> IsValidWormholeSecret(sha, bytes)
    ensures r.Ok? ==> r.value.bytes == bytes
    ensures r.Err? ==> r.error.bytes == bytes
  {
    var secret := NewUnchecked(bytes);
    if IsValid(sha, secret) then Ok(secret) else Err(secret)
  }

  /** `TEST_SECRET`: eight bytes, so validity never depended on a 32-byte length. */
  const TEST_SECRET: WormholeSecret := WormholeSecret([0x00, 0x00, 0x00, 0x00, 0x01, 0x30, 0x5d, 0xc6])

  /** What the test `test_secret_is_valid` asserts of the real SHA-256; a hypothesis
      here because the digest is opaque. */
  ghost predicate TestSecretIsValid(sha: Sha256) {
    IsValid(sha, TEST_SECRET)
  }

  /** A 32-byte big-endian value is a multiple of 2^24 exactly when its last three bytes are zero. */
  lemma MultipleOf2To24(h: Bytes32)
    ensures FromBE(h) % 16777216 == 0 <==> h[29] == 0 && h[30] == 0 && h[31] == 0
  {
    var high, low := h[..29], h[29..];
    assert h == high + low;
    FromBEAppend(high, low);
    assert Pow256(3) == 16777216;
    FromBEBound(low);
    assert low[..2] == [h[29], h[30]] && low[..2][..1] == [h[29]] && [h[29]][..0] == [];
    assert FromBE([h[29]]) == h[29];
    assert FromBE(low[..2]) == h[29] as int * 256 + h[30] as int;
    assert FromBE(low) == (h[29] as int * 256 + h[30] as int) * 256 + h[31] as int;
    assert (FromBE(high) * 16777216 + FromBE(low)) % 16777216 == FromBE(low);
  }

  /** The three preimage kinds never coincide, whatever the secrets and the index:
      the first byte is a distinct magic byte in each. */
  lemma DerivationsDomainSeparated(a: seq<byte>, b: seq<byte>, c: seq<byte>, index: U256)
    ensures AddressPreimage(a) != NullifierPreimage(b, index)
    ensures AddressPreimage(a) != PowPreimage(c)
    ensures NullifierPreimage(b, index) != PowPreimage(c)
  {
    assert AddressPreimage(a)[0] == MAGIC_ADDRESS;
    assert NullifierPreimage(b, index)[0] == MAGIC_NULLIFIER;
    assert PowPreimage(c)[0] == MAGIC_POW;
  }

  /** The nullifier preimage determines the secret and the index: two equal
      nullifiers for different (secret, index) pairs would be a SHA-256 collision. */
  lemma {:induction false} NullifierPreimageInjective(a: seq<byte>, i: U256, b: seq<byte>, j: U256)
    requires NullifierPreimage(a, i) == NullifierPreimage(b, j)
    ensures a == b && i == j
  {
    var p := NullifierPreimage(a, i);
    assert |a| == |b|;
    assert a == p[1..1 + |a|];
    assert b == p[1..1 + |b|];
    assert LE32(i) == p[1 + |a|..];
    assert LE32(j) == p[1 + |b|..];
    LE32Injective(i, j);
  }

  /** The index is appended least significant byte first: the last 32 preimage
      bytes, read little-endian, are the index. */
  lemma NullifierIndexIsLittleEndian(secret: seq<byte>, index: U256)
    ensures var p := NullifierPreimage(secret, index);
      |p| == 33 + |secret| && FromLE(p[1 + |secret|..]) == index
  {
    assert NullifierPreimage(secret, index)[1 + |secret|..] == LE32(index);
  }

  /** The outcome of one `getrandom` call on the 32-byte buffer: the bytes it wrote,
      or the error it returned (`getrandom::Error` carries a non-zero code). */
  datatype RandomFill = Filled(bytes: Bytes32) | RandomFailure(code: nat)

  /** Whether `try_random` leaves its loop on this outcome. */
  predicate StopsOn(sha: Sha256, fill: RandomFill) {
    fill.RandomFailure? || IsValidWormholeSecret(sha, fill.bytes)
  }

  /** `try_random`: refills a zeroed 32-byte buffer from the random source until the
      proof-of-work predicate holds. `rng(k)` is the outcome of the k-th `getrandom`
      call. The source loop ends only with probability 1; here its termination is the
      precondition that some call fails or yields a valid candidate. The result is
      decided by the first such call: its bytes as a valid 32-byte secret, or its error. */
  method TryRandom(sha: Sha256, rng: nat -> RandomFill) returns (r: Result<WormholeSecret, nat>)
    requires exists k: nat :: StopsOn(sha, rng(k))
    ensures exists k: nat ::
      && StopsOn(sha, rng(k))
      && (forall j: nat :: j < k ==> !StopsOn(sha, rng(j)))
      && r == (if rng(k).Filled? then Ok(WormholeSecret(rng(k).bytes)) else Err(rng(k).code))
    ensures r.Ok? ==> |r.value.bytes| == 32 && IsValid(sha, r.value)
  {
    var bytes := new byte[32](_ => 0);
    ghost var bound: nat :| StopsOn(sha, rng(bound));
    var i := 0;
    while true
      invariant i <= bound
      invariant forall j: nat :: j < i ==> !StopsOn(sha, rng(j))
      decreases bound - i
    {
      match rng(i)
      case RandomFailure(code) =>
        return Err(code);
      case Filled(fill) =>
        forall k | 0 <= k < 32 {
          bytes[k] := fill[k];
        }
        assert bytes[..] == fill;
        if IsValidWormholeSecret(sha, bytes[..]) {
          return Ok(WormholeSecret(bytes[..]));
        }
      i := i + 1;
    }
  }
}
