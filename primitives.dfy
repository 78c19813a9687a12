/** Fixed-width integers, byte strings and their big- and little-endian codings,
    as the alloy primitives (`U256`, `B256`, `Address`) and the fixed-size RLP
    encodings (Appendix B of the Ethereum Yellow Paper) used by the wormhole
    program. */
module Primitives {

  /** The usual optional value; failure-compatible so that `:-` mirrors Rust's `?`. */
  datatype Option<+T> = None | Some(value: T) {
    predicate IsFailure() { None? }
    function PropagateFailure<U>(): Option<U> requires None? { None }
    function Extract(): T requires Some? { value }
  }

  /** Rust's `Result<T, E>`. */
  datatype Result<+T, +E> = Ok(value: T) | Err(error: E)

  type byte = x: int | 0 <= x < 256

  const U64_MODULUS: int := 0x1_0000_0000_0000_0000
  const U128_MODULUS: int := 0x1_0000_0000_0000_0000_0000_0000_0000_0000
  const U256_MODULUS: int :=
    0x1_0000_0000_0000_0000_0000_0000_0000_0000_0000_0000_0000_0000_0000_0000_0000_0000

  type U64 = x: int | 0 <= x < U64_MODULUS
  type U128 = x: int | 0 <= x < U128_MODULUS
  type U256 = x: int | 0 <= x < U256_MODULUS

  /** `B256`: a 32-byte string (hashes, state roots, storage slots). */
  type Bytes32 = s: seq<byte> | |s| == 32 witness seq(32, i => 0)

  /** `Address`: a 20-byte string. */
  type Address = s: seq<byte> | |s| == 20 witness seq(20, i => 0)

  function Pow256(n: nat): (p: nat)
    ensures p >= 1
  {
    if n == 0 then 1 else 256 * Pow256(n - 1)
  }

  function Pow2(n: nat): (p: nat)
    ensures p >= 1
  {
    if n == 0 then 1 else 2 * Pow2(n - 1)
  }

  function Pow10(n: nat): nat {
    if n == 0 then 1 else 10 * Pow10(n - 1)
  }

  lemma {:induction false} Pow256IsPow2(n: nat)
    ensures Pow256(n) == Pow2(8 * n)
  {
    if n > 0 {
      Pow256IsPow2(n - 1);
      Pow2Add(8 * (n - 1), 8);
    }
  }

  lemma {:induction false} Pow2Add(a: nat, b: nat)
    ensures Pow2(a + b) == Pow2(a) * Pow2(b)
  {
    if b > 0 {
      Pow2Add(a, b - 1);
      assert Pow2(a + b) == 2 * Pow2(a + b - 1);
    }
  }

  lemma {:induction false} Pow256Add(a: nat, b: nat)
    ensures Pow256(a + b) == Pow256(a) * Pow256(b)
  {
    if b > 0 {
      Pow256Add(a, b - 1);
      assert Pow256(a + b) == 256 * Pow256(a + b - 1);
    }
  }

  lemma U256ModulusIsPow256()
    ensures Pow256(32) == U256_MODULUS
  {
    assert Pow256(2) == 0x1_0000;
    assert Pow256(4) == 0x1_0000_0000 by { Pow256Add(2, 2); }
    assert Pow256(8) == 0x1_0000_0000_0000_0000 by { Pow256Add(4, 4); }
    assert Pow256(16) == U128_MODULUS by { Pow256Add(8, 8); }
    Pow256Add(16, 16);
  }

  /** The value of a big-endian byte string. */
  function FromBE(s: seq<byte>): nat {
    if s == [] then 0 else FromBE(s[..|s| - 1]) * 256 + s[|s| - 1]
  }

  /** A big-endian byte string denotes zero exactly when all its bytes are zero. */
  lemma {:induction false} FromBEZero(s: seq<byte>)
    ensures FromBE(s) == 0 <==> forall k :: 0 <= k < |s| ==> s[k] == 0
  {
    if s != [] {
      var init := s[..|s| - 1];
      FromBEZero(init);
      assert forall k :: 0 <= k < |init| ==> init[k] == s[k];
    }
  }

  /** The value of a little-endian byte string. */
  function FromLE(s: seq<byte>): nat {
    if s == [] then 0 else s[0] + 256 * FromLE(s[1..])
  }

  /** The low `n` bytes of `v`, most significant first. */
  function ToBE(v: nat, n: nat): (r: seq<byte>)
    ensures |r| == n
  {
    if n == 0 then [] else ToBE(v / 256, n - 1) + [v % 256]
  }

  /** The low `n` bytes of `v`, least significant first. */
  function ToLE(v: nat, n: nat): (r: seq<byte>)
    ensures |r| == n
  {
    if n == 0 then [] else [v % 256] + ToLE(v / 256, n - 1)
  }

  lemma {:induction false} FromBEBound(s: seq<byte>)
    ensures FromBE(s) < Pow256(|s|)
  {
    if s != [] {
      FromBEBound(s[..|s| - 1]);
    }
  }

  lemma {:induction false} FromBEToBE(v: nat, n: nat)
    requires v < Pow256(n)
    ensures FromBE(ToBE(v, n)) == v
  {
    if n > 0 {
      var r := ToBE(v, n);
      var q := v / 256;
      assert v == q * 256 + v % 256;
      QuotientBound(v, Pow256(n - 1));
      assert r[..n - 1] == ToBE(q, n - 1);
      assert r[n - 1] == v % 256;
      FromBEToBE(q, n - 1);
      assert FromBE(r) == FromBE(r[..n - 1]) * 256 + r[n - 1];
    }
  }

  /** A value below `p * 256` has a quotient by 256 below `p`. */
  lemma QuotientBound(v: nat, p: nat)
    requires v < p * 256
    ensures v / 256 < p
  {
  }

  lemma {:induction false} FromLEToLE(v: nat, n: nat)
    requires v < Pow256(n)
    ensures FromLE(ToLE(v, n)) == v
  {
    if n > 0 {
      var r := ToLE(v, n);
      assert r[1..] == ToLE(v / 256, n - 1);
      FromLEToLE(v / 256, n - 1);
    }
  }

  lemma {:induction false} ToBEFromBE(s: seq<byte>)
    ensures ToBE(FromBE(s), |s|) == s
  {
    if s != [] {
      var init := s[..|s| - 1];
      ToBEFromBE(init);
      assert FromBE(s) / 256 == FromBE(init);
      assert s == init + [s[|s| - 1]];
    }
  }

  /** Splitting a big-endian string splits its value: the prefix is the high part. */
  lemma {:induction false} FromBEAppend(a: seq<byte>, b: seq<byte>)
    ensures FromBE(a + b) == FromBE(a) * Pow256(|b|) + FromBE(b)
  {
    if b != [] {
      var b' := b[..|b| - 1];
      assert (a + b)[..|a + b| - 1] == a + b';
      FromBEAppend(a, b');
      calc {
        FromBE(a + b);
        FromBE(a + b') * 256 + b[|b| - 1];
        (FromBE(a) * Pow256(|b'|) + FromBE(b')) * 256 + b[|b| - 1];
        { assert (FromBE(a) * Pow256(|b'|)) * 256 == FromBE(a) * (Pow256(|b'|) * 256); }
        FromBE(a) * Pow256(|b|) + FromBE(b);
      }
    } else {
      assert a + b == a;
    }
  }

  /** `U256::to_be_bytes`: the 32-byte big-endian form, which reads back as `v`. */
  function BE32(v: U256): (r: Bytes32)
    ensures FromBE(r) == v
  {
    U256ModulusIsPow256();
    FromBEToBE(v, 32);
    ToBE(v, 32)
  }

  /** `U256::as_le_slice`: the 32-byte little-endian form, which reads back as `v`. */
  function LE32(v: U256): (r: Bytes32)
    ensures FromLE(r) == v
  {
    U256ModulusIsPow256();
    FromLEToLE(v, 32);
    ToLE(v, 32)
  }

  /** `U256::from_be_bytes`: every 32-byte string is the big-endian form of exactly one value. */
  function FromBE32(s: Bytes32): (v: U256)
    ensures BE32(v) == s
  {
    FromBEBound(s);
    U256ModulusIsPow256();
    ToBEFromBE(s);
    FromBE(s)
  }

  lemma LE32Injective(a: U256, b: U256)
    requires LE32(a) == LE32(b)
    ensures a == b
  {
  }

  /** `U256::checked_add`: `None` exactly when the sum leaves 256 bits. */
  function CheckedAdd(a: U256, b: U256): (r: Option<U256>)
    ensures r.Some? <==> a + b < U256_MODULUS
    ensures r.Some? ==> r.value == a + b
  {
    if a + b < U256_MODULUS then Some(a + b) else None
  }

  /** The big-endian digits of `v` without leading zero bytes (the RLP form of a scalar). */
  function MinimalBE(v: nat): (r: seq<byte>)
    ensures r != [] ==> r[0] != 0
  {
    if v == 0 then [] else MinimalBE(v / 256) + [v % 256]
  }

  lemma {:induction false} MinimalBEValue(v: nat)
    ensures FromBE(MinimalBE(v)) == v
  {
    if v > 0 {
      var r := MinimalBE(v);
      assert r[..|r| - 1] == MinimalBE(v / 256);
      MinimalBEValue(v / 256);
    }
  }

  lemma {:induction false} MinimalBELength(v: nat, n: nat)
    requires v < Pow256(n)
    ensures |MinimalBE(v)| <= n
  {
    if v > 0 {
      assert n > 0;
      MinimalBELength(v / 256, n - 1);
    }
  }

  lemma ScalarLength(v: U256)
    ensures |MinimalBE(v)| <= 32
    ensures v < Pow256(31) ==> |MinimalBE(v)| <= 31
  {
    U256ModulusIsPow256();
    MinimalBELength(v, 32);
    if v < Pow256(31) {
      MinimalBELength(v, 31);
    }
  }

  /** The RLP encoding of a 32-byte string: the string header `0x80 + 32` and the bytes. */
  function RlpB256(h: Bytes32): seq<byte> {
    [0xa0] + h
  }

  /** The RLP encoding of a 256-bit scalar: its minimal big-endian bytes as an RLP string. */
  function RlpU256(v: U256): (r: seq<byte>)
    ensures 1 <= |r| <= 33
    ensures v < Pow256(31) ==> |r| <= 32
  {
    ScalarLength(v);
    var b := MinimalBE(v);
    if |b| == 1 && b[0] < 0x80 then b else [0x80 + |b|] + b
  }

  /** The RLP of a scalar is canonical: a value from 1 to 127 is its own single
      byte; any other value is the string header `0x80 + length` followed by its
      big-endian digits without a leading zero (none at all for zero). */
  lemma RlpU256Value(v: U256)
    ensures var r := RlpU256(v);
      && (0 < v < 0x80 ==> r == [v as byte])
      && (!(0 < v < 0x80) ==>
            && r[0] == 0x80 + |r| - 1
            && FromBE(r[1..]) == v
            && (|r| > 1 ==> r[1] != 0))
  {
    MinimalBEValue(v);
    var b := MinimalBE(v);
    var r := RlpU256(v);
    if !(|b| == 1 && b[0] < 0x80) {
      assert r[1..] == b;
    }
  }

  /** The slot values the two generations of the program expect differ for every
      amount below 2^248: the raw scalar encodes in at most 32 bytes, a hash in 33. */
  lemma RawAndHashedSlotValuesDiffer(v: U256, h: Bytes32)
    requires v < Pow256(31)
    ensures RlpU256(v) != RlpB256(h)
  {
  }

  lemma AppendAssoc<T>(a: seq<T>, b: seq<T>, c: seq<T>)
    ensures (a + b) + c == a + (b + c)
  {
  }
}
