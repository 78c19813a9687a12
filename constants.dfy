/** The protocol constants of `crates/alloy-wormhole/src/constants.rs`. The two
    256-bit constants are written, as in the source, as four little-endian
    64-bit limbs; the lemmas give their decimal meaning. */
module Constants {
  import opened Primitives

  /** Domain-separation byte of the burn (deposit) address preimage. */
  const MAGIC_ADDRESS: byte := 0xfe
  /** Domain-separation byte of the nullifier preimage. */
  const MAGIC_NULLIFIER: byte := 0x01
  /** Domain-separation byte of the proof-of-work preimage. */
  const MAGIC_POW: byte := 0x02

  /** The proof-of-work exponent, a `u8`. */
  const POW_LOG_DIFFICULTY: byte := 24

  const POW_DIFFICULTY_U256: U256 := FromLimbs([0x1000000, 0x0, 0x0, 0x0])

  /** The largest deposit the protocol intends to accept (32 ether, in wei). */
  const MAX_DEPOSIT: U256 := FromLimbs([0xbc16d674ec800000, 0x1, 0x0, 0x0])

  /** The EIP-2718 type byte of the wormhole transaction; the type `byte` is its `u8`. */
  const WORMHOLE_TX_TYPE: byte := 5

  /** The value of little-endian 64-bit limbs. */
  function LimbsValue(limbs: seq<U64>): (v: nat)
    ensures v < Pow2(64 * |limbs|)
  {
    if limbs == [] then 0
    else
      var rest := LimbsValue(limbs[1..]);
      Pow2Add(64, 64 * (|limbs| - 1));
      Pow2Of64();
      DigitBound(limbs[0], rest, Pow2(64), Pow2(64 * (|limbs| - 1)));
      limbs[0] + Pow2(64) * rest
  }

  /** A low digit below `base` and a high part below `bound` make a value below `base * bound`. */
  lemma DigitBound(low: nat, high: nat, base: nat, bound: nat)
    requires low < base && high < bound
    ensures low + base * high < base * bound
  {
    assert base * high <= base * (bound - 1);
  }

  /** `U256::from_limbs`: four limbs always denote a 256-bit value. */
  function FromLimbs(limbs: seq<U64>): (v: U256)
    requires |limbs| == 4
    ensures v == LimbsValue(limbs)
  {
    U256ModulusIsPow256();
    Pow256IsPow2(32);
    LimbsValue(limbs)
  }

  lemma Pow2Of64()
    ensures Pow2(64) == U64_MODULUS
  {
    assert Pow2(4) == 16;
    assert Pow2(8) == 256 by { Pow2Add(4, 4); }
    assert Pow2(16) == 0x1_0000 by { Pow2Add(8, 8); }
    assert Pow2(32) == 0x1_0000_0000 by { Pow2Add(16, 16); }
    Pow2Add(32, 32);
  }

  /** The three magic bytes are pairwise distinct, so the three preimage kinds never coincide. */
  lemma MagicBytesDistinct()
    ensures MAGIC_ADDRESS != MAGIC_NULLIFIER && MAGIC_ADDRESS != MAGIC_POW && MAGIC_NULLIFIER != MAGIC_POW
  {
  }

  /** The proof-of-work modulus is 2^POW_LOG_DIFFICULTY = 2^24 = 16777216. */
  lemma PowDifficultyIsPowerOfTwo()
    ensures POW_DIFFICULTY_U256 == Pow2(POW_LOG_DIFFICULTY as nat) == 16777216
  {
    assert LimbsValue([0x0]) == 0;
    assert LimbsValue([0x0, 0x0]) == 0 by { assert [0x0, 0x0][1..] == [0x0]; }
    assert LimbsValue([0x0, 0x0, 0x0]) == 0 by { assert [0x0, 0x0, 0x0][1..] == [0x0, 0x0]; }
    assert [0x1000000, 0x0, 0x0, 0x0][1..] == [0x0, 0x0, 0x0];
    assert Pow2(4) == 16;
    assert Pow2(8) == 256 by { Pow2Add(4, 4); }
    assert Pow2(16) == 0x1_0000 by { Pow2Add(8, 8); }
    Pow2Add(16, 8);
  }

  /** The deposit cap is 32 * 10^18 wei. */
  lemma MaxDepositIs32Ether()
    ensures MAX_DEPOSIT == 32 * Pow10(18) == 32_000_000_000_000_000_000
  {
    assert LimbsValue([0x0]) == 0;
    assert LimbsValue([0x0, 0x0]) == 0 by { assert [0x0, 0x0][1..] == [0x0]; }
    assert LimbsValue([0x1, 0x0, 0x0]) == 1 by { assert [0x1, 0x0, 0x0][1..] == [0x0, 0x0]; }
    assert [0xbc16d674ec800000, 0x1, 0x0, 0x0][1..] == [0x1, 0x0, 0x0];
    Pow2Of64();
    assert Pow10(6) == 1_000_000;
    assert Pow10(12) == 1_000_000_000_000 by { Pow10Add(6, 6); }
    Pow10Add(12, 6);
  }

  lemma {:induction false} Pow10Add(a: nat, b: nat)
    ensures Pow10(a + b) == Pow10(a) * Pow10(b)
  {
    if b > 0 {
      Pow10Add(a, b - 1);
      assert Pow10(a + b) == 10 * Pow10(a + b - 1);
    }
  }
}
