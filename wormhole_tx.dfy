/** RLP field codecs (Appendix B of the Ethereum Yellow Paper). A `Codec` bundles
    the encoder, the length function and the decoder of one field type. The
    decoder returns the value and the bytes after it. The RLP of the integer,
    address, byte-string and access-list types comes from the alloy library, so
    those codecs are parameters. What the transaction coding needs of them is the
    hypothesis `Sound`. The 32-byte string codec is concrete. */
module Rlp {
  import opened Primitives

  datatype Codec<!T> = Codec(
    encode: T -> seq<byte>,
    length: T -> nat,
    decode: seq<byte> -> Option<(T, seq<byte>)>)

  /** Decoding an encoding gives back the value and leaves whatever followed it.
      The length function gives the encoding's length. */
  ghost predicate Sound<T(!new)>(c: Codec<T>) {
    && (forall x, rest :: c.decode(c.encode(x) + rest) == Some((x, rest)))
    && (forall x :: c.length(x) == |c.encode(x)|)
  }

  /** A sound codec decodes the encoding of `x` followed by `rest`. */
  lemma Decodes<T(!new)>(c: Codec<T>, x: T, rest: seq<byte>)
    requires Sound(c)
    ensures c.decode(c.encode(x) + rest) == Some((x, rest))
  {
  }

  /** Decodes `[0xa0] ++ 32 bytes`, the only RLP form of a 32-byte string. */
  function DecodeB256(s: seq<byte>): (r: Option<(Bytes32, seq<byte>)>)
    ensures r.Some? <==> |s| >= 33 && s[0] == 0xa0
    ensures r.Some? ==> s == RlpB256(r.value.0) + r.value.1
  {
    if |s| >= 33 && s[0] == 0xa0 then Some((s[1..33], s[33..])) else None
  }

  /** The codec of `B256`. */
  function B256Codec(): Codec<Bytes32> {
    Codec(h => RlpB256(h), h => 33, DecodeB256)
  }

  lemma B256CodecSound()
    ensures Sound(B256Codec())
  {
    forall h: Bytes32, rest: seq<byte>
      ensures DecodeB256(RlpB256(h) + rest) == Some((h, rest))
    {
      var s := RlpB256(h) + rest;
      assert s[1..33] == h && s[33..] == rest;
    }
  }
}

/** `WormholeTx` and `WormholeTxProof` of `crates/alloy-wormhole/src/lib.rs`: the
    wormhole EIP-2718 typed transaction (type 5), its field coding, its signing
    payload, its gas price and its fixed accessors. The encoders append to a
    `ByteBuf` and the decoders advance a `Cursor`, as the source writes to a
    `BufMut` and reads through a `&mut &[u8]`. Each method is proved against a
    function on byte strings. */
module WormholeTransaction {
  import opened Primitives
  import opened Constants
  import opened Rlp

  type ChainId = U64

  /** An EIP-2930 access-list entry; the list's RLP is a parameter. */
  datatype AccessListItem = AccessListItem(address: Address, storageKeys: seq<Bytes32>)
  type AccessList = seq<AccessListItem>

  datatype WormholeTxProof = WormholeTxProof(
    stateRoot: Bytes32,
    nullifier: Bytes32,
    withdrawValue: U128,
    proof: seq<byte>)

  datatype WormholeTx = WormholeTx(
    chainId: ChainId,
    nonce: U64,
    gasLimit: U64,
    maxFeePerGas: U128,
    maxPriorityFeePerGas: U128,
    to: Address,
    input: seq<byte>,
    accessList: AccessList,
    proofBlockNumber: U64,
    proof: WormholeTxProof)

  /** The RLP codecs of the field types the library provides. */
  datatype Codecs = Codecs(
    u64: Codec<U64>,
    u128: Codec<U128>,
    address: Codec<Address>,
    bytes: Codec<seq<byte>>,
    accessList: Codec<AccessList>)

  ghost predicate CodecsSound(c: Codecs) {
    Sound(c.u64) && Sound(c.u128) && Sound(c.address) && Sound(c.bytes) && Sound(c.accessList)
  }

  /** A byte buffer that encoders append to. */
  class ByteBuf {
    var data: seq<byte>

    constructor()
      ensures data == []
    {
      data := [];
    }

    method Put(b: byte)
      modifies this
      ensures data == old(data) + [b]
    {
      data := data + [b];
    }

    method PutSlice(s: seq<byte>)
      modifies this
      ensures data == old(data) + s
    {
      data := data + s;
    }
  }

  /** The unread rest of an input that decoders advance through. */
  class Cursor {
    var rest: seq<byte>

    constructor(s: seq<byte>)
      ensures rest == s
    {
      rest := s;
    }

    /** Decodes one field and moves past it; on failure nothing is consumed. */
    method Read<T>(c: Codec<T>) returns (r: Option<T>)
      modifies this
      ensures c.decode(old(rest)).None? ==> r.None? && rest == old(rest)
      ensures c.decode(old(rest)).Some? ==> r == Some(c.decode(old(rest)).value.0) && rest == c.decode(old(rest)).value.1
    {
      match c.decode(rest)
      case None =>
        r := None;
      case Some((v, tail)) =>
        rest := tail;
        r := Some(v);
    }
  }

  // ---- WormholeTxProof ----

  /** The encoding of a proof: its four fields in declaration order, with no list header. */
  function ProofEncoding(c: Codecs, p: WormholeTxProof): seq<byte> {
    RlpB256(p.stateRoot) + (RlpB256(p.nullifier) + (c.u128.encode(p.withdrawValue) + c.bytes.encode(p.proof)))
  }

  /** `WormholeTxProof::length`: the sum of the four field lengths. */
  function ProofLength(c: Codecs, p: WormholeTxProof): (n: nat)
    ensures CodecsSound(c) ==> n == |ProofEncoding(c, p)|
  {
    33 + 33 + c.u128.length(p.withdrawValue) + c.bytes.length(p.proof)
  }

  /** `WormholeTxProof::decode`: the four fields in the order they are encoded. */
  function DecodeProof(c: Codecs, s: seq<byte>): (r: Option<(WormholeTxProof, seq<byte>)>)
    ensures r.Some? ==> && |s| >= 66 && s[0] == 0xa0 && s[33] == 0xa0
                        && r.value.0.stateRoot == s[1..33] && r.value.0.nullifier == s[34..66]
  {
    var stateRoot :- DecodeB256(s);
    var nullifier :- DecodeB256(stateRoot.1);
    var withdrawValue :- c.u128.decode(nullifier.1);
    var proof :- c.bytes.decode(withdrawValue.1);
    Some((WormholeTxProof(stateRoot.0, nullifier.0, withdrawValue.0, proof.0), proof.1))
  }

  /** Decoding a proof's encoding gives the proof back and leaves what followed it. */
  lemma ProofRoundTrip(c: Codecs, p: WormholeTxProof, rest: seq<byte>)
    requires CodecsSound(c)
    ensures DecodeProof(c, ProofEncoding(c, p) + rest) == Some((p, rest))
  {
    B256CodecSound();
    var e3 := c.u128.encode(p.withdrawValue);
    var e4 := c.bytes.encode(p.proof);
    var t3 := e4 + rest;
    var t2 := e3 + t3;
    var t1 := RlpB256(p.nullifier) + t2;
    assert ProofEncoding(c, p) + rest == RlpB256(p.stateRoot) + t1;
    assert DecodeB256(RlpB256(p.stateRoot) + t1) == Some((p.stateRoot, t1));
    assert DecodeB256(t1) == Some((p.nullifier, t2));
    assert c.u128.decode(t2) == Some((p.withdrawValue, t3));
    assert c.bytes.decode(t3) == Some((p.proof, rest));
  }

  /** The proof as a field codec of the transaction. */
  function ProofCodec(c: Codecs): Codec<WormholeTxProof> {
    Codec(p => ProofEncoding(c, p), p => ProofLength(c, p), s => DecodeProof(c, s))
  }

  lemma ProofCodecSound(c: Codecs)
    requires CodecsSound(c)
    ensures Sound(ProofCodec(c))
  {
    forall p, rest ensures DecodeProof(c, ProofEncoding(c, p) + rest) == Some((p, rest)) {
      ProofRoundTrip(c, p, rest);
    }
  }

  /** `WormholeTxProof::encode`. */
  method EncodeProof(c: Codecs, p: WormholeTxProof, out: ByteBuf)
    modifies out
    ensures out.data == old(out.data) + ProofEncoding(c, p)
  {
    out.PutSlice(RlpB256(p.stateRoot));
    out.PutSlice(RlpB256(p.nullifier));
    out.PutSlice(c.u128.encode(p.withdrawValue));
    out.PutSlice(c.bytes.encode(p.proof));
  }

  /** `WormholeTxProof::decode` over a cursor; on success the cursor is past the proof. */
  method ReadProof(c: Codecs, cur: Cursor) returns (r: Option<WormholeTxProof>)
    modifies cur
    ensures r.Some? <==> DecodeProof(c, old(cur.rest)).Some?
    ensures r.Some? ==> DecodeProof(c, old(cur.rest)) == Some((r.value, cur.rest))
  {
    var b := B256Codec();
    var stateRoot :- cur.Read(b);
    var nullifier :- cur.Read(b);
    var withdrawValue :- cur.Read(c.u128);
    var proof :- cur.Read(c.bytes);
    return Some(WormholeTxProof(stateRoot, nullifier, withdrawValue, proof));
  }

  // ---- WormholeTx fields ----

  /** The encodings of the fields `rlp_encode_fields` writes, in its order: chain id,
      nonce, priority fee, max fee, gas limit, `to`, input, access list, proof block
      number, proof. */
  function FieldEncodings(c: Codecs, tx: WormholeTx): (e: seq<seq<byte>>)
    ensures |e| == 10
  {
    [c.u64.encode(tx.chainId), c.u64.encode(tx.nonce), c.u128.encode(tx.maxPriorityFeePerGas),
     c.u128.encode(tx.maxFeePerGas), c.u64.encode(tx.gasLimit), c.address.encode(tx.to),
     c.bytes.encode(tx.input), c.accessList.encode(tx.accessList), c.u64.encode(tx.proofBlockNumber),
     ProofEncoding(c, tx.proof)]
  }

  /** The bytes `rlp_encode_fields` writes: the field encodings, one after the other. */
  function FieldsEncoding(c: Codecs, tx: WormholeTx): seq<byte> {
    var e := FieldEncodings(c, tx);
    e[0] + (e[1] + (e[2] + (e[3] + (e[4] + (e[5] + (e[6] + (e[7] + (e[8] + e[9]))))))))
  }

  /** Appending the field encodings one by one to `start` appends the fields' encoding. */
  lemma FieldsEncodingIsConcatenation(c: Codecs, tx: WormholeTx, start: seq<byte>)
    ensures var e := FieldEncodings(c, tx);
      start + e[0] + e[1] + e[2] + e[3] + e[4] + e[5] + e[6] + e[7] + e[8] + e[9] == start + FieldsEncoding(c, tx)
  {
    var e := FieldEncodings(c, tx);
    var f9 := e[8] + e[9];
    var f8 := e[7] + f9;
    var f7 := e[6] + f8;
    var f6 := e[5] + f7;
    var f5 := e[4] + f6;
    var f4 := e[3] + f5;
    var f3 := e[2] + f4;
    var f2 := e[1] + f3;
    AppendAssoc(start + e[0] + e[1] + e[2] + e[3] + e[4] + e[5] + e[6] + e[7], e[8], e[9]);
    AppendAssoc(start + e[0] + e[1] + e[2] + e[3] + e[4] + e[5] + e[6], e[7], f9);
    AppendAssoc(start + e[0] + e[1] + e[2] + e[3] + e[4] + e[5], e[6], f8);
    AppendAssoc(start + e[0] + e[1] + e[2] + e[3] + e[4], e[5], f7);
    AppendAssoc(start + e[0] + e[1] + e[2] + e[3], e[4], f6);
    AppendAssoc(start + e[0] + e[1] + e[2], e[3], f5);
    AppendAssoc(start + e[0] + e[1], e[2], f4);
    AppendAssoc(start + e[0], e[1], f3);
    AppendAssoc(start, e[0], f2);
  }

  /** `rlp_encoded_fields_length`: the sum of the lengths of the fields written. */
  function FieldsLength(c: Codecs, tx: WormholeTx): (n: nat)
    ensures CodecsSound(c) ==> n == |FieldsEncoding(c, tx)|
  {
    c.u64.length(tx.chainId) + c.u64.length(tx.nonce) + c.u128.length(tx.maxPriorityFeePerGas) +
    c.u128.length(tx.maxFeePerGas) + c.u64.length(tx.gasLimit) + c.address.length(tx.to) +
    c.bytes.length(tx.input) + c.accessList.length(tx.accessList) + c.u64.length(tx.proofBlockNumber) +
    ProofLength(c, tx.proof)
  }

  /** `rlp_decode_fields`: the fields in the order they are encoded. */
  function DecodeFields(c: Codecs, s: seq<byte>): (r: Option<(WormholeTx, seq<byte>)>)
    ensures r.Some? ==> c.u64.decode(s).Some? && r.value.0.chainId == c.u64.decode(s).value.0
  {
    var chainId :- c.u64.decode(s);
    var nonce :- c.u64.decode(chainId.1);
    var maxPriorityFeePerGas :- c.u128.decode(nonce.1);
    var maxFeePerGas :- c.u128.decode(maxPriorityFeePerGas.1);
    var gasLimit :- c.u64.decode(maxFeePerGas.1);
    var to :- c.address.decode(gasLimit.1);
    var input :- c.bytes.decode(to.1);
    var accessList :- c.accessList.decode(input.1);
    var proofBlockNumber :- c.u64.decode(accessList.1);
    var proof :- DecodeProof(c, proofBlockNumber.1);
    Some((WormholeTx(chainId.0, nonce.0, gasLimit.0, maxFeePerGas.0, maxPriorityFeePerGas.0, to.0, input.0,
                     accessList.0, proofBlockNumber.0, proof.0), proof.1))
  }

  /** Decoding the fields' encoding gives the transaction back and leaves what followed. */
  lemma FieldsRoundTrip(c: Codecs, tx: WormholeTx, rest: seq<byte>)
    requires CodecsSound(c)
    ensures DecodeFields(c, FieldsEncoding(c, tx) + rest) == Some((tx, rest))
  {
    // fk is the encoding of the fields from the k-th on.
    var e0, e1, e2 := c.u64.encode(tx.chainId), c.u64.encode(tx.nonce), c.u128.encode(tx.maxPriorityFeePerGas);
    var e3, e4, e5 := c.u128.encode(tx.maxFeePerGas), c.u64.encode(tx.gasLimit), c.address.encode(tx.to);
    var e6, e7, e8 := c.bytes.encode(tx.input), c.accessList.encode(tx.accessList), c.u64.encode(tx.proofBlockNumber);
    var f10 := ProofEncoding(c, tx.proof);
    var f9 := e8 + f10;
    var f8 := e7 + f9;
    var f7 := e6 + f8;
    var f6 := e5 + f7;
    var f5 := e4 + f6;
    var f4 := e3 + f5;
    var f3 := e2 + f4;
    var f2 := e1 + f3;
    assert FieldsEncoding(c, tx) == e0 + f2;
    AppendAssoc(e0, f2, rest);
    AppendAssoc(e1, f3, rest);
    AppendAssoc(e2, f4, rest);
    AppendAssoc(e3, f5, rest);
    AppendAssoc(e4, f6, rest);
    AppendAssoc(e5, f7, rest);
    AppendAssoc(e6, f8, rest);
    AppendAssoc(e7, f9, rest);
    AppendAssoc(e8, f10, rest);
    Decodes(c.u64, tx.chainId, f2 + rest);
    Decodes(c.u64, tx.nonce, f3 + rest);
    Decodes(c.u128, tx.maxPriorityFeePerGas, f4 + rest);
    Decodes(c.u128, tx.maxFeePerGas, f5 + rest);
    Decodes(c.u64, tx.gasLimit, f6 + rest);
    Decodes(c.address, tx.to, f7 + rest);
    Decodes(c.bytes, tx.input, f8 + rest);
    Decodes(c.accessList, tx.accessList, f9 + rest);
    Decodes(c.u64, tx.proofBlockNumber, f10 + rest);
    ProofRoundTrip(c, tx.proof, rest);
    DecodeFieldsSteps(c, tx, e0 + (f2 + rest), f2 + rest, f3 + rest, f4 + rest, f5 + rest,
                      f6 + rest, f7 + rest, f8 + rest, f9 + rest, f10 + rest, rest);
  }

  /** `rlp_decode_fields` succeeds with `tx` when each field, read in turn, gives
      the field of `tx` and leaves the input of the next read. */
  lemma DecodeFieldsSteps(
    c: Codecs, tx: WormholeTx,
    s0: seq<byte>, s1: seq<byte>, s2: seq<byte>, s3: seq<byte>, s4: seq<byte>,
    s5: seq<byte>, s6: seq<byte>, s7: seq<byte>, s8: seq<byte>, s9: seq<byte>, rest: seq<byte>)
    requires c.u64.decode(s0) == Some((tx.chainId, s1))
    requires c.u64.decode(s1) == Some((tx.nonce, s2))
    requires c.u128.decode(s2) == Some((tx.maxPriorityFeePerGas, s3))
    requires c.u128.decode(s3) == Some((tx.maxFeePerGas, s4))
    requires c.u64.decode(s4) == Some((tx.gasLimit, s5))
    requires c.address.decode(s5) == Some((tx.to, s6))
    requires c.bytes.decode(s6) == Some((tx.input, s7))
    requires c.accessList.decode(s7) == Some((tx.accessList, s8))
    requires c.u64.decode(s8) == Some((tx.proofBlockNumber, s9))
    requires DecodeProof(c, s9) == Some((tx.proof, rest))
    ensures DecodeFields(c, s0) == Some((tx, rest))
  {
  }

  /** `rlp_encode_fields`, appending to `out`. */
  method EncodeFields(c: Codecs, tx: WormholeTx, out: ByteBuf)
    modifies out
    ensures out.data == old(out.data) + FieldsEncoding(c, tx)
  {
    ghost var e := FieldEncodings(c, tx);
    ghost var start := out.data;
    out.PutSlice(c.u64.encode(tx.chainId));
    out.PutSlice(c.u64.encode(tx.nonce));
    out.PutSlice(c.u128.encode(tx.maxPriorityFeePerGas));
    out.PutSlice(c.u128.encode(tx.maxFeePerGas));
    out.PutSlice(c.u64.encode(tx.gasLimit));
    out.PutSlice(c.address.encode(tx.to));
    out.PutSlice(c.bytes.encode(tx.input));
    out.PutSlice(c.accessList.encode(tx.accessList));
    out.PutSlice(c.u64.encode(tx.proofBlockNumber));
    EncodeProof(c, tx.proof, out);
    assert out.data == start + e[0] + e[1] + e[2] + e[3] + e[4] + e[5] + e[6] + e[7] + e[8] + e[9];
    FieldsEncodingIsConcatenation(c, tx, start);
  }

  /** `rlp_decode_fields` over a cursor; on success the cursor is past the fields. */
  method ReadFields(c: Codecs, cur: Cursor) returns (r: Option<WormholeTx>)
    modifies cur
    ensures r.Some? <==> DecodeFields(c, old(cur.rest)).Some?
    ensures r.Some? ==> DecodeFields(c, old(cur.rest)) == Some((r.value, cur.rest))
  {
    var chainId :- cur.Read(c.u64);
    var nonce :- cur.Read(c.u64);
    var maxPriorityFeePerGas :- cur.Read(c.u128);
    var maxFeePerGas :- cur.Read(c.u128);
    var gasLimit :- cur.Read(c.u64);
    var to :- cur.Read(c.address);
    var input :- cur.Read(c.bytes);
    var accessList :- cur.Read(c.accessList);
    var proofBlockNumber :- cur.Read(c.u64);
    var proof :- ReadProof(c, cur);
    return Some(WormholeTx(chainId, nonce, gasLimit, maxFeePerGas, maxPriorityFeePerGas, to, input,
                           accessList, proofBlockNumber, proof));
  }

  // ---- Envelope and signing ----

  /** The RLP list header of a payload of the given length, from the library. */
  type ListHeader = nat -> seq<byte>

  /** `Encodable::encode` (`rlp_encode`): the list header of the fields' length, then the fields. */
  function TxEncoding(c: Codecs, header: ListHeader, tx: WormholeTx): seq<byte> {
    header(FieldsLength(c, tx)) + FieldsEncoding(c, tx)
  }

  /** `Encodable::length` (`rlp_encoded_length`). */
  function TxLength(c: Codecs, header: ListHeader, tx: WormholeTx): (n: nat)
    ensures CodecsSound(c) ==> n == |TxEncoding(c, header, tx)|
  {
    |header(FieldsLength(c, tx))| + FieldsLength(c, tx)
  }

  /** The bytes `encode_for_signing` writes: the type byte, then the encoding. */
  function SigningPayload(c: Codecs, header: ListHeader, tx: WormholeTx): seq<byte> {
    [WORMHOLE_TX_TYPE] + TxEncoding(c, header, tx)
  }

  /** `payload_len_for_signature`: one more than the encoded length, which is the
      length of the signing payload. */
  function PayloadLenForSignature(c: Codecs, header: ListHeader, tx: WormholeTx): (n: nat)
    ensures CodecsSound(c) ==> n == |SigningPayload(c, header, tx)|
  {
    TxLength(c, header, tx) + 1
  }

  /** `Encodable::encode` (`rlp_encode`), appending to `out`. */
  method Encode(c: Codecs, header: ListHeader, tx: WormholeTx, out: ByteBuf)
    modifies out
    ensures out.data == old(out.data) + TxEncoding(c, header, tx)
  {
    ghost var start := out.data;
    var h := header(FieldsLength(c, tx));
    out.PutSlice(h);
    EncodeFields(c, tx, out);
    AppendAssoc(start, h, FieldsEncoding(c, tx));
  }

  /** `encode_for_signing`, appending to `out`. */
  method EncodeForSigning(c: Codecs, header: ListHeader, tx: WormholeTx, out: ByteBuf)
    modifies out
    ensures out.data == old(out.data) + SigningPayload(c, header, tx)
  {
    ghost var start := out.data;
    out.Put(WORMHOLE_TX_TYPE);
    Encode(c, header, tx, out);
    AppendAssoc(start, [WORMHOLE_TX_TYPE], TxEncoding(c, header, tx));
  }

  /** The signing payload starts with the type byte 5; after it and the list header,
      the fields decode to the transaction with nothing left over. */
  lemma SigningPayloadDecodes(c: Codecs, header: ListHeader, tx: WormholeTx)
    requires CodecsSound(c)
    ensures var p := SigningPayload(c, header, tx);
      && p[0] == 5
      && DecodeFields(c, p[1 + |header(FieldsLength(c, tx))|..]) == Some((tx, []))
  {
    var p := SigningPayload(c, header, tx);
    assert p[1 + |header(FieldsLength(c, tx))|..] == FieldsEncoding(c, tx) + [];
    FieldsRoundTrip(c, tx, []);
  }

  /** `set_chain_id`: the chain id becomes `chainId`; every other field is kept. */
  function SetChainId(tx: WormholeTx, chainId: ChainId): (r: WormholeTx)
    ensures r.chainId == chainId
    ensures r.(chainId := tx.chainId) == tx
  {
    tx.(chainId := chainId)
  }

  /** After `set_chain_id` the encoded fields decode to the old transaction with
      only the chain id replaced. */
  lemma SetChainIdEncoding(c: Codecs, tx: WormholeTx, chainId: ChainId)
    requires CodecsSound(c)
    ensures var d := DecodeFields(c, FieldsEncoding(c, SetChainId(tx, chainId)));
      d.Some? && d.value.0.chainId == chainId && d.value.0.(chainId := tx.chainId) == tx
  {
    FieldsRoundTrip(c, SetChainId(tx, chainId), []);
    assert FieldsEncoding(c, SetChainId(tx, chainId)) + [] == FieldsEncoding(c, SetChainId(tx, chainId));
  }

  // ---- Gas price ----

  /** `effective_gas_price`: the max fee when there is no base fee; otherwise the base
      fee plus the priority fee, capped at the max fee. The sum is formed only when it
      is below the max fee, so it never leaves the 128-bit range. */
  function EffectiveGasPrice(tx: WormholeTx, baseFee: Option<U64>): (price: U128)
    ensures baseFee.None? ==> price == tx.maxFeePerGas
    ensures baseFee.Some? ==>
      price == if tx.maxFeePerGas <= tx.maxPriorityFeePerGas + baseFee.value then tx.maxFeePerGas
               else tx.maxPriorityFeePerGas + baseFee.value
    ensures price <= tx.maxFeePerGas
  {
    match baseFee
    case None => tx.maxFeePerGas
    case Some(base) =>
      var tip := if tx.maxFeePerGas >= base then tx.maxFeePerGas - base else 0;
      if tip > tx.maxPriorityFeePerGas then tx.maxPriorityFeePerGas + base
      else tx.maxFeePerGas
  }

  /** The price a transaction pays per gas never falls below the base fee when its
      max fee covers the base fee, and it pays at most the tip it offers on top. */
  lemma EffectiveGasPriceBounds(tx: WormholeTx, base: U64)
    requires base <= tx.maxFeePerGas
    ensures base <= EffectiveGasPrice(tx, Some(base)) <= base + tx.maxPriorityFeePerGas
  {
  }

  // ---- Fixed accessors ----

  /** `TxKind` of the `Transaction` trait. */
  datatype TxKind = Create | Call(to: Address)

  /** `Address::is_zero`: every byte is zero. */
  predicate IsZero(a: Address) {
    forall k | 0 <= k < 20 :: a[k] == 0
  }

  /** `tx_type` and `ty`. */
  function TxType(): byte { WORMHOLE_TX_TYPE }
  function Ty(tx: WormholeTx): byte { WORMHOLE_TX_TYPE }
  /** `is_type`: no type id is reported as this type. */
  function IsType(typeId: byte): bool { false }
  function ChainIdOf(tx: WormholeTx): Option<ChainId> { Some(tx.chainId) }
  function GasPrice(tx: WormholeTx): Option<U128> { None }
  function MaxPriorityFeePerGas(tx: WormholeTx): Option<U128> { Some(tx.maxPriorityFeePerGas) }
  function MaxFeePerBlobGas(tx: WormholeTx): Option<U128> { None }
  function PriorityFeeOrPrice(tx: WormholeTx): U128 { tx.maxPriorityFeePerGas }
  function IsDynamicFee(tx: WormholeTx): bool { true }
  function Value(tx: WormholeTx): U256 { 0 }
  function AccessListOf(tx: WormholeTx): Option<AccessList> { Some(tx.accessList) }
  function BlobVersionedHashes(tx: WormholeTx): Option<seq<Bytes32>> { None }
  /** `is_create`: the recipient is the zero address. */
  function IsCreate(tx: WormholeTx): (b: bool)
    ensures b <==> FromBE(tx.to) == 0
  {
    FromBEZero(tx.to);
    IsZero(tx.to)
  }

  /** What the accessors report for every wormhole transaction: type 5, no value,
      no legacy gas price and no blob gas, a dynamic fee whose tip is the priority
      fee, and an access list; `is_type` accepts no type id. */
  lemma FixedAccessors(tx: WormholeTx)
    ensures TxType() == Ty(tx) == WORMHOLE_TX_TYPE == 5
    ensures forall id: byte :: !IsType(id)
    ensures Value(tx) == 0 && GasPrice(tx).None? && MaxFeePerBlobGas(tx).None? && BlobVersionedHashes(tx).None?
    ensures IsDynamicFee(tx) && PriorityFeeOrPrice(tx) == tx.maxPriorityFeePerGas
    ensures MaxPriorityFeePerGas(tx) == Some(PriorityFeeOrPrice(tx))
    ensures ChainIdOf(tx) == Some(tx.chainId) && AccessListOf(tx) == Some(tx.accessList)
  {
  }

  /** `kind` as written: `None.into()`, a contract creation, whatever `to` holds. */
  function Kind(tx: WormholeTx): (k: TxKind)
    ensures k.Create?
  {
    Create
  }

  /** A transaction to a non-zero address is reported as a creation by `kind` and
      as not a creation by `is_create`. */
  lemma KindContradictsIsCreate(tx: WormholeTx)
    requires !IsZero(tx.to)
    ensures Kind(tx).Create? && !IsCreate(tx)
  {
  }

  /** `kind` derived from `to` the way `is_create` reads it: a creation exactly for
      the zero address, otherwise a call to `to`. */
  function KindCorrected(tx: WormholeTx): (k: TxKind)
    ensures k.Create? <==> IsCreate(tx)
    ensures k.Call? ==> k.to == tx.to
  {
    if IsZero(tx.to) then Create else Call(tx.to)
  }
}
