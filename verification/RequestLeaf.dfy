/** The request leaf: four field elements packed from 117 bytes, hashed with Poseidon. */
module RequestLeaf {
  import opened ByteCodec

  /** Order of the Pallas base field, the field `Fp` of the Mina curves. */
  const MODULUS: nat := 0x40000000_00000000_00000000_00000000_224698fc_094cf91b_992d30ed_00000001

  type Fp = x: nat | x < MODULUS

  /** Poseidon over a slice of field elements. Nothing is assumed about it; in particular it is
      never taken to be injective, which no function into a finite field could be. */
  type Hasher = seq<Fp> -> Fp

  datatype Request = Request(target: Address, keysCount: Byte, key0: B256, key1: B256, value: Word)

  datatype FieldError = NotCanonical

  /** `Fp::from_bytes`: little-endian, rejecting values that are not below the modulus. */
  function FieldFromBytes(s: seq<Byte>): (r: Result<Fp, FieldError>) {
    if LeNat(s) < MODULUS then Ok(LeNat(s)) else Err(NotCanonical)
  }

  /** `Fp::to_bytes`: 32 little-endian bytes. */
  function FieldToBytes(x: Fp): (s: B256) {
    ToLe(x, 32)
  }

  lemma FieldBytesRoundTrip(x: Fp)
    ensures FieldFromBytes(FieldToBytes(x)) == Ok(x)
  {
    Pow256Widths();
    LeRoundTrip(x, 32);
  }

  /** The modulus is that of the curve's definition: 2^254 and a remainder of 126 bits. */
  lemma ModulusIsPallas()
    ensures MODULUS == 64 * Pow256(31) + 45560315531419706090280762371685220353
  {
    Pow256Widths();
  }

  /** Exactly the encodings of field elements are accepted: each element has one. */
  lemma CanonicalExactly(s: B256)
    ensures FieldFromBytes(s).Ok? <==> exists x: Fp :: FieldToBytes(x) == s
    ensures FieldFromBytes(s).Ok? ==> FieldToBytes(FieldFromBytes(s).value) == s
  {
    LeRoundTripBytes(s);
    if FieldFromBytes(s).Ok? {
      assert FieldToBytes(FieldFromBytes(s).value) == s;
    }
    if x: Fp :| FieldToBytes(x) == s {
      FieldBytesRoundTrip(x);
    }
  }

  /** The four 32-byte buffers, each with zeros where nothing was copied in. */
  function LeafBuffers(r: Request): (b: seq<B256>)
    ensures |b| == 4
  {
    var value := ToBe(r.value, 32);
    [ r.target + [r.keysCount, r.key0[0], r.key1[0], value[0]] + Zeros(8),
      r.key0[1..32] + Zeros(1),
      r.key1[1..32] + Zeros(1),
      value[1..32] + Zeros(1) ]
  }

  function PackRequestLeafFields(r: Request): (fields: Result<seq<Fp>, FieldError>) {
    var b := LeafBuffers(r);
    match (FieldFromBytes(b[0]), FieldFromBytes(b[1]), FieldFromBytes(b[2]), FieldFromBytes(b[3]))
    case (Ok(f0), Ok(f1), Ok(f2), Ok(f3)) => Ok([f0, f1, f2, f3])
    case _ => Err(NotCanonical)
  }

  /** Reads the 117 bytes back out of four field elements. */
  function UnpackRequest(fields: seq<Fp>): (r: Request)
    requires |fields| == 4
  {
    var b0, b1, b2, b3 := ToLe(fields[0], 32), ToLe(fields[1], 32), ToLe(fields[2], 32), ToLe(fields[3], 32);
    Request(b0[..20], b0[20], [b0[21]] + b1[..31], [b0[22]] + b2[..31], BeNat([b0[23]] + b3[..31]) % TWO_256)
  }

  lemma BufferIsSmall(body: seq<Byte>, pad: nat)
    requires |body| + pad == 32 && pad > 0
    ensures LeNat(body + Zeros(pad)) < TWO_248
    ensures FieldFromBytes(body + Zeros(pad)) == Ok(LeNat(body + Zeros(pad)))
    ensures ToLe(LeNat(body + Zeros(pad)), 32) == body + Zeros(pad)
  {
    LeTrailingZeros(body, pad);
    LeTrailingZeros(body, pad - 1);
    LeNatBound(body + Zeros(pad - 1));
    Pow256Widths();
    LeRoundTripBytes(body + Zeros(pad));
  }

  lemma PackedFields(r: Request)
    ensures var fields, b := PackRequestLeafFields(r), LeafBuffers(r);
            && fields.Ok? && |fields.value| == 4
            && forall i | 0 <= i < 4 :: fields.value[i] < TWO_248 && ToLe(fields.value[i], 32) == b[i]
  {
    var value := ToBe(r.value, 32);
    BufferIsSmall(r.target + [r.keysCount, r.key0[0], r.key1[0], value[0]], 8);
    BufferIsSmall(r.key0[1..32], 1);
    BufferIsSmall(r.key1[1..32], 1);
    BufferIsSmall(value[1..32], 1);
  }

  /** The leading byte kept in the first field and the 31 bytes of its own field rejoin. */
  lemma RejoinLeadingByte(word: B256)
    ensures [word[0]] + (word[1..32] + Zeros(1))[..31] == word
  {
  }

  lemma ValueRejoins(value: Word)
    ensures BeNat([ToBe(value, 32)[0]] + (ToBe(value, 32)[1..32] + Zeros(1))[..31]) % TWO_256 == value
  {
    RejoinLeadingByte(ToBe(value, 32));
    Pow256Widths();
    BeRoundTrip(value, 32);
  }

  /** Fields that spell a request's buffers unpack to the request. */
  lemma BuffersUnpack(r: Request, fields: seq<Fp>)
    requires |fields| == 4 && forall i | 0 <= i < 4 :: ToLe(fields[i], 32) == LeafBuffers(r)[i]
    ensures UnpackRequest(fields) == r
  {
    var b := LeafBuffers(r);
    assert ToLe(fields[0], 32) == b[0] && ToLe(fields[1], 32) == b[1];
    assert ToLe(fields[2], 32) == b[2] && ToLe(fields[3], 32) == b[3];
    assert b[0][..20] == r.target;
    RejoinLeadingByte(r.key0);
    RejoinLeadingByte(r.key1);
    ValueRejoins(r.value);
  }

  /** Packing is total: whatever the 117 bytes, the four values stay below 2^248, hence below the
      modulus, so the error path of `hash_request_leaf` is unreachable. It is also invertible. */
  lemma PackingIsTotalAndInvertible(r: Request)
    ensures var fields := PackRequestLeafFields(r);
            && fields.Ok? && |fields.value| == 4
            && (forall i | 0 <= i < 4 :: fields.value[i] < TWO_248)
            && UnpackRequest(fields.value) == r
  {
    PackedFields(r);
    BuffersUnpack(r, PackRequestLeafFields(r).value);
  }

  /** The packed fields are the little-endian values of the buffers. */
  lemma PackedAreBuffers(r: Request)
    ensures var b := LeafBuffers(r);
            PackRequestLeafFields(r) == Ok([LeNat(b[0]), LeNat(b[1]), LeNat(b[2]), LeNat(b[3])])
  {
    PackingIsTotalAndInvertible(r);
  }

  lemma FirstBufferValue(target: seq<Byte>, tail: seq<Byte>, pad: nat)
    ensures LeNat(target + tail + Zeros(pad)) == LeNat(target) + Pow256(|target|) * LeNat(tail)
  {
    LeSplit(target, tail);
    LeTrailingZeros(target + tail, pad);
  }

  lemma OtherBufferValue(word: B256)
    ensures LeNat(word[1..32] + Zeros(1)) == LeNat(word[1..])
  {
    LeTrailingZeros(word[1..32], 1);
    assert word[1..32] == word[1..];
  }

  /** The four fields as numbers: the target, key count and leading bytes make the first, and the rest of
      each word one of the others. Nothing else contributes, so padding is zero. */
  lemma PackedValues(r: Request)
    ensures var value := ToBe(r.value, 32);
            PackRequestLeafFields(r) ==
              Ok([ LeNat(r.target) + Pow256(20) * LeNat([r.keysCount, r.key0[0], r.key1[0], value[0]]),
                   LeNat(r.key0[1..]), LeNat(r.key1[1..]), LeNat(value[1..]) ])
  {
    var value := ToBe(r.value, 32);
    PackedAreBuffers(r);
    FirstBufferValue(r.target, [r.keysCount, r.key0[0], r.key1[0], value[0]], 8);
    OtherBufferValue(r.key0);
    OtherBufferValue(r.key1);
    OtherBufferValue(value);
  }

  /** Fields a request can pack to: 24 bytes in the first, 31 in each of the others. */
  predicate InPackedRange(fields: seq<Fp>) {
    && |fields| == 4 && fields[0] < Pow256(24)
    && fields[1] < Pow256(31) && fields[2] < Pow256(31) && fields[3] < Pow256(31)
  }

  lemma PaddedBound(body: seq<Byte>, pad: nat)
    ensures LeNat(body + Zeros(pad)) < Pow256(|body|)
  {
    LeTrailingZeros(body, pad);
    LeNatBound(body);
  }

  lemma PackedInRange(r: Request)
    ensures PackRequestLeafFields(r).Ok? && InPackedRange(PackRequestLeafFields(r).value)
  {
    var value := ToBe(r.value, 32);
    PackedAreBuffers(r);
    PaddedBound(r.target + [r.keysCount, r.key0[0], r.key1[0], value[0]], 8);
    PaddedBound(r.key0[1..32], 1);
    PaddedBound(r.key1[1..32], 1);
    PaddedBound(value[1..32], 1);
  }

  lemma ZeroPadded(x: nat, width: nat, k: nat, body: seq<Byte>)
    requires k <= width && x < Pow256(k) && body == ToLe(x, width)[..k]
    ensures body + Zeros(width - k) == ToLe(x, width)
  {
    LeHighZeros(x, width, k);
  }

  lemma UnpackedWord(word: B256)
    ensures ToBe(BeNat(word) % TWO_256, 32) == word
  {
    Pow256Widths();
    BeTruncated(word, TWO_256);
  }

  /** The buffers of an unpacked request are the bytes of the fields it was unpacked from. */
  lemma UnpackedBuffers(fields: seq<Fp>)
    requires InPackedRange(fields)
    ensures LeafBuffers(UnpackRequest(fields))
         == [ToLe(fields[0], 32), ToLe(fields[1], 32), ToLe(fields[2], 32), ToLe(fields[3], 32)]
  {
    var b0, b1, b2, b3 := ToLe(fields[0], 32), ToLe(fields[1], 32), ToLe(fields[2], 32), ToLe(fields[3], 32);
    UnpackedWord([b0[23]] + b3[..31]);
    RejoinFirstBuffer(b0);
    RejoinOtherBuffer(b0[21], b1);
    RejoinOtherBuffer(b0[22], b2);
    RejoinOtherBuffer(b0[23], b3);
    ZeroPadded(fields[0], 32, 24, b0[..24]);
    ZeroPadded(fields[1], 32, 31, b1[..31]);
    ZeroPadded(fields[2], 32, 31, b2[..31]);
    ZeroPadded(fields[3], 32, 31, b3[..31]);
  }

  lemma RejoinFirstBuffer(b: B256)
    ensures b[..20] + [b[20], b[21], b[22], b[23]] == b[..24]
  {
  }

  lemma RejoinOtherBuffer(first: Byte, b: B256)
    ensures ([first] + b[..31])[1..32] == b[..31]
  {
  }

  /** Packing is onto its range: every four fields in range are those of the request they unpack to. With
      the inverse above, packing is a bijection between requests and fields in range. */
  lemma UnpackingIsInvertible(fields: seq<Fp>)
    requires InPackedRange(fields)
    ensures PackRequestLeafFields(UnpackRequest(fields)) == Ok(fields)
  {
    UnpackedBuffers(fields);
    PackedAreBuffers(UnpackRequest(fields));
    FieldsOfBytes(fields);
  }

  lemma FieldsOfBytes(fields: seq<Fp>)
    requires |fields| == 4
    ensures fields == [ LeNat(ToLe(fields[0], 32)), LeNat(ToLe(fields[1], 32)),
                        LeNat(ToLe(fields[2], 32)), LeNat(ToLe(fields[3], 32)) ]
  {
    FieldOfBytes(fields[0]);
    FieldOfBytes(fields[1]);
    FieldOfBytes(fields[2]);
    FieldOfBytes(fields[3]);
  }

  lemma FieldOfBytes(x: Fp)
    ensures LeNat(ToLe(x, 32)) == x
  {
    Pow256Widths();
    LeRoundTrip(x, 32);
  }

  function HashRequestLeaf(h: Hasher, r: Request): (leaf: Result<Fp, FieldError>)
    ensures leaf.Ok?
  {
    PackingIsTotalAndInvertible(r);
    match PackRequestLeafFields(r)
    case Ok(fields) => Ok(h(fields))
    case Err(e) => Err(e)
  }

  /** The leaf is the hash of the one list of fields in range that spells the request. */
  lemma LeafIsHashOfFields(h: Hasher, r: Request, fields: seq<Fp>)
    requires InPackedRange(fields) && UnpackRequest(fields) == r
    ensures HashRequestLeaf(h, r) == Ok(h(fields)) && LeafOf(h, r) == h(fields)
  {
    UnpackingIsInvertible(fields);
  }

  /** The fields hashed for a request; distinct requests hash distinct inputs. */
  function LeafInput(r: Request): (fields: seq<Fp>)
    ensures |fields| == 4 && UnpackRequest(fields) == r
  {
    PackingIsTotalAndInvertible(r);
    PackRequestLeafFields(r).value
  }

  function LeafOf(h: Hasher, r: Request): (leaf: Fp) {
    h(LeafInput(r))
  }

  function Leaves(h: Hasher, rs: seq<Request>): (leaves: seq<Fp>)
    ensures |leaves| == |rs|
  {
    seq(|rs|, i requires 0 <= i < |rs| => LeafOf(h, rs[i]))
  }
}
