/** The 220-byte public output of a proof, read by the destination chain at fixed offsets. */
module ProofOutputsCodec {
  import opened ByteCodec

  const SIZE: nat := 220

  datatype ProofOutputs = ProofOutputs(
    inputSlot: U64,
    inputStoreHash: B256,
    outputSlot: U64,
    outputStoreHash: B256,
    executionStateRoot: B256,
    verifiedRequestsRoot: B256,
    nextSyncCommitteeHash: B256,
    proofRequestQueueAddress: Address,
    inputQueueCursor: U64,
    outputQueueCursor: U64,
    outputBlockNumber: U64)

  datatype CodecError = InvalidLength(actual: nat)

  /** The fields in order, as byte strings of fixed widths. */
  function Fields(o: ProofOutputs): (f: seq<seq<Byte>>) {
    [ ToBe(o.inputSlot, 8), o.inputStoreHash, ToBe(o.outputSlot, 8), o.outputStoreHash, o.executionStateRoot,
      o.verifiedRequestsRoot, o.nextSyncCommitteeHash, o.proofRequestQueueAddress,
      ToBe(o.inputQueueCursor, 8), ToBe(o.outputQueueCursor, 8), ToBe(o.outputBlockNumber, 8) ]
  }

  /** Start of field `i`, and the end of the last one: the offsets the verifier contract reads. */
  function Offset(i: nat): (at: nat)
    requires i <= 11
    ensures at <= SIZE && (i == 11 ==> at == SIZE)
  {
    match i
    case 0 => 0 case 1 => 8 case 2 => 40 case 3 => 48 case 4 => 80 case 5 => 112
    case 6 => 144 case 7 => 176 case 8 => 196 case 9 => 204 case 10 => 212 case _ => 220
  }

  lemma FieldFits(i: nat, o: ProofOutputs)
    requires i < 11
    ensures Offset(i) + |Fields(o)[i]| == Offset(i + 1)
  {
  }

  lemma OffsetsIncrease(j: nat, i: nat)
    requires j < i <= 11
    ensures Offset(j) <= Offset(j + 1) <= Offset(i)
  {
  }

  predicate HoldsField(bytes: seq<Byte>, o: ProofOutputs, i: nat)
    requires i < 11
  {
    && |bytes| == SIZE && Offset(i) <= Offset(i + 1)
    && bytes[Offset(i)..Offset(i + 1)] == Fields(o)[i]
  }

  /** The bytes hold the first `count` fields of `o`, each at its offset. */
  predicate Holds(bytes: seq<Byte>, o: ProofOutputs, count: nat)
    requires count <= 11
  {
    && |bytes| == SIZE
    && forall i | 0 <= i < count :: HoldsField(bytes, o, i)
  }

  /** `buf[at..at + src.len()].copy_from_slice(src)`. */
  method CopyFromSlice(buf: array<Byte>, at: nat, src: seq<Byte>)
    requires at + |src| <= buf.Length
    modifies buf
    ensures buf[..at] == old(buf[..at]) && buf[at..at + |src|] == src
    ensures buf[at + |src|..] == old(buf[at + |src|..])
  {
    forall i | 0 <= i < |src| {
      buf[at + i] := src[i];
    }
  }

  /** Writes field `i` at its offset, leaving the fields before it in place. */
  method WriteField(buf: array<Byte>, o: ProofOutputs, i: nat)
    requires i < 11 && buf.Length == SIZE && Holds(buf[..], o, i)
    modifies buf
    ensures Holds(buf[..], o, i + 1)
  {
    ghost var before := buf[..];
    FieldFits(i, o);
    CopyFromSlice(buf, Offset(i), Fields(o)[i]);
    ghost var after := buf[..];
    assert after[..Offset(i)] == before[..Offset(i)];
    forall j | 0 <= j < i
      ensures HoldsField(after, o, j)
    {
      assert HoldsField(before, o, j);
      OffsetsIncrease(j, i);
      PrefixSlice(before, after, Offset(j), Offset(j + 1), Offset(i));
    }
  }

  lemma PrefixSlice(a: seq<Byte>, b: seq<Byte>, lo: nat, hi: nat, end: nat)
    requires lo <= hi <= end <= |a| && end <= |b| && a[..end] == b[..end]
    ensures a[lo..hi] == b[lo..hi]
  {
  }

  /** The layout of the 220 bytes, field by field, as the destination chain reads them. */
  predicate LaidOut(bytes: seq<Byte>, o: ProofOutputs) {
    && |bytes| == 220
    && bytes[0..8] == ToBe(o.inputSlot, 8) && bytes[8..40] == o.inputStoreHash
    && bytes[40..48] == ToBe(o.outputSlot, 8) && bytes[48..80] == o.outputStoreHash
    && bytes[80..112] == o.executionStateRoot && bytes[112..144] == o.verifiedRequestsRoot
    && bytes[144..176] == o.nextSyncCommitteeHash && bytes[176..196] == o.proofRequestQueueAddress
    && bytes[196..204] == ToBe(o.inputQueueCursor, 8) && bytes[204..212] == ToBe(o.outputQueueCursor, 8)
    && bytes[212..220] == ToBe(o.outputBlockNumber, 8)
  }

  lemma HeldIsLaidOut(bytes: seq<Byte>, o: ProofOutputs)
    requires Holds(bytes, o, 11)
    ensures LaidOut(bytes, o)
  {
    assert HoldsField(bytes, o, 0) && HoldsField(bytes, o, 1) && HoldsField(bytes, o, 2) && HoldsField(bytes, o, 3);
    assert HoldsField(bytes, o, 4) && HoldsField(bytes, o, 5) && HoldsField(bytes, o, 6) && HoldsField(bytes, o, 7);
    assert HoldsField(bytes, o, 8) && HoldsField(bytes, o, 9) && HoldsField(bytes, o, 10);
  }

  method ToBytes(o: ProofOutputs) returns (bytes: seq<Byte>)
    ensures Holds(bytes, o, 11) && LaidOut(bytes, o)
  {
    var buf := new Byte[SIZE](_ => 0);
    WriteField(buf, o, 0);
    WriteField(buf, o, 1);
    WriteField(buf, o, 2);
    WriteField(buf, o, 3);
    WriteField(buf, o, 4);
    WriteField(buf, o, 5);
    WriteField(buf, o, 6);
    WriteField(buf, o, 7);
    WriteField(buf, o, 8);
    WriteField(buf, o, 9);
    WriteField(buf, o, 10);
    bytes := buf[..];
    HeldIsLaidOut(bytes, o);
  }

  function ReadU64(bytes: seq<Byte>): (n: U64)
    requires |bytes| == 8
    ensures ToBe(n, 8) == bytes
  {
    BeNatBound(bytes);
    Pow256Widths();
    BeRoundTripBytes(bytes);
    BeNat(bytes)
  }

  function FromBytes(bytes: seq<Byte>): (r: Result<ProofOutputs, CodecError>)
    ensures r.Ok? <==> |bytes| == SIZE
  {
    if |bytes| != SIZE then Err(InvalidLength(|bytes|))
    else Ok(ProofOutputs(
      ReadU64(bytes[0..8]), bytes[8..40], ReadU64(bytes[40..48]), bytes[48..80], bytes[80..112],
      bytes[112..144], bytes[144..176], bytes[176..196], ReadU64(bytes[196..204]), ReadU64(bytes[204..212]),
      ReadU64(bytes[212..220])))
  }

  /** Decoding reads the same layout. */
  lemma DecodedIsLaidOut(bytes: seq<Byte>)
    requires |bytes| == 220
    ensures FromBytes(bytes).Ok? && LaidOut(bytes, FromBytes(bytes).value)
  {
  }

  lemma ReadWritten(n: U64)
    ensures ReadU64(ToBe(n, 8)) == n
  {
    Pow256Widths();
    BeRoundTrip(n, 8);
  }

  /** Decoding recovers the record whose fields the bytes hold. */
  lemma DecodeEncoded(bytes: seq<Byte>, o: ProofOutputs)
    requires Holds(bytes, o, 11)
    ensures FromBytes(bytes) == Ok(o)
  {
    assert HoldsField(bytes, o, 0) && HoldsField(bytes, o, 1) && HoldsField(bytes, o, 2) && HoldsField(bytes, o, 3);
    assert HoldsField(bytes, o, 4) && HoldsField(bytes, o, 5) && HoldsField(bytes, o, 6) && HoldsField(bytes, o, 7);
    assert HoldsField(bytes, o, 8) && HoldsField(bytes, o, 9) && HoldsField(bytes, o, 10);
    ReadWritten(o.inputSlot);
    ReadWritten(o.outputSlot);
    ReadWritten(o.inputQueueCursor);
    ReadWritten(o.outputQueueCursor);
    ReadWritten(o.outputBlockNumber);
  }

  /** Every 220-byte buffer decodes to a record whose encoding is that buffer and no other. */
  lemma EncodeDecoded(bytes: seq<Byte>, again: seq<Byte>)
    requires |bytes| == SIZE && Holds(again, FromBytes(bytes).value, 11)
    ensures again == bytes
  {
    var o := FromBytes(bytes).value;
    for i := 0 to 11
      invariant again[..Offset(i)] == bytes[..Offset(i)]
    {
      assert HoldsField(again, o, i) && HoldsField(bytes, o, i);
      assert again[..Offset(i + 1)] == again[..Offset(i)] + again[Offset(i)..Offset(i + 1)];
      assert bytes[..Offset(i + 1)] == bytes[..Offset(i)] + bytes[Offset(i)..Offset(i + 1)];
    }
    assert again[..SIZE] == again && bytes[..SIZE] == bytes;
  }

  /** The codec as a whole: decoding an encoding gives the record back. */
  method RoundTrip(o: ProofOutputs) returns (decoded: Result<ProofOutputs, CodecError>)
    ensures decoded == Ok(o)
  {
    var bytes := ToBytes(o);
    DecodeEncoded(bytes, o);
    decoded := FromBytes(bytes);
  }
}
