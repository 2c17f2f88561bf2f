/** The guest program and the host's dry run of its consensus part, over abstract light-client
    operations, and the chain of store hashes that links one proof to the next. */
module Consensus {
  import opened ByteCodec
  import opened RequestLeaf
  import opened MerkleTree
  import opened ChainState
  import opened QueueVerifier
  import opened ProofOutputsCodec

  // ---- light client ---------------------------------------------------------------------------

  datatype ExecutionHeader = ExecutionHeader(stateRoot: B256, blockNumber: U64)

  datatype Header = Header(slot: U64, execution: Option<ExecutionHeader>, body: seq<Byte>)

  datatype SyncCommittee = SyncCommittee(keys: seq<Byte>)

  /** `rest` stands for the store fields that are not hashed. */
  datatype Store = Store(
    finalizedHeader: Header, currentCommittee: SyncCommittee, nextCommittee: Option<SyncCommittee>, rest: seq<Byte>)

  datatype Network = Network(genesisRoot: B256, forks: seq<Byte>)

  /** The Helios and encoding functions the programs call, for updates of types `U` and `F`. */
  datatype LightClient<!U, !F> = LightClient(
    verifyUpdate: (U, U64, Store, Network) -> bool,
    applyUpdate: (Store, U) -> Store,
    verifyFinalityUpdate: (F, U64, Store, Network) -> bool,
    applyFinalityUpdate: (Store, F) -> Store,
    committeeRoot: SyncCommittee -> B256,
    encodeHeader: Header -> Option<seq<Byte>>,
    encodeCommittee: SyncCommittee -> Option<seq<Byte>>,
    sha256: seq<Byte> -> B256)

  datatype ConsensusInputs<U, F> = ConsensusInputs(
    updates: seq<U>, finalityUpdate: F, expectedCurrentSlot: U64, store: Store, network: Network, storeHash: B256)

  datatype ConsensusOutputs = ConsensusOutputs(
    inputSlot: U64, inputStoreHash: B256, outputSlot: U64, outputStoreHash: B256,
    executionStateRoot: B256, nextSyncCommitteeHash: B256, outputBlockNumber: U64)

  datatype ProgramError =
    | HashChainMismatch(expected: B256, actual: B256)
    | InvalidUpdate(index: nat)
    | InvalidFinalityUpdate
    | MissingExecutionRoot
    | StoreHashingError
    | Mpt(error: MptError)
    | NonCheckpointOutputSlot(slot: U64)

  // ---- store hashing --------------------------------------------------------------------------

  /** Header, current committee and, when there is one, the next committee, end to end. */
  function StoreBytes<U, F>(lc: LightClient<U, F>, s: Store): (r: Option<seq<Byte>>) {
    match (lc.encodeHeader(s.finalizedHeader), lc.encodeCommittee(s.currentCommittee), s.nextCommittee)
    case (Some(h), Some(c), None) => Some(h + c)
    case (Some(h), Some(c), Some(next)) =>
      (match lc.encodeCommittee(next)
       case Some(n) => Some(h + c + n)
       case None => None)
    case _ => None
  }

  /** `serialize_helios_store_serde`: the result grows part by part and any part may fail. */
  method SerializeStore<U, F>(lc: LightClient<U, F>, s: Store) returns (r: Option<seq<Byte>>)
    ensures r == StoreBytes(lc, s)
  {
    var result: seq<Byte> := [];
    var header := lc.encodeHeader(s.finalizedHeader);
    if header.None? {
      return None;
    }
    result := result + header.value;
    assert result == header.value;
    var current := lc.encodeCommittee(s.currentCommittee);
    if current.None? {
      return None;
    }
    result := result + current.value;
    if s.nextCommittee.Some? {
      var next := lc.encodeCommittee(s.nextCommittee.value);
      if next.None? {
        return None;
      }
      result := result + next.value;
    }
    r := Some(result);
  }

  function HashStore<U, F>(lc: LightClient<U, F>, s: Store): (r: Option<B256>) {
    match StoreBytes(lc, s)
    case Some(bytes) => Some(lc.sha256(bytes))
    case None => None
  }

  /** Hypothesis on the encodings: each part tells where it ends, and no committee encodes to nothing. */
  ghost predicate SelfDelimiting<U, F>(lc: LightClient<U, F>) {
    && (forall a, b, x: seq<Byte>, y: seq<Byte> | DelimitedHeader(lc, a, x, b, y) :: a == b)
    && (forall a, b, x: seq<Byte>, y: seq<Byte> | DelimitedCommittee(lc, a, x, b, y) :: a == b)
    && (forall c | lc.encodeCommittee(c).Some? :: lc.encodeCommittee(c).value != [])
  }

  predicate DelimitedHeader<U, F>(lc: LightClient<U, F>, a: Header, x: seq<Byte>, b: Header, y: seq<Byte>) {
    && lc.encodeHeader(a).Some? && lc.encodeHeader(b).Some?
    && lc.encodeHeader(a).value + x == lc.encodeHeader(b).value + y
  }

  predicate DelimitedCommittee<U, F>(lc: LightClient<U, F>, a: SyncCommittee, x: seq<Byte>, b: SyncCommittee,
                                     y: seq<Byte>) {
    && lc.encodeCommittee(a).Some? && lc.encodeCommittee(b).Some?
    && lc.encodeCommittee(a).value + x == lc.encodeCommittee(b).value + y
  }

  function Tail<U, F>(lc: LightClient<U, F>, next: Option<SyncCommittee>): (tail: seq<Byte>)
    requires next.Some? ==> lc.encodeCommittee(next.value).Some?
  {
    if next.Some? then lc.encodeCommittee(next.value).value else []
  }

  lemma TailIsDelimited<U, F>(lc: LightClient<U, F>, m: Option<SyncCommittee>, n: Option<SyncCommittee>)
    requires SelfDelimiting(lc)
    requires m.Some? ==> lc.encodeCommittee(m.value).Some?
    requires n.Some? ==> lc.encodeCommittee(n.value).Some?
    requires Tail(lc, m) == Tail(lc, n)
    ensures m == n
  {
    if m.Some? && n.Some? {
      assert Tail(lc, m) + [] == Tail(lc, n) + [];
      assert DelimitedCommittee(lc, m.value, [], n.value, []);
    }
  }

  lemma SplitPrefix(a: seq<Byte>, x: seq<Byte>, b: seq<Byte>, y: seq<Byte>)
    requires a + x == b + y && a == b
    ensures x == y
  {
    assert x == (a + x)[|a|..];
    assert y == (b + y)[|b|..];
  }

  /** The concatenation loses nothing: equal bytes come from equal hashed fields, although the last
      part is optional and no lengths are written. */
  lemma StoreBytesDetermineStore<U, F>(lc: LightClient<U, F>, s: Store, t: Store)
    requires SelfDelimiting(lc)
    requires StoreBytes(lc, s).Some? && StoreBytes(lc, s) == StoreBytes(lc, t)
    ensures s.finalizedHeader == t.finalizedHeader
    ensures s.currentCommittee == t.currentCommittee && s.nextCommittee == t.nextCommittee
  {
    var h, g := lc.encodeHeader(s.finalizedHeader).value, lc.encodeHeader(t.finalizedHeader).value;
    var c, d := lc.encodeCommittee(s.currentCommittee).value, lc.encodeCommittee(t.currentCommittee).value;
    var m, n := Tail(lc, s.nextCommittee), Tail(lc, t.nextCommittee);
    assert StoreBytes(lc, s).value == h + (c + m);
    assert StoreBytes(lc, t).value == g + (d + n);
    assert DelimitedHeader(lc, s.finalizedHeader, c + m, t.finalizedHeader, d + n);
    SplitPrefix(h, c + m, g, d + n);
    assert DelimitedCommittee(lc, s.currentCommittee, m, t.currentCommittee, n);
    SplitPrefix(c, m, d, n);
    TailIsDelimited(lc, s.nextCommittee, t.nextCommittee);
  }

  // ---- applying updates -----------------------------------------------------------------------

  /** The store after verifying and applying updates `i` onward in order. */
  function ApplyFrom<U, F>(lc: LightClient<U, F>, inputs: ConsensusInputs<U, F>, store: Store, i: nat)
    : (r: Result<Store, ProgramError>)
    requires i <= |inputs.updates|
    decreases |inputs.updates| - i
  {
    if i == |inputs.updates| then Ok(store)
    else if !lc.verifyUpdate(inputs.updates[i], inputs.expectedCurrentSlot, store, inputs.network)
    then Err(InvalidUpdate(i))
    else ApplyFrom(lc, inputs, lc.applyUpdate(store, inputs.updates[i]), i + 1)
  }

  /** The store after the whole consensus part, or the first failure. */
  function FinalStore<U, F>(lc: LightClient<U, F>, inputs: ConsensusInputs<U, F>): (r: Result<Store, ProgramError>) {
    match HashStore(lc, inputs.store)
    case None => Err(StoreHashingError)
    case Some(hash) =>
      if hash != inputs.storeHash then Err(HashChainMismatch(inputs.storeHash, hash))
      else
        match ApplyFrom(lc, inputs, inputs.store, 0)
        case Err(e) => Err(e)
        case Ok(store) =>
          if !lc.verifyFinalityUpdate(inputs.finalityUpdate, inputs.expectedCurrentSlot, store, inputs.network)
          then Err(InvalidFinalityUpdate)
          else Ok(lc.applyFinalityUpdate(store, inputs.finalityUpdate))
  }

  /** Steps 1 to 4, shared by both programs: hash check, update loop, finality update. */
  method ProcessUpdates<U, F>(lc: LightClient<U, F>, inputs: ConsensusInputs<U, F>)
    returns (r: Result<Store, ProgramError>)
    ensures r == FinalStore(lc, inputs)
  {
    var hash := HashStore(lc, inputs.store);
    if hash.None? {
      return Err(StoreHashingError);
    }
    if hash.value != inputs.storeHash {
      return Err(HashChainMismatch(inputs.storeHash, hash.value));
    }
    var store := inputs.store;
    for i := 0 to |inputs.updates|
      invariant ApplyFrom(lc, inputs, inputs.store, 0) == ApplyFrom(lc, inputs, store, i)
    {
      if !lc.verifyUpdate(inputs.updates[i], inputs.expectedCurrentSlot, store, inputs.network) {
        return Err(InvalidUpdate(i));
      }
      store := lc.applyUpdate(store, inputs.updates[i]);
    }
    if !lc.verifyFinalityUpdate(inputs.finalityUpdate, inputs.expectedCurrentSlot, store, inputs.network) {
      return Err(InvalidFinalityUpdate);
    }
    store := lc.applyFinalityUpdate(store, inputs.finalityUpdate);
    r := Ok(store);
  }

  function CommitteeHash<U, F>(lc: LightClient<U, F>, s: Store): (h: B256) {
    if s.nextCommittee.Some? then lc.committeeRoot(s.nextCommittee.value) else Zeros(32)
  }

  // ---- the dry run ----------------------------------------------------------------------------

  predicate DryRunAccepts<U, F>(lc: LightClient<U, F>, inputs: ConsensusInputs<U, F>) {
    var final := FinalStore(lc, inputs);
    final.Ok? && final.value.finalizedHeader.execution.Some? && HashStore(lc, final.value).Some?
  }

  function DryRunOutputs<U, F>(lc: LightClient<U, F>, inputs: ConsensusInputs<U, F>): (o: ConsensusOutputs)
    requires DryRunAccepts(lc, inputs)
  {
    var final := FinalStore(lc, inputs).value;
    var execution := final.finalizedHeader.execution.value;
    ConsensusOutputs(inputs.store.finalizedHeader.slot, inputs.storeHash, final.finalizedHeader.slot,
                     HashStore(lc, final).value, execution.stateRoot, CommitteeHash(lc, final), execution.blockNumber)
  }

  method ConsensusProgram<U, F>(lc: LightClient<U, F>, inputs: ConsensusInputs<U, F>)
    returns (r: Result<ConsensusOutputs, ProgramError>)
    ensures r.Ok? <==> DryRunAccepts(lc, inputs)
    ensures r.Ok? ==> r.value == DryRunOutputs(lc, inputs)
    ensures FinalStore(lc, inputs).Err? ==> r == Err(FinalStore(lc, inputs).error)
    ensures FinalStore(lc, inputs).Ok? && r.Err? ==>
              r.error == if FinalStore(lc, inputs).value.finalizedHeader.execution.None? then MissingExecutionRoot
                         else StoreHashingError
  {
    var inputSlot := inputs.store.finalizedHeader.slot;
    var processed := ProcessUpdates(lc, inputs);
    if processed.Err? {
      return Err(processed.error);
    }
    var store := processed.value;
    if store.finalizedHeader.execution.None? {
      return Err(MissingExecutionRoot);
    }
    var execution := store.finalizedHeader.execution.value;
    var hash := HashStore(lc, store);
    if hash.None? {
      return Err(StoreHashingError);
    }
    r := Ok(ConsensusOutputs(inputSlot, inputs.storeHash, store.finalizedHeader.slot, hash.value,
                             execution.stateRoot, CommitteeHash(lc, store), execution.blockNumber));
  }

  // ---- the guest ------------------------------------------------------------------------------

  datatype GuestInputs<U, F> = GuestInputs(consensus: ConsensusInputs<U, F>, queue: QueueStorage)

  predicate GuestAccepts<U, F>(lc: LightClient<U, F>, lib: Library, inputs: GuestInputs<U, F>) {
    && DryRunAccepts(lc, inputs.consensus)
    && var o := DryRunOutputs(lc, inputs.consensus);
       o.outputSlot % 32 == 0 && Accepts(lib, o.executionStateRoot, inputs.queue)
  }

  /** What the guest commits when it succeeds. */
  function GuestOutputs<U, F>(lc: LightClient<U, F>, lib: Library, inputs: GuestInputs<U, F>): (o: ProofOutputs)
    requires GuestAccepts(lc, lib, inputs)
  {
    var d := DryRunOutputs(lc, inputs.consensus);
    ProofOutputs(d.inputSlot, d.inputStoreHash, d.outputSlot, d.outputStoreHash, d.executionStateRoot,
                 RootBytes(lib.poseidon, RequestsOf(inputs.queue)), d.nextSyncCommitteeHash,
                 inputs.queue.queueAddress, inputs.queue.inputCursor,
                 inputs.queue.inputCursor + |inputs.queue.entries|, d.outputBlockNumber)
  }

  /** The guest succeeds exactly when the dry run succeeds on the same consensus inputs, the queue
      witness is accepted under the state root the dry run found, and the output slot is a checkpoint;
      and it commits the dry run's slots, hashes, state root and block number. */
  method ConsensusMptProgram<U, F>(lc: LightClient<U, F>, lib: Library, zeros: seq<Fp>, inputs: GuestInputs<U, F>)
    returns (r: Result<ProofOutputs, ProgramError>)
    requires |zeros| == MAX_TREE_DEPTH + 1 && IsZeroTable(lib.poseidon, zeros)
    ensures r.Ok? <==> GuestAccepts(lc, lib, inputs)
    ensures r.Ok? ==> r.value == GuestOutputs(lc, lib, inputs)
    ensures FinalStore(lc, inputs.consensus).Err? ==> r == Err(FinalStore(lc, inputs.consensus).error)
    ensures FinalStore(lc, inputs.consensus).Ok?
         && FinalStore(lc, inputs.consensus).value.finalizedHeader.execution.None?
      ==> r == Err(MissingExecutionRoot)
    ensures DryRunAccepts(lc, inputs.consensus)
         && !Accepts(lib, DryRunOutputs(lc, inputs.consensus).executionStateRoot, inputs.queue)
      ==> && r.Err? && r.error.Mpt?
          && Justified(lib, DryRunOutputs(lc, inputs.consensus).executionStateRoot, inputs.queue, r.error.error)
    ensures DryRunAccepts(lc, inputs.consensus) && !GuestAccepts(lc, lib, inputs)
         && Accepts(lib, DryRunOutputs(lc, inputs.consensus).executionStateRoot, inputs.queue)
      ==> r == Err(NonCheckpointOutputSlot(DryRunOutputs(lc, inputs.consensus).outputSlot))
  {
    var consensus := inputs.consensus;
    var inputSlot := consensus.store.finalizedHeader.slot;
    var processed := ProcessUpdates(lc, consensus);
    if processed.Err? {
      return Err(processed.error);
    }
    var store := processed.value;
    if store.finalizedHeader.execution.None? {
      return Err(MissingExecutionRoot);
    }
    var execution := store.finalizedHeader.execution.value;
    var queue := VerifyQueue(lib, zeros, execution.stateRoot, inputs.queue);
    if queue.Err? {
      return Err(Mpt(queue.error));
    }
    var outputSlot := store.finalizedHeader.slot;
    if outputSlot % 32 != 0 {
      return Err(NonCheckpointOutputSlot(outputSlot));
    }
    var hash := HashStore(lc, store);
    if hash.None? {
      return Err(StoreHashingError);
    }
    r := Ok(ProofOutputs(inputSlot, consensus.storeHash, outputSlot, hash.value, execution.stateRoot,
                         queue.value.requestsRoot, CommitteeHash(lc, store), inputs.queue.queueAddress,
                         inputs.queue.inputCursor, queue.value.outputCursor, execution.blockNumber));
  }

  // ---- chains of proofs -----------------------------------------------------------------------

  datatype ShaCollision = ShaCollision(left: seq<Byte>, right: seq<Byte>)

  predicate ShaCollides<U, F>(lc: LightClient<U, F>, c: ShaCollision) {
    c.left != c.right && lc.sha256(c.left) == lc.sha256(c.right)
  }

  /** A link: the second proof starts from the store hash the first one committed. */
  predicate Linked<U, F>(lc: LightClient<U, F>, lib: Library, a: GuestInputs<U, F>, b: GuestInputs<U, F>) {
    && GuestAccepts(lc, lib, a) && GuestAccepts(lc, lib, b)
    && GuestOutputs(lc, lib, a).outputStoreHash == GuestOutputs(lc, lib, b).inputStoreHash
  }

  /** The second proof starts at the slot the first one ended at. */
  predicate SlotsMeet<U, F>(lc: LightClient<U, F>, lib: Library, a: GuestInputs<U, F>, b: GuestInputs<U, F>)
    requires GuestAccepts(lc, lib, a) && GuestAccepts(lc, lib, b)
  {
    GuestOutputs(lc, lib, b).inputSlot == GuestOutputs(lc, lib, a).outputSlot
  }

  /** Across a link the input slot is the previous output slot, unless two byte strings collide. */
  function LinkCollision<U, F>(lc: LightClient<U, F>, lib: Library, a: GuestInputs<U, F>, b: GuestInputs<U, F>)
    : (r: Option<ShaCollision>)
    requires SelfDelimiting(lc) && Linked(lc, lib, a, b)
    ensures r.Some? ==> ShaCollides(lc, r.value)
    ensures r.None? ==> SlotsMeet(lc, lib, a, b)
  {
    var left := FinalStore(lc, a.consensus).value;
    var right := b.consensus.store;
    var x, y := StoreBytes(lc, left).value, StoreBytes(lc, right).value;
    if x != y then Some(ShaCollision(x, y))
    else
      StoreBytesDetermineStore(lc, left, right);
      None
  }

  ghost predicate ProofChain<U, F>(lc: LightClient<U, F>, lib: Library, ps: seq<GuestInputs<U, F>>) {
    && (forall k | 0 <= k < |ps| :: GuestAccepts(lc, lib, ps[k]))
    && (forall k | 0 < k < |ps| :: Linked(lc, lib, ps[k - 1], ps[k]))
  }

  /** Hypothesis on Helios: applying an update leaves the finalized header alone or replaces it by a
      newer one. */
  ghost predicate OnlyNewerHeaders<U(!new), F(!new)>(lc: LightClient<U, F>) {
    && (forall s, u :: lc.applyUpdate(s, u).finalizedHeader.slot >= s.finalizedHeader.slot)
    && (forall s, f :: lc.applyFinalityUpdate(s, f).finalizedHeader.slot >= s.finalizedHeader.slot)
  }

  lemma {:induction false} ApplyingKeepsSlots<U(!new), F(!new)>(
    lc: LightClient<U, F>, inputs: ConsensusInputs<U, F>, store: Store, i: nat)
    requires OnlyNewerHeaders(lc) && i <= |inputs.updates| && ApplyFrom(lc, inputs, store, i).Ok?
    ensures ApplyFrom(lc, inputs, store, i).value.finalizedHeader.slot >= store.finalizedHeader.slot
    decreases |inputs.updates| - i
  {
    if i < |inputs.updates| {
      ApplyingKeepsSlots(lc, inputs, lc.applyUpdate(store, inputs.updates[i]), i + 1);
    }
  }

  lemma SlotsNeverDecrease<U(!new), F(!new)>(lc: LightClient<U, F>, lib: Library, p: GuestInputs<U, F>)
    requires OnlyNewerHeaders(lc) && GuestAccepts(lc, lib, p)
    ensures GuestOutputs(lc, lib, p).inputSlot <= GuestOutputs(lc, lib, p).outputSlot
  {
    ApplyingKeepsSlots(lc, p.consensus, p.consensus.store, 0);
  }

  /** Proof `k` of the chain starts at the slot its predecessor ended at. */
  ghost predicate MeetsAt<U, F>(lc: LightClient<U, F>, lib: Library, ps: seq<GuestInputs<U, F>>, k: nat)
    requires ProofChain(lc, lib, ps) && 0 < k < |ps|
  {
    SlotsMeet(lc, lib, ps[k - 1], ps[k])
  }

  ghost predicate MeetsFrom<U, F>(lc: LightClient<U, F>, lib: Library, ps: seq<GuestInputs<U, F>>, k: nat)
    requires ProofChain(lc, lib, ps) && 0 < k
  {
    forall m | k <= m < |ps| :: MeetsAt(lc, lib, ps, m)
  }

  /** First collision along a chain from link `k` on; when there is none, every proof starts where its
      predecessor ended. */
  function ChainCollision<U, F>(lc: LightClient<U, F>, lib: Library, ps: seq<GuestInputs<U, F>>, k: nat)
    : (r: Option<ShaCollision>)
    requires SelfDelimiting(lc) && ProofChain(lc, lib, ps) && 0 < k
    ensures r.Some? ==> ShaCollides(lc, r.value)
    ensures r.None? ==> MeetsFrom(lc, lib, ps, k)
    decreases |ps| - k
  {
    if k >= |ps| then None
    else
      var link := LinkCollision(lc, lib, ps[k - 1], ps[k]);
      if link.Some? then link
      else
        MeetsOneMore(lc, lib, ps, k);
        ChainCollision(lc, lib, ps, k + 1)
  }

  lemma MeetsOneMore<U, F>(lc: LightClient<U, F>, lib: Library, ps: seq<GuestInputs<U, F>>, k: nat)
    requires ProofChain(lc, lib, ps) && 0 < k < |ps| && MeetsAt(lc, lib, ps, k)
    ensures MeetsFrom(lc, lib, ps, k + 1) ==> MeetsFrom(lc, lib, ps, k)
  {
  }

  /** Along every chain of accepted proofs linked by store hash: every output slot is a checkpoint, and
      unless a SHA-256 collision is at hand, slots only grow from any proof to any later one. */
  lemma {:induction false} ChainSlots<U(!new), F(!new)>(
    lc: LightClient<U, F>, lib: Library, ps: seq<GuestInputs<U, F>>, j: nat, k: nat)
    requires SelfDelimiting(lc) && OnlyNewerHeaders(lc) && ProofChain(lc, lib, ps) && j <= k < |ps|
    ensures GuestOutputs(lc, lib, ps[k]).outputSlot % 32 == 0
    ensures ChainCollision(lc, lib, ps, 1).None? ==>
              GuestOutputs(lc, lib, ps[j]).outputSlot <= GuestOutputs(lc, lib, ps[k]).outputSlot
    decreases k
  {
    if j < k {
      ChainSlots(lc, lib, ps, j, k - 1);
      SlotsNeverDecrease(lc, lib, ps[k]);
      assert ChainCollision(lc, lib, ps, 1).None? ==> MeetsAt(lc, lib, ps, k);
    }
  }
}
