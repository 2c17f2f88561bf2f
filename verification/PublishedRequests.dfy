/** The request list published beside a proof, found by first-match search in the witness, against
    the list the guest committed, found through last-insert-wins maps. */
module PublishedRequests {
  import opened ByteCodec
  import opened RequestLeaf
  import opened MerkleTree
  import opened ChainState
  import opened QueueVerifier
  import opened WitnessAssembler

  function FirstTarget(targets: seq<TargetStorageProof>, a: Address): (r: Option<TargetStorageProof>) {
    if targets == [] then None
    else if targets[0].targetAddress == a then Some(targets[0])
    else FirstTarget(targets[1..], a)
  }

  function FirstSlot(slots: seq<TargetSlotProof>, key: B256): (r: Option<TargetSlotProof>) {
    if slots == [] then None
    else if slots[0].key == key then Some(slots[0])
    else FirstSlot(slots[1..], key)
  }

  /** The value published for an entry: zero when either search finds nothing. */
  function PublishedValue(targets: seq<TargetStorageProof>, e: QueueEntryProof): (w: Word) {
    match FirstTarget(targets, e.target)
    case None => 0
    case Some(t) =>
      match FirstSlot(t.slots, e.slotKey)
      case None => 0
      case Some(s) => s.value
  }

  function VerifiedRequests(qs: QueueStorage): (rs: seq<Request>)
    ensures |rs| == |qs.entries|
  {
    seq(|qs.entries|, i requires 0 <= i < |qs.entries| =>
      var e := qs.entries[i];
      Request(e.target, e.keysCount, e.key0, e.key1, PublishedValue(qs.targets, e)))
  }

  /** What no record lists is published as zero. */
  lemma UnlistedIsZero(targets: seq<TargetStorageProof>, e: QueueEntryProof)
    requires forall t, s | t in targets && t.targetAddress == e.target && s in t.slots :: s.key != e.slotKey
    ensures PublishedValue(targets, e) == 0
  {
    FirstTargetIsMember(targets, e.target);
    if FirstTarget(targets, e.target).Some? {
      FirstSlotIsMember(FirstTarget(targets, e.target).value.slots, e.slotKey);
    }
  }

  lemma {:induction false} FirstTargetIsMember(targets: seq<TargetStorageProof>, a: Address)
    ensures var r := FirstTarget(targets, a); r.Some? ==> r.value in targets && r.value.targetAddress == a
  {
    if targets != [] {
      FirstTargetIsMember(targets[1..], a);
    }
  }

  lemma {:induction false} FirstSlotIsMember(slots: seq<TargetSlotProof>, key: B256)
    ensures var r := FirstSlot(slots, key); r.Some? ==> r.value in slots && r.value.key == key
  {
    if slots != [] {
      FirstSlotIsMember(slots[1..], key);
    }
  }

  /** The search for a target stops at its first record. */
  lemma {:induction false} FirstTargetAt(targets: seq<TargetStorageProof>, i: nat)
    requires i < |targets| && forall k | 0 <= k < i :: targets[k].targetAddress != targets[i].targetAddress
    ensures FirstTarget(targets, targets[i].targetAddress) == Some(targets[i])
  {
    if i > 0 {
      assert targets[0].targetAddress != targets[i].targetAddress;
      FirstTargetAt(targets[1..], i - 1);
    }
  }

  /** The search for a slot stops at the first with its key. */
  lemma {:induction false} FirstSlotAt(slots: seq<TargetSlotProof>, i: nat)
    requires i < |slots| && forall k | 0 <= k < i :: slots[k].key != slots[i].key
    ensures FirstSlot(slots, slots[i].key) == Some(slots[i])
  {
    if i > 0 {
      assert slots[0].key != slots[i].key;
      FirstSlotAt(slots[1..], i - 1);
    }
  }

  /** Whatever slot the guest's map holds for a target came from some record of that target. */
  lemma {:induction false} LastSlotOfSource(targets: seq<TargetStorageProof>, a: Address, key: B256)
    returns (i: nat, k: nat)
    requires LastSlotOf(targets, a, key).Some?
    ensures i < |targets| && targets[i].targetAddress == a
    ensures k < |targets[i].slots| && targets[i].slots[k] == LastSlotOf(targets, a, key).value
    ensures targets[i].slots[k].key == key
  {
    i := |targets| - 1;
    var t := targets[i];
    if t.targetAddress == a && LastSlot(t.slots, key).Some? {
      LastSlotIsMember(t.slots, key);
      k :| 0 <= k < |t.slots| && t.slots[k] == LastSlot(t.slots, key).value;
    } else {
      i, k := LastSlotOfSource(targets[..i], a, key);
    }
  }

  /** With distinct targets and slot keys, which the assembler guarantees of every witness it builds,
      the first match is the value the guest checked. */
  lemma PublishedValueIsCommitted(targets: seq<TargetStorageProof>, e: QueueEntryProof)
    requires DistinctTargets(targets) && LastSlotOf(targets, e.target, e.slotKey).Some?
    ensures PublishedValue(targets, e) == LastSlotOf(targets, e.target, e.slotKey).value.value
  {
    var i, k := LastSlotOfSource(targets, e.target, e.slotKey);
    assert targets[i] in targets && DistinctSlots(targets[i].slots);
    FirstTargetAt(targets, i);
    FirstSlotAt(targets[i].slots, k);
  }

  /** The published list hashes and folds to exactly the committed root. */
  lemma PublishedListIsCommitted(lib: Library, stateRoot: B256, qs: QueueStorage)
    requires Accepts(lib, stateRoot, qs) && DistinctTargets(qs.targets)
    ensures VerifiedRequests(qs) == RequestsOf(qs)
    ensures RootBytes(lib.poseidon, VerifiedRequests(qs)) == RootBytes(lib.poseidon, RequestsOf(qs))
  {
    forall i | 0 <= i < |qs.entries|
      ensures VerifiedRequests(qs)[i] == RequestsOf(qs)[i]
    {
      var e := qs.entries[i];
      assert e in qs.entries && Resolved(lib, qs.targets, e);
      PublishedValueIsCommitted(qs.targets, e);
    }
  }

  /** In general the published list of an accepted witness is the committed one exactly when every search
      finds the value the chain holds. */
  lemma PublishedExactly(lib: Library, read: Lookup, stateRoot: B256, chain: Chain, qs: QueueStorage)
    requires Trusted(lib, read, stateRoot, chain) && Accepts(lib, stateRoot, qs)
    ensures VerifiedRequests(qs) == RequestsOf(qs)
       <==> forall e | e in qs.entries :: PublishedValue(qs.targets, e) == chain.WordAt(e.target, e.slotKey)
  {
    forall i | 0 <= i < |qs.entries|
      ensures VerifiedRequests(qs)[i] == RequestsOf(qs)[i]
         <==> PublishedValue(qs.targets, qs.entries[i]) == chain.WordAt(qs.entries[i].target, qs.entries[i].slotKey)
    {
      var e := qs.entries[i];
      assert e in qs.entries && Resolved(lib, qs.targets, e);
      ResolvedValueIsPinned(lib, read, stateRoot, chain, qs.targets, e);
      assert VerifiedRequests(qs)[i].value == PublishedValue(qs.targets, e);
    }
  }

  /** An accepted witness with distinct targets publishes the chain's own requests. */
  lemma PublishedListIsChainState(lib: Library, read: Lookup, stateRoot: B256, chain: Chain, qs: QueueStorage)
    requires Trusted(lib, read, stateRoot, chain)
    requires Accepts(lib, stateRoot, qs) && DistinctTargets(qs.targets)
    ensures VerifiedRequests(qs) == RequestsOf(qs)
         == RequestsBetween(lib, chain, qs.queueAddress, qs.inputCursor, qs.inputCursor + |qs.entries|)
    ensures qs.inputCursor + |qs.entries|
         == Min(HeadWord(lib, chain, qs.queueAddress), qs.inputCursor + MAX_BATCH)
  {
    PublishedListIsCommitted(lib, stateRoot, qs);
    AcceptedWitnessIsChainState(lib, read, stateRoot, chain, qs);
  }

  /** Host and guest together. With an honest provider and a ready queue, for any chunk limit and any
      order of targets, the assembled witness is accepted, the cursor moves to the lesser of the head
      and a full batch on, and the published list is the chain's and folds to the committed root. */
  method ProveBatch(lib: Library, zeros: seq<Fp>, ghost read: Lookup, stateRoot: B256, ghost chain: Chain,
                    provider: Provider, queue: Address, cursor: U64, chunkLimit: nat)
    returns (committed: Committed, published: seq<Request>)
    requires |zeros| == MAX_TREE_DEPTH + 1 && IsZeroTable(lib.poseidon, zeros)
    requires Trusted(lib, read, stateRoot, chain) && Honest(lib, stateRoot, chain, provider)
    requires ReadyQueue(lib, chain, queue, cursor)
    ensures committed.outputCursor == Min(HeadWord(lib, chain, queue), cursor + MAX_BATCH) >= cursor
    ensures published == RequestsBetween(lib, chain, queue, cursor, committed.outputCursor)
    ensures committed.requestsRoot == RootBytes(lib.poseidon, published)
  {
    var assembled := AssembleWitness(lib, read, stateRoot, chain, provider, queue, cursor, chunkLimit);
    var qs := assembled.value;
    PublishedListIsChainState(lib, read, stateRoot, chain, qs);
    published := VerifiedRequests(qs);
    var verified := VerifyQueue(lib, zeros, stateRoot, qs);
    committed := verified.value;
  }
}
