/** The guest's queue verifier: derives the batch from proven state, checks every entry word at its
    computed location, joins entries with target witnesses and folds one leaf per entry. */
module QueueVerifier {
  import opened ByteCodec
  import opened RequestLeaf
  import opened MerkleTree
  import opened MerkleAlgorithms
  import opened ChainState

  type EntryProofs = s: seq<TrieProof> | |s| == QUEUE_ENTRY_WORDS witness [[], [], [], [], []]

  datatype QueueEntryProof = QueueEntryProof(
    target: Address, slotKey: B256, keysCount: Byte, key0: B256, key1: B256, wordProofs: EntryProofs)

  datatype TargetSlotProof = TargetSlotProof(key: B256, value: Word, mptProof: TrieProof)

  datatype TargetStorageProof = TargetStorageProof(
    targetAddress: Address, account: Option<TrieAccount>, accountProof: TrieProof, slots: seq<TargetSlotProof>)

  datatype QueueStorage = QueueStorage(
    queueAddress: Address,
    queueAccount: TrieAccount,
    queueAccountProof: TrieProof,
    head: U64,
    headProof: TrieProof,
    inputCursor: U64,
    entries: seq<QueueEntryProof>,
    targets: seq<TargetStorageProof>)

  datatype ProvenAccount = ProofRequestQueue | Target

  datatype MptError =
    | InvalidProofRequestQueueAccountProof(address: Address)
    | InvalidTargetAccountProof(address: Address)
    | InvalidStorageSlotProof(slotKey: B256)
    | LeafHashError(target: Address, slotKey: B256, value: Word)
    | ExceedsMaxTreeDepth(slots: nat, requestedDepth: nat, maxDepth: nat)
    | CursorAheadOfHead(cursor: U64, head: U64)
    | BatchSizeMismatch(expected: nat, supplied: nat)
    | MissingTargetWitness(target: Address)
    | MissingSlotWitness(target: Address, slotKey: B256)

  // ---- single checks --------------------------------------------------------------------------

  predicate WordVerified(lib: Library, root: B256, key: B256, value: Word, proof: TrieProof) {
    lib.verifyProof(root, lib.keccak(key), WordClaim(lib, value), proof)
  }

  function VerifyStorageWord(lib: Library, root: B256, key: B256, value: Word, proof: TrieProof)
    : (r: Result<(), MptError>)
  {
    if WordVerified(lib, root, key, value, proof) then Ok(()) else Err(InvalidStorageSlotProof(key))
  }

  predicate AccountVerified(lib: Library, stateRoot: B256, address: Address, account: Option<TrieAccount>,
                            proof: TrieProof) {
    lib.verifyProof(stateRoot, lib.keccak(address), AccountClaim(lib, account), proof)
  }

  function ClaimedRoot(account: Option<TrieAccount>): (root: B256) {
    if account.Some? then account.value.storageRoot else EMPTY_ROOT_HASH
  }

  function VerifyAccount(lib: Library, stateRoot: B256, proven: ProvenAccount, address: Address,
                         account: Option<TrieAccount>, proof: TrieProof): (r: Result<B256, MptError>)
  {
    if AccountVerified(lib, stateRoot, address, account, proof) then Ok(ClaimedRoot(account))
    else
      match proven
      case ProofRequestQueue => Err(InvalidProofRequestQueueAccountProof(address))
      case Target => Err(InvalidTargetAccountProof(address))
  }

  /** What is asked of the trie library: of zero, that the hashed key is absent; of any other word, that its
      encoding is there. */
  lemma WhatWordsProve(lib: Library, root: B256, key: B256, value: Word, proof: TrieProof)
    ensures VerifyStorageWord(lib, root, key, 0, proof).Ok? <==> lib.verifyProof(root, lib.keccak(key), None, proof)
    ensures value != 0 ==>
              var claim, checked := Some(lib.rlpWord(value)), VerifyStorageWord(lib, root, key, value, proof);
              checked.Ok? <==> lib.verifyProof(root, lib.keccak(key), claim, proof)
  {
  }

  /** The same of accounts; an absent one has the empty trie's root. */
  lemma WhatAccountsProve(lib: Library, root: B256, proven: ProvenAccount, a: Address, account: TrieAccount,
                          proof: TrieProof)
    ensures var present := VerifyAccount(lib, root, proven, a, Some(account), proof);
            && (present.Ok? <==> lib.verifyProof(root, lib.keccak(a), Some(lib.rlpAccount(account)), proof))
            && (present.Ok? ==> present.value == account.storageRoot)
    ensures var absent := VerifyAccount(lib, root, proven, a, None, proof);
            && (absent.Ok? <==> lib.verifyProof(root, lib.keccak(a), None, proof))
            && (absent.Ok? ==> absent.value == EMPTY_ROOT_HASH)
  {
  }

  /** A word claim that verifies is the word the chain holds, whether it is zero or not. */
  lemma WordClaimIsPinned(lib: Library, read: Lookup, stateRoot: B256, chain: Chain, a: Address, key: B256,
                          value: Word, proof: TrieProof)
    requires Trusted(lib, read, stateRoot, chain)
    requires VerifyStorageWord(lib, chain.StorageRootAt(a), key, value, proof).Ok?
    ensures value == chain.WordAt(a, key)
  {
    assert WordClaim(lib, value) == WordClaim(lib, chain.WordAt(a, key));
  }

  /** An account claim that verifies is the chain's, so the root it yields anchors its storage. */
  lemma AccountClaimIsPinned(lib: Library, read: Lookup, stateRoot: B256, chain: Chain, proven: ProvenAccount,
                             address: Address, account: Option<TrieAccount>, proof: TrieProof)
    requires Trusted(lib, read, stateRoot, chain)
    requires VerifyAccount(lib, stateRoot, proven, address, account, proof).Ok?
    ensures account == chain.AccountAt(address)
    ensures VerifyAccount(lib, stateRoot, proven, address, account, proof).value == chain.StorageRootAt(address)
  {
    assert AccountClaim(lib, account) == AccountClaim(lib, chain.AccountAt(address));
  }

  // ---- entries --------------------------------------------------------------------------------

  function EntryValue(e: QueueEntryProof, j: nat): (w: Word)
    requires j < QUEUE_ENTRY_WORDS
  {
    match j
    case 0 => WordOfAddress(e.target)
    case 1 => WordOfB256(e.slotKey)
    case 2 => e.keysCount
    case 3 => WordOfB256(e.key0)
    case _ => WordOfB256(e.key1)
  }

  predicate EntryWordVerified(lib: Library, root: B256, index: U64, e: QueueEntryProof, j: nat)
    requires j < QUEUE_ENTRY_WORDS
  {
    WordVerified(lib, root, EntryKey(lib.keccak, index, j), EntryValue(e, j), e.wordProofs[j])
  }

  predicate EntryVerified(lib: Library, root: B256, index: U64, e: QueueEntryProof) {
    forall j | 0 <= j < QUEUE_ENTRY_WORDS :: EntryWordVerified(lib, root, index, e, j)
  }

  predicate EntriesVerified(lib: Library, root: B256, cursor: U64, entries: seq<QueueEntryProof>)
    requires cursor + |entries| < TWO_64
  {
    forall i | 0 <= i < |entries| :: EntryVerified(lib, root, cursor + i, entries[i])
  }

  // ---- target witnesses, as the last-insert-wins maps see them --------------------------------

  predicate TargetVerified(lib: Library, stateRoot: B256, t: TargetStorageProof) {
    AccountVerified(lib, stateRoot, t.targetAddress, t.account, t.accountProof)
  }

  function LastRoot(targets: seq<TargetStorageProof>, a: Address): (r: Option<B256>) {
    if targets == [] then None
    else
      var t := targets[|targets| - 1];
      if t.targetAddress == a then Some(ClaimedRoot(t.account)) else LastRoot(targets[..|targets| - 1], a)
  }

  function LastSlot(slots: seq<TargetSlotProof>, key: B256): (r: Option<TargetSlotProof>) {
    if slots == [] then None
    else
      var s := slots[|slots| - 1];
      if s.key == key then Some(s) else LastSlot(slots[..|slots| - 1], key)
  }

  function LastSlotOf(targets: seq<TargetStorageProof>, a: Address, key: B256): (r: Option<TargetSlotProof>) {
    if targets == [] then None
    else
      var t := targets[|targets| - 1];
      if t.targetAddress == a && LastSlot(t.slots, key).Some? then LastSlot(t.slots, key)
      else LastSlotOf(targets[..|targets| - 1], a, key)
  }

  /** The last record of a target is the one whose root counts. */
  lemma {:induction false} LastRootAt(targets: seq<TargetStorageProof>, i: nat)
    requires i < |targets| && forall k | i < k < |targets| :: targets[k].targetAddress != targets[i].targetAddress
    ensures LastRoot(targets, targets[i].targetAddress) == Some(ClaimedRoot(targets[i].account))
    decreases |targets|
  {
    if i < |targets| - 1 {
      assert targets[|targets| - 1].targetAddress != targets[i].targetAddress;
      LastRootAt(targets[..|targets| - 1], i);
    }
  }

  lemma {:induction false} LastSlotAt(slots: seq<TargetSlotProof>, i: nat)
    requires i < |slots| && forall k | i < k < |slots| :: slots[k].key != slots[i].key
    ensures LastSlot(slots, slots[i].key) == Some(slots[i])
    decreases |slots|
  {
    if i < |slots| - 1 {
      assert slots[|slots| - 1].key != slots[i].key;
      LastSlotAt(slots[..|slots| - 1], i);
    }
  }

  lemma {:induction false} NoSlot(slots: seq<TargetSlotProof>, key: B256)
    requires forall s | s in slots :: s.key != key
    ensures LastSlot(slots, key) == None
  {
    if slots != [] {
      assert slots[|slots| - 1] in slots;
      NoSlot(slots[..|slots| - 1], key);
    }
  }

  /** The last slot listed for a target and key, in its last record that lists the key, is the one that
      counts. */
  lemma {:induction false} LastSlotOfAt(targets: seq<TargetStorageProof>, i: nat, k: nat)
    requires i < |targets| && k < |targets[i].slots|
    requires forall m | k < m < |targets[i].slots| :: targets[i].slots[m].key != targets[i].slots[k].key
    requires forall m | i < m < |targets| && targets[m].targetAddress == targets[i].targetAddress ::
               forall s | s in targets[m].slots :: s.key != targets[i].slots[k].key
    ensures LastSlotOf(targets, targets[i].targetAddress, targets[i].slots[k].key) == Some(targets[i].slots[k])
    decreases |targets|
  {
    var n := |targets| - 1;
    if i == n {
      LastSlotAt(targets[i].slots, k);
    } else {
      if targets[n].targetAddress == targets[i].targetAddress {
        NoSlot(targets[n].slots, targets[i].slots[k].key);
      }
      LastSlotOfAt(targets[..n], i, k);
    }
  }

  predicate Resolved(lib: Library, targets: seq<TargetStorageProof>, e: QueueEntryProof) {
    var root, slot := LastRoot(targets, e.target), LastSlotOf(targets, e.target, e.slotKey);
    && root.Some? && slot.Some?
    && WordVerified(lib, root.value, e.slotKey, slot.value.value, slot.value.mptProof)
  }

  /** The request an entry's leaf is hashed from. */
  function RequestOf(targets: seq<TargetStorageProof>, e: QueueEntryProof): (r: Request) {
    var slot := LastSlotOf(targets, e.target, e.slotKey);
    Request(e.target, e.keysCount, e.key0, e.key1, if slot.Some? then slot.value.value else 0)
  }

  function RequestsOf(qs: QueueStorage): (rs: seq<Request>)
    ensures |rs| == |qs.entries|
  {
    seq(|qs.entries|, i requires 0 <= i < |qs.entries| => RequestOf(qs.targets, qs.entries[i]))
  }

  // ---- acceptance -----------------------------------------------------------------------------

  function Min(a: nat, b: nat): (m: nat) {
    if a < b then a else b
  }

  predicate AnchorVerified(lib: Library, stateRoot: B256, qs: QueueStorage) {
    && AccountVerified(lib, stateRoot, qs.queueAddress, Some(qs.queueAccount), qs.queueAccountProof)
    && WordVerified(lib, qs.queueAccount.storageRoot, StorageSlotOfIndex(QUEUE_HEAD_STORAGE_INDEX), qs.head,
                    qs.headProof)
  }

  predicate BatchDerived(qs: QueueStorage) {
    qs.inputCursor <= qs.head && |qs.entries| == Min(qs.head - qs.inputCursor, MAX_BATCH)
  }

  /** Everything the guest checks before it commits. */
  predicate Accepts(lib: Library, stateRoot: B256, qs: QueueStorage) {
    && AnchorVerified(lib, stateRoot, qs)
    && BatchDerived(qs)
    && EntriesVerified(lib, qs.queueAccount.storageRoot, qs.inputCursor, qs.entries)
    && (forall t | t in qs.targets :: TargetVerified(lib, stateRoot, t))
    && (forall e | e in qs.entries :: Resolved(lib, qs.targets, e))
  }

  datatype Committed = Committed(outputCursor: U64, requestsRoot: B256)

  /** The Merkle root of a request list, as committed bytes. */
  function RootBytes(h: Hasher, rs: seq<Request>): (root: B256) {
    FieldToBytes(ReferenceRoot(h, Leaves(h, rs)))
  }

  /** Each error the guest can return names a check that does fail. The leaf-hash and tree-depth
      errors name none, so they are never returned. */
  ghost predicate Justified(lib: Library, stateRoot: B256, qs: QueueStorage, e: MptError) {
    match e
    case InvalidProofRequestQueueAccountProof(a) =>
      a == qs.queueAddress && !AccountVerified(lib, stateRoot, a, Some(qs.queueAccount), qs.queueAccountProof)
    case InvalidTargetAccountProof(a) =>
      TargetFails(lib, stateRoot, qs.targets, a)
    case InvalidStorageSlotProof(key) =>
      || (key == StorageSlotOfIndex(QUEUE_HEAD_STORAGE_INDEX) && !AnchorVerified(lib, stateRoot, qs))
      || (BatchDerived(qs) && EntryWordFails(lib, qs.queueAccount.storageRoot, qs.inputCursor, qs.entries, key))
      || (exists x | x in qs.entries :: x.slotKey == key && !Resolved(lib, qs.targets, x))
    case CursorAheadOfHead(cursor, head) => cursor == qs.inputCursor && head == qs.head && cursor > head
    case BatchSizeMismatch(expected, supplied) =>
      && qs.inputCursor <= qs.head && expected == Min(qs.head - qs.inputCursor, MAX_BATCH)
      && supplied == |qs.entries| && expected != supplied
    case MissingTargetWitness(a) => exists x | x in qs.entries :: x.target == a && LastRoot(qs.targets, a).None?
    case MissingSlotWitness(a, key) =>
      exists x | x in qs.entries :: x.target == a && x.slotKey == key && LastSlotOf(qs.targets, a, key).None?
    case LeafHashError(_, _, _) => false
    case ExceedsMaxTreeDepth(_, _, _) => false
  }

  /** Some word of the entry fails to verify at the location `key`. */
  ghost predicate EntryFails(lib: Library, root: B256, index: U64, e: QueueEntryProof, key: B256) {
    exists j | 0 <= j < QUEUE_ENTRY_WORDS ::
      !EntryWordVerified(lib, root, index, e, j) && key == EntryKey(lib.keccak, index, j)
  }

  ghost predicate EntryWordFails(lib: Library, root: B256, cursor: U64, entries: seq<QueueEntryProof>, key: B256)
    requires cursor + |entries| < TWO_64
  {
    exists i | 0 <= i < |entries| :: EntryFails(lib, root, cursor + i, entries[i], key)
  }

  // ---- the loops ------------------------------------------------------------------------------

  /** The words an entry claims, each with the location computed for it. */
  function EntryClaims(keccak: Keccak, index: U64, e: QueueEntryProof): (words: seq<(B256, Word)>)
    ensures |words| == QUEUE_ENTRY_WORDS
    ensures forall j | 0 <= j < QUEUE_ENTRY_WORDS :: words[j] == (EntryKey(keccak, index, j), EntryValue(e, j))
  {
    var base := MappingEntryLocation(keccak, index, QUEUE_REQUESTS_STORAGE_INDEX);
    [ (base, WordOfAddress(e.target)),
      (StructWordSlot(base, 1), WordOfB256(e.slotKey)),
      (StructWordSlot(base, 2), e.keysCount),
      (StructWordSlot(base, 3), WordOfB256(e.key0)),
      (StructWordSlot(base, 4), WordOfB256(e.key1)) ]
  }

  method CheckEntry(lib: Library, root: B256, index: U64, e: QueueEntryProof) returns (r: Result<(), MptError>)
    ensures r.Ok? <==> EntryVerified(lib, root, index, e)
    ensures r.Err? ==> r.error.InvalidStorageSlotProof? && EntryFails(lib, root, index, e, r.error.slotKey)
  {
    var words := EntryClaims(lib.keccak, index, e);
    for j := 0 to QUEUE_ENTRY_WORDS
      invariant forall k | 0 <= k < j :: EntryWordVerified(lib, root, index, e, k)
    {
      var check := VerifyStorageWord(lib, root, words[j].0, words[j].1, e.wordProofs[j]);
      if check.Err? {
        assert !EntryWordVerified(lib, root, index, e, j);
        return check;
      }
    }
    r := Ok(());
  }

  method CheckEntries(lib: Library, root: B256, cursor: U64, entries: seq<QueueEntryProof>)
    returns (r: Result<(), MptError>)
    requires cursor + |entries| < TWO_64
    ensures r.Ok? <==> EntriesVerified(lib, root, cursor, entries)
    ensures r.Err? ==> r.error.InvalidStorageSlotProof? && EntryWordFails(lib, root, cursor, entries, r.error.slotKey)
  {
    for offset := 0 to |entries|
      invariant forall i | 0 <= i < offset :: EntryVerified(lib, root, cursor + i, entries[i])
    {
      var index: U64 := cursor + offset;
      var check := CheckEntry(lib, root, index, entries[offset]);
      if check.Err? {
        assert EntryFails(lib, root, cursor + offset, entries[offset], check.error.slotKey);
        return check;
      }
    }
    r := Ok(());
  }

  ghost predicate TargetFails(lib: Library, stateRoot: B256, targets: seq<TargetStorageProof>, a: Address) {
    exists t | t in targets :: t.targetAddress == a && !TargetVerified(lib, stateRoot, t)
  }

  type RootMap = map<Address, B256>
  type SlotMap = map<(Address, B256), TargetSlotProof>

  function Get<K, V>(m: map<K, V>, k: K): (r: Option<V>) {
    if k in m then Some(m[k]) else None
  }

  ghost predicate RootsOf(targets: seq<TargetStorageProof>, roots: RootMap) {
    forall a: Address :: Get(roots, a) == LastRoot(targets, a)
  }

  ghost predicate SlotsOf(targets: seq<TargetStorageProof>, slots: SlotMap) {
    forall a: Address, key: B256 :: Get(slots, (a, key)) == LastSlotOf(targets, a, key)
  }

  /** Inserting one target's slots in order, later keys replacing earlier ones. */
  method InsertSlots(slots: SlotMap, ghost before: seq<TargetStorageProof>, t: TargetStorageProof)
    returns (r: SlotMap)
    requires SlotsOf(before, slots)
    ensures SlotsOf(before + [t], r)
  {
    r := slots;
    for j := 0 to |t.slots|
      invariant forall a: Address, key: B256 :: Get(r, (a, key)) ==
                  if a == t.targetAddress && LastSlot(t.slots[..j], key).Some? then LastSlot(t.slots[..j], key)
                  else LastSlotOf(before, a, key)
    {
      assert t.slots[..j + 1][..j] == t.slots[..j];
      r := r[(t.targetAddress, t.slots[j].key) := t.slots[j]];
    }
    assert t.slots[..|t.slots|] == t.slots;
    assert (before + [t])[..|before|] == before;
  }

  method IndexTargets(lib: Library, stateRoot: B256, targets: seq<TargetStorageProof>)
    returns (r: Result<(), MptError>, roots: RootMap, slots: SlotMap)
    ensures r.Ok? <==> forall t | t in targets :: TargetVerified(lib, stateRoot, t)
    ensures r.Ok? ==> RootsOf(targets, roots) && SlotsOf(targets, slots)
    ensures r.Err? ==> r.error.InvalidTargetAccountProof? && TargetFails(lib, stateRoot, targets, r.error.address)
  {
    roots, slots := map[], map[];
    for i := 0 to |targets|
      invariant forall t | t in targets[..i] :: TargetVerified(lib, stateRoot, t)
      invariant RootsOf(targets[..i], roots) && SlotsOf(targets[..i], slots)
    {
      var t := targets[i];
      var check := VerifyAccount(lib, stateRoot, Target, t.targetAddress, t.account, t.accountProof);
      if check.Err? {
        assert t in targets && !TargetVerified(lib, stateRoot, t);
        return Err(check.error), roots, slots;
      }
      assert targets[..i + 1] == targets[..i] + [t] && targets[..i + 1][..i] == targets[..i];
      roots := roots[t.targetAddress := check.value];
      slots := InsertSlots(slots, targets[..i], t);
    }
    assert targets[..|targets|] == targets;
    r := Ok(());
  }

  ghost predicate ResolveFails(lib: Library, targets: seq<TargetStorageProof>, e: QueueEntryProof, error: MptError) {
    || (error == MissingTargetWitness(e.target) && LastRoot(targets, e.target).None?)
    || (error == MissingSlotWitness(e.target, e.slotKey) && LastSlotOf(targets, e.target, e.slotKey).None?)
    || (error == InvalidStorageSlotProof(e.slotKey) && !Resolved(lib, targets, e))
  }

  predicate IsLeafOf(lib: Library, targets: seq<TargetStorageProof>, e: QueueEntryProof, leaf: Fp) {
    leaf == LeafOf(lib.poseidon, RequestOf(targets, e))
  }

  method ResolveLeaf(lib: Library, ghost targets: seq<TargetStorageProof>, roots: RootMap, slots: SlotMap,
                     e: QueueEntryProof)
    returns (r: Result<Fp, MptError>)
    requires RootsOf(targets, roots) && SlotsOf(targets, slots)
    ensures r.Ok? <==> Resolved(lib, targets, e)
    ensures r.Ok? ==> IsLeafOf(lib, targets, e, r.value)
    ensures r.Err? ==> ResolveFails(lib, targets, e, r.error)
  {
    assert Get(roots, e.target) == LastRoot(targets, e.target);
    assert Get(slots, (e.target, e.slotKey)) == LastSlotOf(targets, e.target, e.slotKey);
    if e.target !in roots {
      return Err(MissingTargetWitness(e.target));
    }
    if (e.target, e.slotKey) !in slots {
      return Err(MissingSlotWitness(e.target, e.slotKey));
    }
    var slot := slots[(e.target, e.slotKey)];
    var check := VerifyStorageWord(lib, roots[e.target], e.slotKey, slot.value, slot.mptProof);
    if check.Err? {
      return Err(check.error);
    }
    var leaf := HashRequestLeaf(lib.poseidon, Request(e.target, e.keysCount, e.key0, e.key1, slot.value));
    r := Ok(leaf.value);
  }

  /** The entries resolve, and the nodes are their leaves. */
  ghost predicate LeavesResolved(lib: Library, targets: seq<TargetStorageProof>, entries: seq<QueueEntryProof>,
                                 nodes: seq<Fp>) {
    && |nodes| == |entries|
    && (forall k | 0 <= k < |entries| :: Resolved(lib, targets, entries[k]))
    && (forall k | 0 <= k < |entries| :: IsLeafOf(lib, targets, entries[k], nodes[k]))
  }

  lemma LeavesGrow(lib: Library, targets: seq<TargetStorageProof>, entries: seq<QueueEntryProof>, nodes: seq<Fp>,
                   e: QueueEntryProof, leaf: Fp)
    requires LeavesResolved(lib, targets, entries, nodes)
    requires Resolved(lib, targets, e) && IsLeafOf(lib, targets, e, leaf)
    ensures LeavesResolved(lib, targets, entries + [e], nodes + [leaf])
  {
  }

  lemma AllLeaves(lib: Library, qs: QueueStorage, nodes: seq<Fp>)
    requires LeavesResolved(lib, qs.targets, qs.entries, nodes)
    ensures nodes == Leaves(lib.poseidon, RequestsOf(qs))
    ensures forall e | e in qs.entries :: Resolved(lib, qs.targets, e)
  {
  }

  method CollectLeaves(lib: Library, qs: QueueStorage, roots: RootMap, slots: SlotMap)
    returns (r: Result<seq<Fp>, MptError>)
    requires RootsOf(qs.targets, roots) && SlotsOf(qs.targets, slots)
    ensures r.Ok? <==> forall e | e in qs.entries :: Resolved(lib, qs.targets, e)
    ensures r.Ok? ==> r.value == Leaves(lib.poseidon, RequestsOf(qs))
    ensures r.Err? ==> exists e | e in qs.entries :: ResolveFails(lib, qs.targets, e, r.error)
  {
    var nodes: seq<Fp> := [];
    for i := 0 to |qs.entries|
      invariant LeavesResolved(lib, qs.targets, qs.entries[..i], nodes)
    {
      var e := qs.entries[i];
      var leaf := ResolveLeaf(lib, qs.targets, roots, slots, e);
      if leaf.Err? {
        assert e in qs.entries && !Resolved(lib, qs.targets, e);
        return Err(leaf.error);
      }
      LeavesGrow(lib, qs.targets, qs.entries[..i], nodes, e, leaf.value);
      assert qs.entries[..i + 1] == qs.entries[..i] + [e];
      nodes := nodes + [leaf.value];
    }
    assert qs.entries[..|qs.entries|] == qs.entries;
    AllLeaves(lib, qs, nodes);
    r := Ok(nodes);
  }

  /** Depth check, fold and commitment. The depth check cannot fail once the batch size was checked. */
  method FoldLeaves(lib: Library, leaves: seq<Fp>, zeros: seq<Fp>, outputCursor: U64)
    returns (r: Result<Committed, MptError>)
    requires |zeros| == MAX_TREE_DEPTH + 1 && IsZeroTable(lib.poseidon, zeros)
    ensures r.Ok? <==> |leaves| <= MAX_BATCH
    ensures r.Ok? ==> r.value == Committed(outputCursor, FieldToBytes(ReferenceRoot(lib.poseidon, leaves)))
  {
    var shape := ComputeDepthAndSize(|leaves|);
    DepthAndSizeAreLeast(|leaves|);
    if shape.depth > MAX_TREE_DEPTH {
      return Err(ExceedsMaxTreeDepth(|leaves|, shape.depth, MAX_TREE_DEPTH));
    }
    var vec := new NodeVec(leaves);
    var root := FoldMerkleLeft(lib.poseidon, vec, shape.paddedSize, shape.depth, zeros);
    r := Ok(Committed(outputCursor, FieldToBytes(root)));
  }

  /** The verifier. It succeeds on exactly the accepted witnesses; then it moves the cursor past the
      batch and commits the reference Merkle root of one leaf per entry. Otherwise it names a check
      that fails. */
  method VerifyQueue(lib: Library, zeros: seq<Fp>, stateRoot: B256, qs: QueueStorage)
    returns (r: Result<Committed, MptError>)
    requires |zeros| == MAX_TREE_DEPTH + 1 && IsZeroTable(lib.poseidon, zeros)
    ensures r.Ok? <==> Accepts(lib, stateRoot, qs)
    ensures r.Ok? ==> r.value.outputCursor == qs.inputCursor + |qs.entries|
    ensures r.Ok? ==> r.value.requestsRoot == RootBytes(lib.poseidon, RequestsOf(qs))
    ensures r.Err? ==> Justified(lib, stateRoot, qs, r.error)
  {
    var account := VerifyAccount(lib, stateRoot, ProofRequestQueue, qs.queueAddress, Some(qs.queueAccount),
                                 qs.queueAccountProof);
    if account.Err? {
      return Err(account.error);
    }
    var root := account.value;
    var head := VerifyStorageWord(lib, root, StorageSlotOfIndex(QUEUE_HEAD_STORAGE_INDEX), qs.head, qs.headProof);
    if head.Err? {
      return Err(head.error);
    }
    if qs.inputCursor > qs.head {
      return Err(CursorAheadOfHead(qs.inputCursor, qs.head));
    }
    var batch := Min(qs.head - qs.inputCursor, MAX_BATCH);
    if |qs.entries| != batch {
      return Err(BatchSizeMismatch(batch, |qs.entries|));
    }
    var entries := CheckEntries(lib, root, qs.inputCursor, qs.entries);
    if entries.Err? {
      return Err(entries.error);
    }
    var targets, roots, slots := IndexTargets(lib, stateRoot, qs.targets);
    if targets.Err? {
      return Err(targets.error);
    }
    var leaves := CollectLeaves(lib, qs, roots, slots);
    if leaves.Err? {
      return Err(leaves.error);
    }
    r := FoldLeaves(lib, leaves.value, zeros, qs.inputCursor + batch);
  }

  // ---- what acceptance means ------------------------------------------------------------------

  ghost predicate EntryMatches(lib: Library, chain: Chain, queue: Address, index: U64, e: QueueEntryProof) {
    forall j | 0 <= j < QUEUE_ENTRY_WORDS :: EntryWord(lib, chain, queue, index, j) == EntryValue(e, j)
  }

  /** A verified entry spells out exactly the words the chain holds at its computed location. */
  lemma EntryIsPinned(lib: Library, read: Lookup, stateRoot: B256, chain: Chain, queue: Address, index: U64,
                      e: QueueEntryProof)
    requires Trusted(lib, read, stateRoot, chain)
    requires EntryVerified(lib, chain.StorageRootAt(queue), index, e)
    ensures EntryMatches(lib, chain, queue, index, e)
  {
    forall j | 0 <= j < QUEUE_ENTRY_WORDS
      ensures EntryWord(lib, chain, queue, index, j) == EntryValue(e, j)
    {
      assert EntryWordVerified(lib, chain.StorageRootAt(queue), index, e, j);
      WordClaimIsPinned(lib, read, stateRoot, chain, queue, EntryKey(lib.keccak, index, j), EntryValue(e, j),
                        e.wordProofs[j]);
    }
  }

  lemma EntryFieldsDecode(chain: Chain, e: QueueEntryProof)
    ensures DecodeRequest(chain, EntryValue(e, 0), EntryValue(e, 1), EntryValue(e, 2), EntryValue(e, 3),
                          EntryValue(e, 4))
         == Request(e.target, e.keysCount, e.key0, e.key1, chain.WordAt(e.target, e.slotKey))
    ensures EntryValue(e, 0) < TWO_160 && EntryValue(e, 2) < 256
  {
    AddressWordRoundTrip(e.target);
    B256WordRoundTrip(e.slotKey);
    B256WordRoundTrip(e.key0);
    B256WordRoundTrip(e.key1);
  }

  /** Those words are well formed and decode to the entry's own fields. */
  lemma MatchingEntryDecodes(lib: Library, chain: Chain, queue: Address, index: U64, e: QueueEntryProof)
    requires EntryMatches(lib, chain, queue, index, e)
    ensures WellFormedEntry(lib, chain, queue, index)
    ensures RequestAt(lib, chain, queue, index)
         == Request(e.target, e.keysCount, e.key0, e.key1, chain.WordAt(e.target, e.slotKey))
  {
    EntryFieldsDecode(chain, e);
    var w := j requires 0 <= j < QUEUE_ENTRY_WORDS => EntryWord(lib, chain, queue, index, j);
    assert w(0) == EntryValue(e, 0) && w(1) == EntryValue(e, 1) && w(2) == EntryValue(e, 2);
    assert w(3) == EntryValue(e, 3) && w(4) == EntryValue(e, 4);
  }

  /** Whatever target record came last, the root it contributed is the chain's. */
  lemma {:induction false} LastRootIsPinned(lib: Library, read: Lookup, stateRoot: B256, chain: Chain,
                                            targets: seq<TargetStorageProof>, a: Address)
    requires Trusted(lib, read, stateRoot, chain)
    requires forall t | t in targets :: TargetVerified(lib, stateRoot, t)
    requires LastRoot(targets, a).Some?
    ensures LastRoot(targets, a).value == chain.StorageRootAt(a)
  {
    var t := targets[|targets| - 1];
    assert TargetVerified(lib, stateRoot, t);
    if t.targetAddress == a {
      AccountClaimIsPinned(lib, read, stateRoot, chain, Target, a, t.account, t.accountProof);
    } else {
      LastRootIsPinned(lib, read, stateRoot, chain, targets[..|targets| - 1], a);
    }
  }

  /** The value hashed into a resolved entry's leaf is the one its target holds on chain. */
  lemma ResolvedValueIsPinned(lib: Library, read: Lookup, stateRoot: B256, chain: Chain,
                              targets: seq<TargetStorageProof>, e: QueueEntryProof)
    requires Trusted(lib, read, stateRoot, chain)
    requires forall t | t in targets :: TargetVerified(lib, stateRoot, t)
    requires Resolved(lib, targets, e)
    ensures RequestOf(targets, e) == Request(e.target, e.keysCount, e.key0, e.key1, chain.WordAt(e.target, e.slotKey))
  {
    LastRootIsPinned(lib, read, stateRoot, chain, targets, e.target);
    var slot := LastSlotOf(targets, e.target, e.slotKey).value;
    WordClaimIsPinned(lib, read, stateRoot, chain, e.target, e.slotKey, slot.value, slot.mptProof);
  }

  /** The queue account and head of an accepted witness are the chain's. */
  lemma AnchorIsPinned(lib: Library, read: Lookup, stateRoot: B256, chain: Chain, qs: QueueStorage)
    requires Trusted(lib, read, stateRoot, chain)
    requires AnchorVerified(lib, stateRoot, qs)
    ensures qs.queueAccount.storageRoot == chain.StorageRootAt(qs.queueAddress)
    ensures qs.head == HeadWord(lib, chain, qs.queueAddress)
  {
  }

  /** The entry's request is the one read from chain state alone. */
  ghost predicate EntryAgrees(lib: Library, chain: Chain, queue: Address, targets: seq<TargetStorageProof>,
                              index: U64, e: QueueEntryProof) {
    RequestOf(targets, e) == RequestAt(lib, chain, queue, index)
  }

  ghost predicate EntriesAgree(lib: Library, chain: Chain, qs: QueueStorage)
    requires qs.inputCursor + |qs.entries| < TWO_64
  {
    forall i | 0 <= i < |qs.entries| ::
      EntryAgrees(lib, chain, qs.queueAddress, qs.targets, qs.inputCursor + i, qs.entries[i])
  }

  lemma VerifiedEntryAgrees(lib: Library, read: Lookup, stateRoot: B256, chain: Chain, queue: Address,
                            targets: seq<TargetStorageProof>, index: U64, e: QueueEntryProof)
    requires Trusted(lib, read, stateRoot, chain)
    requires EntryVerified(lib, chain.StorageRootAt(queue), index, e)
    requires forall t | t in targets :: TargetVerified(lib, stateRoot, t)
    requires Resolved(lib, targets, e)
    ensures EntryAgrees(lib, chain, queue, targets, index, e)
  {
    EntryIsPinned(lib, read, stateRoot, chain, queue, index, e);
    MatchingEntryDecodes(lib, chain, queue, index, e);
    ResolvedValueIsPinned(lib, read, stateRoot, chain, targets, e);
  }

  lemma AcceptedEntriesAgree(lib: Library, read: Lookup, stateRoot: B256, chain: Chain, qs: QueueStorage)
    requires Trusted(lib, read, stateRoot, chain) && Accepts(lib, stateRoot, qs)
    ensures EntriesAgree(lib, chain, qs)
  {
    AnchorIsPinned(lib, read, stateRoot, chain, qs);
    VerifiedEntriesAgree(lib, read, stateRoot, chain, qs);
  }

  lemma VerifiedEntriesAgree(lib: Library, read: Lookup, stateRoot: B256, chain: Chain, qs: QueueStorage)
    requires Trusted(lib, read, stateRoot, chain) && qs.inputCursor + |qs.entries| < TWO_64
    requires EntriesVerified(lib, chain.StorageRootAt(qs.queueAddress), qs.inputCursor, qs.entries)
    requires forall t | t in qs.targets :: TargetVerified(lib, stateRoot, t)
    requires forall e | e in qs.entries :: Resolved(lib, qs.targets, e)
    ensures EntriesAgree(lib, chain, qs)
  {
    forall i | 0 <= i < |qs.entries|
      ensures EntryAgrees(lib, chain, qs.queueAddress, qs.targets, qs.inputCursor + i, qs.entries[i])
    {
      EntryAtAgrees(lib, read, stateRoot, chain, qs.queueAddress, qs.targets, qs.inputCursor, qs.entries, i);
    }
  }

  lemma EntryAtAgrees(lib: Library, read: Lookup, stateRoot: B256, chain: Chain, queue: Address,
                      targets: seq<TargetStorageProof>, cursor: U64, entries: seq<QueueEntryProof>, i: nat)
    requires Trusted(lib, read, stateRoot, chain) && cursor + |entries| < TWO_64 && i < |entries|
    requires EntriesVerified(lib, chain.StorageRootAt(queue), cursor, entries)
    requires forall t | t in targets :: TargetVerified(lib, stateRoot, t)
    requires forall e | e in entries :: Resolved(lib, targets, e)
    ensures EntryAgrees(lib, chain, queue, targets, cursor + i, entries[i])
  {
    var e := entries[i];
    assert e in entries && EntryVerified(lib, chain.StorageRootAt(queue), cursor + i, e);
    VerifiedEntryAgrees(lib, read, stateRoot, chain, queue, targets, cursor + i, e);
  }

  lemma AgreeingRequests(lib: Library, chain: Chain, qs: QueueStorage)
    requires qs.inputCursor + |qs.entries| < TWO_64 && EntriesAgree(lib, chain, qs)
    ensures RequestsOf(qs)
         == RequestsBetween(lib, chain, qs.queueAddress, qs.inputCursor, qs.inputCursor + |qs.entries|)
  {
    forall i | 0 <= i < |qs.entries|
      ensures RequestsOf(qs)[i] == RequestAt(lib, chain, qs.queueAddress, qs.inputCursor + i)
    {
      AgreeingRequest(lib, chain, qs, i);
    }
    RequestsBetweenIs(lib, chain, qs.queueAddress, qs.inputCursor, qs.inputCursor + |qs.entries|, RequestsOf(qs));
  }

  lemma AgreeingRequest(lib: Library, chain: Chain, qs: QueueStorage, i: nat)
    requires qs.inputCursor + |qs.entries| < TWO_64 && EntriesAgree(lib, chain, qs) && i < |qs.entries|
    ensures RequestsOf(qs)[i] == RequestAt(lib, chain, qs.queueAddress, qs.inputCursor + i)
  {
    assert EntryAgrees(lib, chain, qs.queueAddress, qs.targets, qs.inputCursor + i, qs.entries[i]);
  }

  /** The central result. For every chain state, queue and cursor, an accepted witness has the
      chain's head, and its requests are the ones read from chain state alone for the indices from
      the cursor to the lesser of the head and the cursor plus `MAX_BATCH`. */
  lemma AcceptedWitnessIsChainState(lib: Library, read: Lookup, stateRoot: B256, chain: Chain, qs: QueueStorage)
    requires Trusted(lib, read, stateRoot, chain)
    requires Accepts(lib, stateRoot, qs)
    ensures qs.head == HeadWord(lib, chain, qs.queueAddress) && qs.inputCursor <= qs.head
    ensures qs.inputCursor + |qs.entries| == Min(qs.head, qs.inputCursor + MAX_BATCH)
    ensures RequestsOf(qs)
         == RequestsBetween(lib, chain, qs.queueAddress, qs.inputCursor, qs.inputCursor + |qs.entries|)
  {
    AnchorIsPinned(lib, read, stateRoot, chain, qs);
    AcceptedEntriesAgree(lib, read, stateRoot, chain, qs);
    AgreeingRequests(lib, chain, qs);
  }

  /** The batch is everything between the cursor and the chain's head, up to 65536 entries. */
  lemma AcceptedBatchSize(lib: Library, read: Lookup, stateRoot: B256, chain: Chain, qs: QueueStorage)
    requires Trusted(lib, read, stateRoot, chain) && Accepts(lib, stateRoot, qs)
    ensures var waiting := HeadWord(lib, chain, qs.queueAddress) - qs.inputCursor;
            0 <= waiting && |qs.entries| == if waiting < 65536 then waiting else 65536
  {
    AnchorIsPinned(lib, read, stateRoot, chain, qs);
  }

  /** An empty batch is accepted only where the cursor has reached the chain's head; it commits the zero
      root and leaves the cursor. */
  lemma EmptyBatchMeansCaughtUp(lib: Library, read: Lookup, stateRoot: B256, chain: Chain, qs: QueueStorage)
    requires Trusted(lib, read, stateRoot, chain) && Accepts(lib, stateRoot, qs)
    ensures qs.entries == [] <==> qs.inputCursor == HeadWord(lib, chain, qs.queueAddress)
    ensures qs.entries == [] ==> RootBytes(lib.poseidon, RequestsOf(qs)) == Zeros(32)
  {
    AnchorIsPinned(lib, read, stateRoot, chain, qs);
    if qs.entries == [] {
      EmptyRootIsZero(lib.poseidon);
      assert RequestsOf(qs) == [];
    }
  }

  lemma EmptyRootIsZero(h: Hasher)
    ensures RootBytes(h, []) == Zeros(32)
  {
    assert Leaves(h, []) == [];
    assert ReferenceRoot(h, []) == 0;
    LeHighZeros(0, 32, 0);
    assert ToLe(0, 32)[0..] == ToLe(0, 32);
  }

  /** The prover chooses nothing: two accepted witnesses for one state root, queue and cursor commit
      the same output cursor and the same root. */
  lemma AcceptedWitnessesAgree(lib: Library, read: Lookup, stateRoot: B256, chain: Chain, p: QueueStorage,
                               q: QueueStorage)
    requires Trusted(lib, read, stateRoot, chain)
    requires Accepts(lib, stateRoot, p) && Accepts(lib, stateRoot, q)
    requires p.queueAddress == q.queueAddress && p.inputCursor == q.inputCursor
    ensures |p.entries| == |q.entries|
    ensures RootBytes(lib.poseidon, RequestsOf(p)) == RootBytes(lib.poseidon, RequestsOf(q))
  {
    AcceptedWitnessIsChainState(lib, read, stateRoot, chain, p);
    AcceptedWitnessIsChainState(lib, read, stateRoot, chain, q);
    SameBatch(lib, chain, p, q);
  }

  /** Witnesses that hold the chain's batch from one cursor hold the same batch. */
  lemma SameBatch(lib: Library, chain: Chain, p: QueueStorage, q: QueueStorage)
    requires p.queueAddress == q.queueAddress && p.inputCursor == q.inputCursor && p.head == q.head
    requires p.inputCursor + |p.entries| == Min(p.head, p.inputCursor + MAX_BATCH) < TWO_64
    requires q.inputCursor + |q.entries| == Min(q.head, q.inputCursor + MAX_BATCH)
    requires RequestsOf(p) == RequestsBetween(lib, chain, p.queueAddress, p.inputCursor, p.inputCursor + |p.entries|)
    requires RequestsOf(q) == RequestsBetween(lib, chain, q.queueAddress, q.inputCursor, q.inputCursor + |q.entries|)
    ensures |p.entries| == |q.entries|
    ensures RootBytes(lib.poseidon, RequestsOf(p)) == RootBytes(lib.poseidon, RequestsOf(q))
  {
    assert RequestsOf(p) == RequestsOf(q);
  }
}
