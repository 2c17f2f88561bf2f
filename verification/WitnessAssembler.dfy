/** The host's witness assembler: reads the queue through `eth_getProof`, in chunks, and builds the
    witness the guest checks. Provider answers are parameters. */
module WitnessAssembler {
  import opened ByteCodec
  import opened MerkleTree
  import opened ChainState
  import opened QueueVerifier

  /** One entry of an EIP-1186 `storageProof`. */
  datatype StorageItem = StorageItem(key: B256, value: Word, proof: TrieProof)

  datatype AccountResponse = AccountResponse(
    address: Address, account: TrieAccount, accountProof: TrieProof, storageProof: seq<StorageItem>)

  /** `eth_getProof` and `eth_getStorageAt` of one provider, pinned to the window's output block. A call
      may fail; a proof request is given the number of the attempt. */
  datatype Provider = Provider(
    getProof: (Address, seq<B256>, nat) -> Option<AccountResponse>,
    getStorageAt: (Address, B256) -> Option<Word>)

  const MAX_RETRIES: nat := 3

  datatype HostError =
    | RpcError
    | QueueHeadExceedsU64
    | CursorAheadOfQueueHead(cursor: U64, head: U64)
    | MissingStorageKey(key: B256)
    | KeysCountExceedsU8(index: U64)
    | AccountNeitherPresentNorAbsent(address: Address)

  // ---- honest answers -------------------------------------------------------------------------

  ghost predicate ValidItem(lib: Library, chain: Chain, a: Address, key: B256, item: StorageItem) {
    && item.key == key && item.value == chain.WordAt(a, key)
    && WordVerified(lib, chain.StorageRootAt(a), key, item.value, item.proof)
  }

  ghost predicate ValidItems(lib: Library, chain: Chain, a: Address, keys: seq<B256>, items: seq<StorageItem>) {
    && |items| == |keys|
    && forall i | 0 <= i < |keys| :: ValidItem(lib, chain, a, keys[i], items[i])
  }

  /** A true answer. The account fields of an absent account are left open: clients disagree on them. */
  ghost predicate ValidResponse(lib: Library, stateRoot: B256, chain: Chain, a: Address, keys: seq<B256>,
                                resp: AccountResponse) {
    && resp.address == a
    && (a in chain.accounts ==> resp.account == chain.accounts[a])
    && AccountVerified(lib, stateRoot, a, chain.AccountAt(a), resp.accountProof)
    && ValidItems(lib, chain, a, keys, resp.storageProof)
  }

  /** The request is answered within the retries. */
  ghost predicate Responds(provider: Provider, a: Address, keys: seq<B256>) {
    exists attempt | 0 <= attempt <= MAX_RETRIES :: provider.getProof(a, keys, attempt).Some?
  }

  /** Four attempts are made in all. */
  lemma FourAttempts(provider: Provider, a: Address, keys: seq<B256>)
    ensures Responds(provider, a, keys) <==>
              || provider.getProof(a, keys, 0).Some? || provider.getProof(a, keys, 1).Some?
              || provider.getProof(a, keys, 2).Some? || provider.getProof(a, keys, 3).Some?
  {
  }

  /** Hypothesis on the provider: requests are answered, within the retries, by true lookups with proofs
      that verify. */
  ghost predicate Honest(lib: Library, stateRoot: B256, chain: Chain, provider: Provider) {
    && (forall a, keys :: Responds(provider, a, keys))
    && (forall a, keys, attempt | provider.getProof(a, keys, attempt).Some? ::
          ValidResponse(lib, stateRoot, chain, a, keys, provider.getProof(a, keys, attempt).value))
    && (forall a, key :: provider.getStorageAt(a, key) == Some(chain.WordAt(a, key)))
  }

  // ---- chunked requests -----------------------------------------------------------------------

  lemma ValidItemsConcat(lib: Library, chain: Chain, a: Address, keys: seq<B256>, cut: nat, front: seq<StorageItem>,
                         back: seq<StorageItem>, end: nat)
    requires cut <= end <= |keys|
    requires ValidItems(lib, chain, a, keys[..cut], front) && ValidItems(lib, chain, a, keys[cut..end], back)
    ensures ValidItems(lib, chain, a, keys[..end], front + back)
  {
    forall i | 0 <= i < end
      ensures ValidItem(lib, chain, a, keys[i], (front + back)[i])
    {
      if i < cut {
        assert ValidItem(lib, chain, a, keys[..cut][i], front[i]);
      } else {
        assert ValidItem(lib, chain, a, keys[cut..end][i - cut], back[i - cut]);
      }
    }
  }

  /** Asks for one chunk, again on a failure, up to `MAX_RETRIES` more times: it fails exactly when every
      attempt does, and otherwise returns the first answer. */
  method RequestChunk(provider: Provider, address: Address, chunk: seq<B256>)
    returns (r: Result<AccountResponse, HostError>)
    ensures r.Ok? <==> Responds(provider, address, chunk)
    ensures r.Ok? ==> exists attempt | 0 <= attempt <= MAX_RETRIES ::
              && provider.getProof(address, chunk, attempt) == Some(r.value)
              && (forall earlier | 0 <= earlier < attempt :: provider.getProof(address, chunk, earlier).None?)
    ensures r.Err? ==> r.error == RpcError
  {
    var retries := 0;
    while true
      invariant 0 <= retries <= MAX_RETRIES
      invariant forall earlier | 0 <= earlier < retries :: provider.getProof(address, chunk, earlier).None?
      decreases MAX_RETRIES - retries
    {
      var proof := provider.getProof(address, chunk, retries);
      if proof.Some? {
        return Ok(proof.value);
      }
      if retries == MAX_RETRIES {
        return Err(RpcError);
      }
      retries := retries + 1;
    }
  }

  /** Every request the keys are split into is answered. No keys still make one request. */
  ghost predicate ChunksAnswered(provider: Provider, a: Address, keys: seq<B256>, limit: nat)
    requires limit > 0
    decreases |keys|
  {
    if |keys| <= limit then Responds(provider, a, keys)
    else Responds(provider, a, keys[..limit]) && ChunksAnswered(provider, a, keys[limit..], limit)
  }

  lemma {:induction false} HonestAnswersAll(lib: Library, stateRoot: B256, chain: Chain, provider: Provider,
                                            a: Address, keys: seq<B256>, limit: nat)
    requires Honest(lib, stateRoot, chain, provider) && limit > 0
    ensures ChunksAnswered(provider, a, keys, limit)
    decreases |keys|
  {
    if |keys| > limit {
      HonestAnswersAll(lib, stateRoot, chain, provider, a, keys[limit..], limit);
    }
  }

  /** The requests for the keys from `at` on are the next one and those from its end on. */
  lemma NextChunk(provider: Provider, a: Address, keys: seq<B256>, at: nat, end: nat, limit: nat)
    requires limit > 0 && at < |keys| && end == Min(at + limit, |keys|)
    ensures ChunksAnswered(provider, a, keys[at..], limit)
       <==> Responds(provider, a, keys[at..end]) && (end == |keys| || ChunksAnswered(provider, a, keys[end..], limit))
  {
    var rest := keys[at..];
    assert keys[at..end] == rest[..end - at] && keys[end..] == rest[end - at..];
    assert end == |keys| ==> rest[..end - at] == rest;
  }

  /** Splits the keys into requests of at most `chunkLimit` keys and merges the answers onto the first
      one. It fails exactly when some request does. Whatever the limit, zero included, and whatever the
      number of keys, an honest provider's merged answer is a true answer for all the keys, in order. */
  method GetProof(ghost lib: Library, ghost stateRoot: B256, ghost chain: Chain, provider: Provider, address: Address,
                  keys: seq<B256>, chunkLimit: nat)
    returns (r: Result<AccountResponse, HostError>)
    ensures r.Ok? <==> ChunksAnswered(provider, address, keys, if chunkLimit == 0 then 1 else chunkLimit)
    ensures r.Err? ==> r.error == RpcError
    ensures Honest(lib, stateRoot, chain, provider)
      ==> r.Ok? && ValidResponse(lib, stateRoot, chain, address, keys, r.value)
  {
    var limit := if chunkLimit == 0 then 1 else chunkLimit;
    ghost var honest := Honest(lib, stateRoot, chain, provider);
    if honest {
      HonestAnswersAll(lib, stateRoot, chain, provider, address, keys, limit);
    }
    var at := Min(limit, |keys|);
    assert keys[0..] == keys && keys[0..at] == keys[..at];
    if keys != [] {
      NextChunk(provider, address, keys, 0, at, limit);
    }
    var first := RequestChunk(provider, address, keys[..at]);
    if first.Err? {
      return first;
    }
    var merged := first.value;
    while at < |keys|
      invariant at <= |keys|
      invariant ChunksAnswered(provider, address, keys, limit)
           <==> at == |keys| || ChunksAnswered(provider, address, keys[at..], limit)
      invariant honest ==> ValidResponse(lib, stateRoot, chain, address, keys[..at], merged)
    {
      var end := Min(at + limit, |keys|);
      NextChunk(provider, address, keys, at, end, limit);
      var proof := RequestChunk(provider, address, keys[at..end]);
      if proof.Err? {
        return proof;
      }
      if honest {
        ValidItemsConcat(lib, chain, address, keys, at, merged.storageProof, proof.value.storageProof, end);
      }
      merged := merged.(storageProof := merged.storageProof + proof.value.storageProof);
      at := end;
    }
    assert keys[..|keys|] == keys;
    r := Ok(merged);
  }

  /** Decides whether an account exists by checking its proof both ways. */
  function AccountWitness(lib: Library, resp: AccountResponse, stateRoot: B256)
    : (r: Result<Option<TrieAccount>, HostError>)
  {
    if AccountVerified(lib, stateRoot, resp.address, Some(resp.account), resp.accountProof) then Ok(Some(resp.account))
    else if AccountVerified(lib, stateRoot, resp.address, None, resp.accountProof) then Ok(None)
    else Err(AccountNeitherPresentNorAbsent(resp.address))
  }

  /** For a true answer the two-way check finds the chain's own account, present or absent, whatever
      fields an absent account was reported with. */
  lemma AccountWitnessIsTrue(lib: Library, read: Lookup, stateRoot: B256, chain: Chain, a: Address, keys: seq<B256>,
                             resp: AccountResponse)
    requires Trusted(lib, read, stateRoot, chain) && ValidResponse(lib, stateRoot, chain, a, keys, resp)
    ensures AccountWitness(lib, resp, stateRoot) == Ok(chain.AccountAt(a))
  {
  }

  // ---- proved words by key --------------------------------------------------------------------

  datatype ProvedWord = ProvedWord(value: Word, proof: TrieProof)

  type WordMap = map<B256, ProvedWord>

  /** Collecting a response into a map: a later item replaces an earlier one with its key. */
  function WordsByKey(items: seq<StorageItem>): (m: WordMap) {
    if items == [] then map[]
    else
      var last := items[|items| - 1];
      WordsByKey(items[..|items| - 1])[last.key := ProvedWord(last.value, last.proof)]
  }

  ghost predicate ProvesWord(lib: Library, chain: Chain, a: Address, m: WordMap, key: B256) {
    key in m && ValidItem(lib, chain, a, key, StorageItem(key, m[key].value, m[key].proof))
  }

  ghost predicate ProvesWords(lib: Library, chain: Chain, a: Address, m: WordMap, keys: seq<B256>) {
    forall key | key in keys :: ProvesWord(lib, chain, a, m, key)
  }

  lemma {:induction false} WordsAreValid(lib: Library, chain: Chain, a: Address, keys: seq<B256>,
                                         items: seq<StorageItem>)
    requires ValidItems(lib, chain, a, keys, items)
    ensures ProvesWords(lib, chain, a, WordsByKey(items), keys)
  {
    if items != [] {
      var n := |items| - 1;
      assert ValidItem(lib, chain, a, keys[n], items[n]);
      WordsAreValid(lib, chain, a, keys[..n], items[..n]);
      forall key | key in keys
        ensures ProvesWord(lib, chain, a, WordsByKey(items), key)
      {
        if key != keys[n] {
          assert key in keys[..n];
        }
      }
    }
  }

  // ---- entries --------------------------------------------------------------------------------

  ghost predicate AreEntryKeys(keccak: Keccak, cursor: U64, batch: nat, keys: seq<B256>)
    requires cursor + batch < TWO_64
  {
    && |keys| == QUEUE_ENTRY_WORDS * batch
    && forall k | 0 <= k < |keys| :: keys[k] == EntryKey(keccak, cursor + k / 5, k % 5)
  }

  /** Keys of one entry: its base, then the following words. */
  method EntryKeys(keccak: Keccak, index: U64) returns (keys: seq<B256>)
    ensures |keys| == QUEUE_ENTRY_WORDS
    ensures forall j | 0 <= j < QUEUE_ENTRY_WORDS :: keys[j] == EntryKey(keccak, index, j)
  {
    var base := MappingEntryLocation(keccak, index, QUEUE_REQUESTS_STORAGE_INDEX);
    keys := [base];
    for wordIndex := 1 to QUEUE_ENTRY_WORDS
      invariant |keys| == wordIndex
      invariant forall j | 0 <= j < wordIndex :: keys[j] == EntryKey(keccak, index, j)
    {
      keys := keys + [StructWordSlot(base, wordIndex)];
    }
  }

  lemma AppendEntryKeys(keccak: Keccak, cursor: U64, offset: nat, keys: seq<B256>, more: seq<B256>)
    requires cursor + offset + 1 < TWO_64 && AreEntryKeys(keccak, cursor, offset, keys)
    requires |more| == QUEUE_ENTRY_WORDS
    requires forall j | 0 <= j < QUEUE_ENTRY_WORDS :: more[j] == EntryKey(keccak, cursor + offset, j)
    ensures AreEntryKeys(keccak, cursor, offset + 1, keys + more)
  {
    var all := keys + more;
    forall k | 0 <= k < |all|
      ensures all[k] == EntryKey(keccak, cursor + k / 5, k % 5)
    {
      if k >= |keys| {
        assert k / 5 == offset && k % 5 == k - |keys|;
        assert all[k] == more[k - |keys|];
      }
    }
  }

  /** Keys of every entry word of the batch, entry by entry. */
  method EntryWordKeys(keccak: Keccak, cursor: U64, batch: nat) returns (keys: seq<B256>)
    requires cursor + batch < TWO_64
    ensures AreEntryKeys(keccak, cursor, batch, keys)
  {
    keys := [];
    for offset := 0 to batch
      invariant AreEntryKeys(keccak, cursor, offset, keys)
    {
      var more := EntryKeys(keccak, cursor + offset);
      AppendEntryKeys(keccak, cursor, offset, keys, more);
      keys := keys + more;
    }
  }

  /** The five keys of the entry at `offset` in the batch. */
  function EntrySlice(keys: seq<B256>, offset: nat): (slice: seq<B256>)
    requires (offset + 1) * QUEUE_ENTRY_WORDS <= |keys|
    ensures |slice| == QUEUE_ENTRY_WORDS
  {
    keys[offset * QUEUE_ENTRY_WORDS..(offset + 1) * QUEUE_ENTRY_WORDS]
  }

  /** Reads one entry from the proved words at its five keys. */
  function ReadEntry(m: WordMap, keys: seq<B256>, index: U64): (r: Result<QueueEntryProof, HostError>)
    requires |keys| == QUEUE_ENTRY_WORDS
  {
    if keys[0] !in m then Err(MissingStorageKey(keys[0]))
    else if keys[1] !in m then Err(MissingStorageKey(keys[1]))
    else if keys[2] !in m then Err(MissingStorageKey(keys[2]))
    else if keys[3] !in m then Err(MissingStorageKey(keys[3]))
    else if keys[4] !in m then Err(MissingStorageKey(keys[4]))
    else if m[keys[2]].value >= 256 then Err(KeysCountExceedsU8(index))
    else
      Ok(QueueEntryProof(
        AddressOfWord(m[keys[0]].value), ToBe(m[keys[1]].value, 32), m[keys[2]].value,
        ToBe(m[keys[3]].value, 32), ToBe(m[keys[4]].value, 32),
        [m[keys[0]].proof, m[keys[1]].proof, m[keys[2]].proof, m[keys[3]].proof, m[keys[4]].proof]))
  }

  /** An entry is read exactly when its five words are there and its key count fits a byte; an oversized
      count is refused, not truncated. */
  lemma ReadEntryExactly(m: WordMap, keys: seq<B256>, index: U64)
    requires |keys| == QUEUE_ENTRY_WORDS
    ensures ReadEntry(m, keys, index).Ok? <==> (forall k | k in keys :: k in m) && m[keys[2]].value < 256
    ensures (forall k | k in keys :: k in m) && m[keys[2]].value >= 256
      ==> ReadEntry(m, keys, index) == Err(KeysCountExceedsU8(index))
  {
    assert keys == [keys[0], keys[1], keys[2], keys[3], keys[4]];
  }

  /** On true words of a well-formed entry, the entry read spells those words and carries their proofs. */
  lemma ReadEntrySpellsWords(m: WordMap, keys: seq<B256>, index: U64)
    requires |keys| == QUEUE_ENTRY_WORDS && (forall j | 0 <= j < 5 :: keys[j] in m)
    requires m[keys[0]].value < TWO_160 && m[keys[2]].value < 256
    ensures var r := ReadEntry(m, keys, index);
            r.Ok? && forall j | 0 <= j < 5 ::
              EntryValue(r.value, j) == m[keys[j]].value && r.value.wordProofs[j] == m[keys[j]].proof
  {
    WordAddressRoundTrip(m[keys[0]].value);
    WordB256RoundTrip(m[keys[1]].value);
    WordB256RoundTrip(m[keys[3]].value);
    WordB256RoundTrip(m[keys[4]].value);
  }

  /** The five keys are those of entry `index`, and the words at them are proved. */
  ghost predicate ProvenKeys(lib: Library, chain: Chain, queue: Address, m: WordMap, index: U64, keys: seq<B256>) {
    && |keys| == QUEUE_ENTRY_WORDS
    && forall j | 0 <= j < QUEUE_ENTRY_WORDS ::
         keys[j] == EntryKey(lib.keccak, index, j) && ProvesWord(lib, chain, queue, m, keys[j])
  }

  lemma HonestEntryVerifies(lib: Library, chain: Chain, queue: Address, index: U64, m: WordMap, keys: seq<B256>)
    requires ProvenKeys(lib, chain, queue, m, index, keys) && WellFormedEntry(lib, chain, queue, index)
    ensures ReadEntry(m, keys, index).Ok?
    ensures EntryVerified(lib, chain.StorageRootAt(queue), index, ReadEntry(m, keys, index).value)
  {
    forall j | 0 <= j < 5
      ensures keys[j] in m && m[keys[j]].value == EntryWord(lib, chain, queue, index, j)
    {
      assert ProvesWord(lib, chain, queue, m, keys[j]);
    }
    assert m[keys[0]].value == EntryWord(lib, chain, queue, index, 0);
    assert m[keys[2]].value == EntryWord(lib, chain, queue, index, 2);
    ReadEntrySpellsWords(m, keys, index);
    var e := ReadEntry(m, keys, index).value;
    forall j | 0 <= j < 5
      ensures EntryWordVerified(lib, chain.StorageRootAt(queue), index, e, j)
    {
      assert ProvesWord(lib, chain, queue, m, keys[j]);
      assert EntryValue(e, j) == m[keys[j]].value && e.wordProofs[j] == m[keys[j]].proof;
    }
  }

  // ---- slots by target ------------------------------------------------------------------------

  ghost predicate NoDuplicates<T(!new)>(s: seq<T>) {
    forall i, j | 0 <= i < j < |s| :: s[i] != s[j]
  }

  type SlotKeys = map<Address, seq<B256>>

  /** Every entry's target and slot is listed, and no slot key is listed twice. */
  ghost predicate ListsSlots(entries: seq<QueueEntryProof>, listed: SlotKeys) {
    && (forall e | e in entries :: e.target in listed && e.slotKey in listed[e.target])
    && (forall a | a in listed :: NoDuplicates(listed[a]))
  }

  function AddSlot(listed: SlotKeys, target: Address, key: B256): (r: SlotKeys) {
    var keys := if target in listed then listed[target] else [];
    listed[target := if key in keys then keys else keys + [key]]
  }

  lemma AddSlotLists(entries: seq<QueueEntryProof>, listed: SlotKeys, e: QueueEntryProof)
    requires ListsSlots(entries, listed)
    ensures ListsSlots(entries + [e], AddSlot(listed, e.target, e.slotKey))
  {
  }

  /** Slots of one target, in the order listed, from its proved words. */
  method ReadSlots(m: WordMap, keys: seq<B256>) returns (r: Result<seq<TargetSlotProof>, HostError>)
    ensures r.Ok? <==> forall key | key in keys :: key in m
    ensures r.Ok? ==> |r.value| == |keys|
    ensures r.Ok? ==> forall i | 0 <= i < |keys| ::
              r.value[i] == TargetSlotProof(keys[i], m[keys[i]].value, m[keys[i]].proof)
  {
    var slots: seq<TargetSlotProof> := [];
    for i := 0 to |keys|
      invariant |slots| == i
      invariant forall k | 0 <= k < i :: keys[k] in m
      invariant forall k | 0 <= k < i :: slots[k] == TargetSlotProof(keys[k], m[keys[k]].value, m[keys[k]].proof)
    {
      if keys[i] !in m {
        return Err(MissingStorageKey(keys[i]));
      }
      slots := slots + [TargetSlotProof(keys[i], m[keys[i]].value, m[keys[i]].proof)];
    }
    r := Ok(slots);
  }

  /** A target record lists exactly the given keys, in order. */
  ghost predicate HasKeys(t: TargetStorageProof, keys: seq<B256>) {
    && |t.slots| == |keys|
    && forall i | 0 <= i < |keys| :: t.slots[i].key == keys[i]
  }

  /** The account claim and every slot of the record verify against the chain. */
  ghost predicate ProvenTarget(lib: Library, stateRoot: B256, chain: Chain, t: TargetStorageProof) {
    && TargetVerified(lib, stateRoot, t)
    && forall s | s in t.slots :: WordVerified(lib, chain.StorageRootAt(t.targetAddress), s.key, s.value, s.mptProof)
  }

  method ReadTarget(lib: Library, ghost read: Lookup, stateRoot: B256, ghost chain: Chain, provider: Provider,
                    address: Address, keys: seq<B256>, chunkLimit: nat)
    returns (r: Result<TargetStorageProof, HostError>)
    ensures r.Ok? ==> r.value.targetAddress == address && HasKeys(r.value, keys)
    ensures Trusted(lib, read, stateRoot, chain) && Honest(lib, stateRoot, chain, provider) ==>
              r.Ok? && ProvenTarget(lib, stateRoot, chain, r.value)
  {
    ghost var trusted := Trusted(lib, read, stateRoot, chain) && Honest(lib, stateRoot, chain, provider);
    var answer := GetProof(lib, stateRoot, chain, provider, address, keys, chunkLimit);
    if answer.Err? {
      return Err(answer.error);
    }
    var resp := answer.value;
    if trusted {
      AccountWitnessIsTrue(lib, read, stateRoot, chain, address, keys, resp);
      WordsAreValid(lib, chain, address, keys, resp.storageProof);
    }
    var account := AccountWitness(lib, resp, stateRoot);
    if account.Err? {
      return Err(account.error);
    }
    var m := WordsByKey(resp.storageProof);
    assert trusted ==> ProvesWords(lib, chain, address, m, keys);
    var slots := ReadSlots(m, keys);
    if slots.Err? {
      return Err(slots.error);
    }
    if trusted {
      forall s | s in slots.value
        ensures WordVerified(lib, chain.StorageRootAt(address), s.key, s.value, s.mptProof)
      {
        var i :| 0 <= i < |slots.value| && slots.value[i] == s;
        assert keys[i] in keys && ProvesWord(lib, chain, address, m, keys[i]);
      }
    }
    r := Ok(TargetStorageProof(address, account.value, resp.accountProof, slots.value));
  }

  /** Distinct target addresses, and distinct slot keys within each: what the assembler guarantees of
      every witness it builds, whatever the provider answered. */
  ghost predicate DistinctTargets(targets: seq<TargetStorageProof>) {
    && (forall i, j | 0 <= i < j < |targets| :: targets[i].targetAddress != targets[j].targetAddress)
    && (forall t | t in targets :: DistinctSlots(t.slots))
  }

  ghost predicate DistinctSlots(slots: seq<TargetSlotProof>) {
    forall i, j | 0 <= i < j < |slots| :: slots[i].key != slots[j].key
  }

  ghost predicate Covers(targets: seq<TargetStorageProof>, a: Address, keys: seq<B256>) {
    exists t | t in targets :: t.targetAddress == a && HasKeys(t, keys)
  }

  /** One record per distinct target, visited in any order. */
  method ReadTargets(lib: Library, ghost read: Lookup, stateRoot: B256, ghost chain: Chain, provider: Provider,
                     listed: SlotKeys, chunkLimit: nat)
    returns (r: Result<seq<TargetStorageProof>, HostError>)
    requires forall a | a in listed :: NoDuplicates(listed[a])
    ensures r.Ok? ==> DistinctTargets(r.value) && forall a | a in listed :: Covers(r.value, a, listed[a])
    ensures Trusted(lib, read, stateRoot, chain) && Honest(lib, stateRoot, chain, provider) ==>
              r.Ok? && forall t | t in r.value :: ProvenTarget(lib, stateRoot, chain, t)
  {
    ghost var trusted := Trusted(lib, read, stateRoot, chain) && Honest(lib, stateRoot, chain, provider);
    var targets: seq<TargetStorageProof> := [];
    var remaining := listed.Keys;
    while remaining != {}
      invariant remaining <= listed.Keys
      invariant forall t | t in targets :: t.targetAddress !in remaining
      invariant DistinctTargets(targets)
      invariant forall a | a in listed && a !in remaining :: Covers(targets, a, listed[a])
      invariant trusted ==> forall t | t in targets :: ProvenTarget(lib, stateRoot, chain, t)
    {
      var address :| address in remaining;
      var t := ReadTarget(lib, read, stateRoot, chain, provider, address, listed[address], chunkLimit);
      if t.Err? {
        return Err(t.error);
      }
      ghost var before := targets;
      targets := targets + [t.value];
      remaining := remaining - {address};
      TargetAppended(before, t.value, listed[address]);
      forall a | a in listed && a !in remaining
        ensures Covers(targets, a, listed[a])
      {
        if a == address {
          assert t.value in targets;
        } else {
          var x :| x in before && x.targetAddress == a && HasKeys(x, listed[a]);
          assert x in targets;
        }
      }
    }
    r := Ok(targets);
  }

  lemma TargetAppended(targets: seq<TargetStorageProof>, t: TargetStorageProof, keys: seq<B256>)
    requires DistinctTargets(targets) && (forall x | x in targets :: x.targetAddress != t.targetAddress)
    requires HasKeys(t, keys) && NoDuplicates(keys)
    ensures DistinctTargets(targets + [t])
  {
  }

  // ---- the witness ----------------------------------------------------------------------------

  ghost predicate WellFormedBatch(lib: Library, chain: Chain, queue: Address, from: nat, end: nat) {
    forall i: U64 | from <= i < end :: WellFormedEntry(lib, chain, queue, i)
  }

  /** Reads the batch's entries and lists the slots each target must prove. */
  method ReadEntries(lib: Library, ghost chain: Chain, ghost queue: Address, cursor: U64, batch: nat, keys: seq<B256>,
                     m: WordMap)
    returns (r: Result<seq<QueueEntryProof>, HostError>, listed: SlotKeys)
    requires cursor + batch < TWO_64 && AreEntryKeys(lib.keccak, cursor, batch, keys)
    ensures r.Ok? ==> |r.value| == batch && ListsSlots(r.value, listed)
    ensures ProvesWords(lib, chain, queue, m, keys) && WellFormedBatch(lib, chain, queue, cursor, cursor + batch)
      ==> r.Ok? && EntriesVerified(lib, chain.StorageRootAt(queue), cursor, r.value)
  {
    ghost var proven :=
      ProvesWords(lib, chain, queue, m, keys) && WellFormedBatch(lib, chain, queue, cursor, cursor + batch);
    if proven {
      AllSlicesProven(lib, chain, queue, cursor, batch, keys, m);
    }
    var entries: seq<QueueEntryProof> := [];
    listed := map[];
    for offset := 0 to batch
      invariant |entries| == offset && ListsSlots(entries, listed)
      invariant proven ==> EntriesVerified(lib, chain.StorageRootAt(queue), cursor, entries)
    {
      var entry := ReadEntry(m, EntrySlice(keys, offset), cursor + offset);
      if proven {
        NextEntryVerifies(lib, chain, queue, cursor, batch, keys, m, entries);
      }
      if entry.Err? {
        return Err(entry.error), listed;
      }
      AddSlotLists(entries, listed, entry.value);
      entries := entries + [entry.value];
      listed := AddSlot(listed, entry.value.target, entry.value.slotKey);
    }
    r := Ok(entries);
  }

  lemma EntriesVerifiedAppend(lib: Library, root: B256, cursor: U64, entries: seq<QueueEntryProof>,
                              e: QueueEntryProof)
    requires cursor + |entries| + 1 < TWO_64
    requires EntriesVerified(lib, root, cursor, entries) && EntryVerified(lib, root, cursor + |entries|, e)
    ensures EntriesVerified(lib, root, cursor, entries + [e])
  {
  }

  lemma EntrySliceProven(lib: Library, chain: Chain, queue: Address, cursor: U64, batch: nat, keys: seq<B256>,
                         m: WordMap, offset: nat)
    requires cursor + batch < TWO_64 && AreEntryKeys(lib.keccak, cursor, batch, keys) && offset < batch
    requires ProvesWords(lib, chain, queue, m, keys)
    ensures ProvenKeys(lib, chain, queue, m, cursor + offset, EntrySlice(keys, offset))
  {
    forall j | 0 <= j < QUEUE_ENTRY_WORDS
      ensures EntrySlice(keys, offset)[j] == EntryKey(lib.keccak, cursor + offset, j)
      ensures ProvesWord(lib, chain, queue, m, EntrySlice(keys, offset)[j])
    {
      EntrySliceKey(lib.keccak, cursor, batch, keys, offset, j);
    }
  }

  lemma EntrySliceKey(keccak: Keccak, cursor: U64, batch: nat, keys: seq<B256>, offset: nat, j: nat)
    requires cursor + batch < TWO_64 && AreEntryKeys(keccak, cursor, batch, keys) && offset < batch
    requires j < QUEUE_ENTRY_WORDS
    ensures EntrySlice(keys, offset)[j] == EntryKey(keccak, cursor + offset, j) && EntrySlice(keys, offset)[j] in keys
  {
    var k := offset * QUEUE_ENTRY_WORDS + j;
    assert k / 5 == offset && k % 5 == j;
    assert EntrySlice(keys, offset)[j] == keys[k];
  }

  /** Every entry's slice of the keys is proven: what the loop over entries needs of the keys. */
  ghost predicate SlicesProven(lib: Library, chain: Chain, queue: Address, cursor: U64, batch: nat, keys: seq<B256>,
                               m: WordMap)
    requires cursor + batch < TWO_64 && |keys| == QUEUE_ENTRY_WORDS * batch
  {
    forall offset | 0 <= offset < batch :: ProvenKeys(lib, chain, queue, m, cursor + offset, EntrySlice(keys, offset))
  }

  lemma AllSlicesProven(lib: Library, chain: Chain, queue: Address, cursor: U64, batch: nat, keys: seq<B256>,
                        m: WordMap)
    requires cursor + batch < TWO_64 && AreEntryKeys(lib.keccak, cursor, batch, keys)
    requires ProvesWords(lib, chain, queue, m, keys)
    ensures SlicesProven(lib, chain, queue, cursor, batch, keys, m)
  {
    forall offset | 0 <= offset < batch
      ensures ProvenKeys(lib, chain, queue, m, cursor + offset, EntrySlice(keys, offset))
    {
      EntrySliceProven(lib, chain, queue, cursor, batch, keys, m, offset);
    }
  }

  /** The entry read next, on true words, keeps the list of entries verified. */
  lemma BatchEntryAppends(lib: Library, chain: Chain, queue: Address, cursor: U64, keys: seq<B256>, m: WordMap,
                          entries: seq<QueueEntryProof>)
    requires cursor + |entries| + 1 < TWO_64
    requires ProvenKeys(lib, chain, queue, m, cursor + |entries|, keys)
    requires WellFormedEntry(lib, chain, queue, cursor + |entries|)
    requires EntriesVerified(lib, chain.StorageRootAt(queue), cursor, entries)
    ensures var entry := ReadEntry(m, keys, cursor + |entries|);
            entry.Ok? && EntriesVerified(lib, chain.StorageRootAt(queue), cursor, entries + [entry.value])
  {
    HonestEntryVerifies(lib, chain, queue, cursor + |entries|, m, keys);
    var entry := ReadEntry(m, keys, cursor + |entries|).value;
    EntriesVerifiedAppend(lib, chain.StorageRootAt(queue), cursor, entries, entry);
  }

  lemma NextEntryVerifies(lib: Library, chain: Chain, queue: Address, cursor: U64, batch: nat, keys: seq<B256>,
                          m: WordMap, entries: seq<QueueEntryProof>)
    requires cursor + batch < TWO_64 && |keys| == QUEUE_ENTRY_WORDS * batch && |entries| < batch
    requires SlicesProven(lib, chain, queue, cursor, batch, keys, m)
    requires WellFormedBatch(lib, chain, queue, cursor, cursor + batch)
    requires EntriesVerified(lib, chain.StorageRootAt(queue), cursor, entries)
    ensures var entry := ReadEntry(m, EntrySlice(keys, |entries|), cursor + |entries|);
            entry.Ok? && EntriesVerified(lib, chain.StorageRootAt(queue), cursor, entries + [entry.value])
  {
    assert WellFormedEntry(lib, chain, queue, cursor + |entries|);
    BatchEntryAppends(lib, chain, queue, cursor, EntrySlice(keys, |entries|), m, entries);
  }

  /** A queue state the contract can reach, seen from a cursor: the queue exists, its head fits a `u64`
      and is not behind the cursor, and the entries of the batch are well formed. */
  ghost predicate ReadyQueue(lib: Library, chain: Chain, queue: Address, cursor: U64) {
    && queue in chain.accounts
    && HeadWord(lib, chain, queue) < TWO_64
    && cursor <= HeadWord(lib, chain, queue)
    && WellFormedBatch(lib, chain, queue, cursor, Min(HeadWord(lib, chain, queue), cursor + MAX_BATCH))
  }

  /** Some witness for this queue and cursor is accepted. */
  ghost predicate Acceptable(lib: Library, stateRoot: B256, queue: Address, cursor: U64) {
    exists qs: QueueStorage | qs.queueAddress == queue && qs.inputCursor == cursor :: Accepts(lib, stateRoot, qs)
  }

  /** Acceptance needs a ready queue: an accepted witness shows that the queue exists, that its head is
      not behind the cursor and that every entry of the batch is well formed. */
  lemma AcceptedQueueIsReady(lib: Library, read: Lookup, stateRoot: B256, chain: Chain, qs: QueueStorage)
    requires Trusted(lib, read, stateRoot, chain) && Accepts(lib, stateRoot, qs)
    ensures ReadyQueue(lib, chain, qs.queueAddress, qs.inputCursor)
  {
    AnchorIsPinned(lib, read, stateRoot, chain, qs);
    AccountClaimIsPinned(lib, read, stateRoot, chain, ProofRequestQueue, qs.queueAddress, Some(qs.queueAccount),
                         qs.queueAccountProof);
    forall i: U64 | qs.inputCursor <= i < qs.inputCursor + |qs.entries|
      ensures WellFormedEntry(lib, chain, qs.queueAddress, i)
    {
      VerifiedIsWellFormed(lib, read, stateRoot, chain, qs.queueAddress, qs.inputCursor, qs.entries, i);
    }
  }

  lemma VerifiedIsWellFormed(lib: Library, read: Lookup, stateRoot: B256, chain: Chain, queue: Address, cursor: U64,
                             entries: seq<QueueEntryProof>, i: U64)
    requires Trusted(lib, read, stateRoot, chain) && cursor <= i < cursor + |entries| < TWO_64
    requires EntriesVerified(lib, chain.StorageRootAt(queue), cursor, entries)
    ensures WellFormedEntry(lib, chain, queue, i)
  {
    var k := i - cursor;
    assert EntryVerified(lib, chain.StorageRootAt(queue), cursor + k, entries[k]);
    EntryIsPinned(lib, read, stateRoot, chain, queue, i, entries[k]);
    MatchingEntryDecodes(lib, chain, queue, i, entries[k]);
  }

  /** The assembler. From an honest provider its witness is accepted exactly when the queue is ready, and
      so exactly when any witness at all is: no entry the queue holds can stall it, and no batch that can
      be proven is missed. */
  method AssembleWitness(lib: Library, ghost read: Lookup, stateRoot: B256, ghost chain: Chain, provider: Provider,
                         queue: Address, cursor: U64, chunkLimit: nat)
    returns (r: Result<QueueStorage, HostError>)
    ensures r.Ok? ==> r.value.inputCursor == cursor && BatchDerived(r.value) && DistinctTargets(r.value.targets)
    ensures Honest(lib, stateRoot, chain, provider) && HeadWord(lib, chain, queue) < cursor
      ==> r == Err(CursorAheadOfQueueHead(cursor, HeadWord(lib, chain, queue)))
    ensures Honest(lib, stateRoot, chain, provider) && r.Ok?
      ==> r.value.queueAddress == queue && r.value.head == HeadWord(lib, chain, queue)
    ensures Trusted(lib, read, stateRoot, chain) && Honest(lib, stateRoot, chain, provider)
      ==> (r.Ok? && Accepts(lib, stateRoot, r.value) <==> ReadyQueue(lib, chain, queue, cursor))
    ensures Trusted(lib, read, stateRoot, chain) && Honest(lib, stateRoot, chain, provider)
      ==> (Acceptable(lib, stateRoot, queue, cursor) <==> ReadyQueue(lib, chain, queue, cursor))
  {
    r := ReadQueue(lib, read, stateRoot, chain, provider, queue, cursor, chunkLimit);
    if Trusted(lib, read, stateRoot, chain) && Acceptable(lib, stateRoot, queue, cursor) {
      ghost var qs: QueueStorage :| qs.queueAddress == queue && qs.inputCursor == cursor && Accepts(lib, stateRoot, qs);
      AcceptedQueueIsReady(lib, read, stateRoot, chain, qs);
    }
  }

  /** The assembler's steps: the head, the batch's entries, then one record per target. */
  method ReadQueue(lib: Library, ghost read: Lookup, stateRoot: B256, ghost chain: Chain, provider: Provider,
                   queue: Address, cursor: U64, chunkLimit: nat)
    returns (r: Result<QueueStorage, HostError>)
    ensures r.Ok? ==> r.value.inputCursor == cursor && BatchDerived(r.value) && DistinctTargets(r.value.targets)
    ensures Honest(lib, stateRoot, chain, provider) && HeadWord(lib, chain, queue) < cursor
      ==> r == Err(CursorAheadOfQueueHead(cursor, HeadWord(lib, chain, queue)))
    ensures Honest(lib, stateRoot, chain, provider) && r.Ok?
      ==> r.value.queueAddress == queue && r.value.head == HeadWord(lib, chain, queue)
    ensures Trusted(lib, read, stateRoot, chain) && Honest(lib, stateRoot, chain, provider)
         && ReadyQueue(lib, chain, queue, cursor)
      ==> r.Ok? && Accepts(lib, stateRoot, r.value)
  {
    ghost var honest := Honest(lib, stateRoot, chain, provider);
    ghost var ready := Trusted(lib, read, stateRoot, chain) && honest && ReadyQueue(lib, chain, queue, cursor);
    var headKey := StorageSlotOfIndex(QUEUE_HEAD_STORAGE_INDEX);
    var headWord := provider.getStorageAt(queue, headKey);
    if headWord.None? {
      return Err(RpcError);
    }
    if headWord.value >= TWO_64 {
      return Err(QueueHeadExceedsU64);
    }
    var head: U64 := headWord.value;
    if cursor > head {
      return Err(CursorAheadOfQueueHead(cursor, head));
    }
    var batch := Min(head - cursor, MAX_BATCH);
    var entryKeys := EntryWordKeys(lib.keccak, cursor, batch);
    var queueKeys := [headKey] + entryKeys;
    var answer := GetProof(lib, stateRoot, chain, provider, queue, queueKeys, chunkLimit);
    if answer.Err? {
      return Err(answer.error);
    }
    var queueProof := answer.value;
    var m := WordsByKey(queueProof.storageProof);
    if honest {
      WordsAreValid(lib, chain, queue, queueKeys, queueProof.storageProof);
      assert headKey in queueKeys;
      assert ProvesWords(lib, chain, queue, m, entryKeys) by {
        assert forall key | key in entryKeys :: key in queueKeys;
      }
    }
    var entries, listed := ReadEntries(lib, chain, queue, cursor, batch, entryKeys, m);
    if entries.Err? {
      return Err(entries.error);
    }
    var targets := ReadTargets(lib, read, stateRoot, chain, provider, listed, chunkLimit);
    if targets.Err? {
      return Err(targets.error);
    }
    if headKey !in m {
      return Err(MissingStorageKey(headKey));
    }
    var qs := QueueStorage(queueProof.address, queueProof.account, queueProof.accountProof, head, m[headKey].proof,
                           cursor, entries.value, targets.value);
    if ready {
      assert ProvesWord(lib, chain, queue, m, headKey);
      AssembledWitnessAccepted(lib, read, stateRoot, chain, qs, listed);
    }
    r := Ok(qs);
  }

  lemma {:induction false} LastRootFound(targets: seq<TargetStorageProof>, x: TargetStorageProof)
    requires x in targets
    ensures LastRoot(targets, x.targetAddress).Some?
  {
    var n := |targets| - 1;
    if targets[n].targetAddress != x.targetAddress {
      assert x in targets[..n];
      LastRootFound(targets[..n], x);
    }
  }

  /** A listed slot is found by the guest's last-insert-wins lookup, with a verified value. */
  lemma {:induction false} ListedSlotFound(lib: Library, stateRoot: B256, chain: Chain,
                                           targets: seq<TargetStorageProof>, x: TargetStorageProof,
                                           s: TargetSlotProof)
    requires forall t | t in targets :: ProvenTarget(lib, stateRoot, chain, t)
    requires x in targets && s in x.slots
    ensures var slot := LastSlotOf(targets, x.targetAddress, s.key);
            && slot.Some?
            && WordVerified(lib, chain.StorageRootAt(x.targetAddress), s.key, slot.value.value, slot.value.mptProof)
  {
    var n := |targets| - 1;
    var t := targets[n];
    assert ProvenTarget(lib, stateRoot, chain, t);
    LastSlotIsMember(t.slots, s.key);
    if t.targetAddress != x.targetAddress || LastSlot(t.slots, s.key).None? {
      assert x in targets[..n];
      ListedSlotFound(lib, stateRoot, chain, targets[..n], x, s);
    }
  }

  lemma {:induction false} LastSlotIsMember(slots: seq<TargetSlotProof>, key: B256)
    ensures var r := LastSlot(slots, key);
            && (r.Some? ==> r.value in slots && r.value.key == key)
            && (r.None? ==> forall s | s in slots :: s.key != key)
  {
    if slots != [] {
      LastSlotIsMember(slots[..|slots| - 1], key);
    }
  }

  lemma AssembledWitnessAccepted(lib: Library, read: Lookup, stateRoot: B256, chain: Chain, qs: QueueStorage,
                                 listed: SlotKeys)
    requires Trusted(lib, read, stateRoot, chain)
    requires AnchorVerified(lib, stateRoot, qs) && BatchDerived(qs)
    requires EntriesVerified(lib, chain.StorageRootAt(qs.queueAddress), qs.inputCursor, qs.entries)
    requires ListsSlots(qs.entries, listed) && (forall a | a in listed :: Covers(qs.targets, a, listed[a]))
    requires forall t | t in qs.targets :: ProvenTarget(lib, stateRoot, chain, t)
    ensures Accepts(lib, stateRoot, qs)
  {
    AnchorIsPinned(lib, read, stateRoot, chain, qs);
    forall e | e in qs.entries
      ensures Resolved(lib, qs.targets, e)
    {
      var keys := listed[e.target];
      assert Covers(qs.targets, e.target, keys);
      var t :| t in qs.targets && t.targetAddress == e.target && HasKeys(t, keys);
      var i :| 0 <= i < |keys| && keys[i] == e.slotKey;
      assert t.slots[i] in t.slots;
      LastRootFound(qs.targets, t);
      ListedSlotFound(lib, stateRoot, chain, qs.targets, t, t.slots[i]);
      LastRootIsPinned(lib, read, stateRoot, chain, qs.targets, e.target);
    }
  }
}
