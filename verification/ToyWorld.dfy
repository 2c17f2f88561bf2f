/** A small world in which the hypotheses on the library, the chain, the provider and the light client all
    hold together, with an entry waiting in the queue, a window to prepare and a proof to settle: the
    theorems that assume them are not about nothing. */
module ToyWorld {
  import opened ByteCodec
  import opened RequestLeaf
  import opened ChainState
  import opened QueueVerifier
  import opened WitnessAssembler
  import opened PublishedRequests
  import opened Windows
  import opened Consensus
  import opened WindowPreparation
  import opened EndToEnd

  // ---- library, chain and provider ------------------------------------------------------------

  const QUEUE: Address := [1] + Zeros(19)
  const STATE_ROOT: B256 := Zeros(32)
  const STORAGE_ROOT: B256 := [1] + Zeros(31)
  const ACCOUNT: TrieAccount := TrieAccount(0, 0, STORAGE_ROOT, Zeros(32))
  const HEAD_KEY: B256 := StorageSlotOfIndex(QUEUE_HEAD_STORAGE_INDEX)

  /** One account, the queue, with one word stored: a head of one. All words of entry 0 are zero, so it
      names an absent target. */
  const CHAIN: Chain := Chain(map[QUEUE := ACCOUNT], map[QUEUE := map[HEAD_KEY := 1]])

  /** Injective on addresses and on storage keys; every mapping entry is at location 7. */
  function ToyKeccak(s: seq<Byte>): (h: B256) {
    if |s| == 32 then s else if |s| == 20 then s + Zeros(12) else BASE
  }

  function ToyRlpWord(w: Word): (s: seq<Byte>) {
    ToBe(w, 32)
  }

  function ToyRlpAccount(a: TrieAccount): (s: seq<Byte>) {
    ToBe(a.nonce, 8) + ToBe(a.balance, 32) + a.storageRoot + a.codeHash
  }

  function ToyRead(root: B256, key: B256): (r: Option<seq<Byte>>) {
    if root == STATE_ROOT && key == ToyKeccak(QUEUE) then Some(ToyRlpAccount(ACCOUNT))
    else if root == STORAGE_ROOT && key == ToyKeccak(HEAD_KEY) then Some(ToyRlpWord(1))
    else None
  }

  /** Proofs carry nothing: a claim is accepted when it is true. */
  function ToyVerify(root: B256, key: B256, claim: Option<seq<Byte>>, proof: TrieProof): (ok: bool) {
    ToyRead(root, key) == claim
  }

  function ToyLibrary(h: Hasher): (lib: Library) {
    Library(ToyVerify, ToyKeccak, ToyRlpWord, ToyRlpAccount, h)
  }

  /** The first attempt always fails. */
  function ToyAnswer(a: Address, keys: seq<B256>, attempt: nat): (r: Option<AccountResponse>) {
    if attempt == 0 then None
    else
      var items := seq(|keys|, i requires 0 <= i < |keys| => StorageItem(keys[i], CHAIN.WordAt(a, keys[i]), []));
      Some(AccountResponse(a, ACCOUNT, [], items))
  }

  function ToyProvider(): (p: Provider) {
    Provider(ToyAnswer, (a: Address, key: B256) => Some(CHAIN.WordAt(a, key)))
  }

  lemma ToyAccountsInjective(a: TrieAccount, b: TrieAccount)
    requires ToyRlpAccount(a) == ToyRlpAccount(b)
    ensures a == b
  {
    Pow256Widths();
    var x, y := ToyRlpAccount(a), ToyRlpAccount(b);
    assert x[..8] == ToBe(a.nonce, 8) && y[..8] == ToBe(b.nonce, 8);
    assert x[8..40] == ToBe(a.balance, 32) && y[8..40] == ToBe(b.balance, 32);
    assert x[40..72] == a.storageRoot && y[40..72] == b.storageRoot;
    assert x[72..] == a.codeHash && y[72..] == b.codeHash;
    BeRoundTrip(a.nonce, 8);
    BeRoundTrip(b.nonce, 8);
    BeRoundTrip(a.balance, 32);
    BeRoundTrip(b.balance, 32);
  }

  lemma ToyEncodingsInjective(h: Hasher)
    ensures EncodingsAreInjective(ToyLibrary(h))
  {
    var lib := ToyLibrary(h);
    forall v: Word, w: Word | lib.rlpWord(v) == lib.rlpWord(w)
      ensures v == w
    {
      Pow256Widths();
      BeRoundTrip(v, 32);
      BeRoundTrip(w, 32);
    }
    forall a: TrieAccount, b: TrieAccount | lib.rlpAccount(a) == lib.rlpAccount(b)
      ensures a == b
    {
      ToyAccountsInjective(a, b);
    }
  }

  lemma ToyRoots()
    ensures STATE_ROOT != STORAGE_ROOT && EMPTY_ROOT_HASH != STORAGE_ROOT && EMPTY_ROOT_HASH != STATE_ROOT
  {
    assert STATE_ROOT[0] == 0 && STORAGE_ROOT[0] == 1 && EMPTY_ROOT_HASH[0] == 0x56;
  }

  lemma ToyAddressesDiffer(a: Address)
    ensures ToyKeccak(a) == ToyKeccak(QUEUE) <==> a == QUEUE
  {
    assert ToyKeccak(a)[..20] == a && ToyKeccak(QUEUE)[..20] == QUEUE;
  }

  lemma ToyCommits(h: Hasher)
    ensures Commits(ToyLibrary(h), ToyRead, STATE_ROOT, CHAIN)
  {
    ToyRoots();
    var lib := ToyLibrary(h);
    forall a: Address
      ensures ToyRead(STATE_ROOT, lib.keccak(a)) == AccountClaim(lib, CHAIN.AccountAt(a))
    {
      ToyAddressesDiffer(a);
    }
    forall a: Address, key: B256
      ensures ToyRead(CHAIN.StorageRootAt(a), lib.keccak(key)) == WordClaim(lib, CHAIN.WordAt(a, key))
    {
    }
  }

  lemma ToyAnswerIsValid(h: Hasher, a: Address, keys: seq<B256>, attempt: nat)
    requires ToyAnswer(a, keys, attempt).Some?
    ensures ValidResponse(ToyLibrary(h), STATE_ROOT, CHAIN, a, keys, ToyAnswer(a, keys, attempt).value)
  {
    ToyCommits(h);
    var lib, resp := ToyLibrary(h), ToyAnswer(a, keys, attempt).value;
    assert ToyRead(STATE_ROOT, lib.keccak(a)) == AccountClaim(lib, CHAIN.AccountAt(a));
    forall i | 0 <= i < |keys|
      ensures ValidItem(lib, CHAIN, a, keys[i], resp.storageProof[i])
    {
      assert ToyRead(CHAIN.StorageRootAt(a), lib.keccak(keys[i])) == WordClaim(lib, CHAIN.WordAt(a, keys[i]));
    }
  }

  lemma ToyHonest(h: Hasher)
    ensures Honest(ToyLibrary(h), STATE_ROOT, CHAIN, ToyProvider())
  {
    var p := ToyProvider();
    forall a: Address, keys: seq<B256>
      ensures Responds(p, a, keys)
    {
      assert p.getProof(a, keys, 1).Some?;
    }
    forall a: Address, keys: seq<B256>, attempt: nat | p.getProof(a, keys, attempt).Some?
      ensures ValidResponse(ToyLibrary(h), STATE_ROOT, CHAIN, a, keys, p.getProof(a, keys, attempt).value)
    {
      ToyAnswerIsValid(h, a, keys, attempt);
    }
  }

  // ---- an accepted witness --------------------------------------------------------------------

  const NOBODY: Address := Zeros(20)
  const NOWHERE: B256 := Zeros(32)
  const ENTRY: QueueEntryProof := QueueEntryProof(NOBODY, NOWHERE, 0, NOWHERE, NOWHERE, [[], [], [], [], []])

  function Slots(values: seq<Word>): (slots: seq<TargetSlotProof>) {
    seq(|values|, i requires 0 <= i < |values| => TargetSlotProof(NOWHERE, values[i], []))
  }

  /** A witness for entry 0 that lists its target's slot once for every given value. */
  function Claiming(values: seq<Word>): (qs: QueueStorage) {
    QueueStorage(QUEUE, ACCOUNT, [], 1, [], 0, [ENTRY], [TargetStorageProof(NOBODY, None, [], Slots(values))])
  }

  lemma {:induction false} ZerosAreZero(n: nat)
    ensures BeNat(Zeros(n)) == 0
  {
    if n > 0 {
      assert Zeros(n)[..n - 1] == Zeros(n - 1);
      ZerosAreZero(n - 1);
    }
  }

  const BASE: B256 := Zeros(31) + [7]

  lemma BaseIsSeven()
    ensures BeNat(BASE) == 7
  {
    assert BASE[..31] == Zeros(31);
    ZerosAreZero(31);
  }

  lemma ToyEntryKey(j: nat)
    requires j < QUEUE_ENTRY_WORDS
    ensures EntryKey(ToyKeccak, 0, j) != HEAD_KEY
  {
    BaseIsSeven();
    assert MappingEntryLocation(ToyKeccak, 0, QUEUE_REQUESTS_STORAGE_INDEX) == BASE;
    assert EntryKey(ToyKeccak, 0, j)[31] == 7 + j && HEAD_KEY[31] == 0;
  }

  lemma ToyEntryIsZero(j: nat)
    requires j < QUEUE_ENTRY_WORDS
    ensures EntryValue(ENTRY, j) == 0
  {
    ZerosAreZero(20);
    ZerosAreZero(32);
  }

  lemma ToyUnsetWord(h: Hasher, key: B256)
    requires key != HEAD_KEY
    ensures WordVerified(ToyLibrary(h), STORAGE_ROOT, key, 0, [])
  {
    ToyRoots();
  }

  lemma ToyEntryVerifies(h: Hasher)
    ensures EntryVerified(ToyLibrary(h), STORAGE_ROOT, 0, ENTRY)
  {
    forall j | 0 <= j < QUEUE_ENTRY_WORDS
      ensures EntryWordVerified(ToyLibrary(h), STORAGE_ROOT, 0, ENTRY, j)
    {
      ToyEntryKey(j);
      ToyEntryIsZero(j);
      ToyUnsetWord(h, EntryKey(ToyKeccak, 0, j));
    }
  }

  lemma LastValueCounts(values: seq<Word>)
    requires values != []
    ensures LastSlotOf(Claiming(values).targets, NOBODY, NOWHERE)
         == Some(TargetSlotProof(NOWHERE, values[|values| - 1], []))
  {
    var slots := Slots(values);
    assert slots[|slots| - 1] == TargetSlotProof(NOWHERE, values[|values| - 1], []);
  }

  /** The guest accepts a witness whose last listed value is the true one, zero, whatever it lists before. */
  lemma ToyAccepts(h: Hasher, values: seq<Word>)
    requires values != [] && values[|values| - 1] == 0
    ensures Accepts(ToyLibrary(h), STATE_ROOT, Claiming(values))
  {
    ToyRoots();
    ToyAddressesDiffer(NOBODY);
    ToyEntryVerifies(h);
    LastValueCounts(values);
    assert NOBODY[0] == 0 && QUEUE[0] == 1;
    assert Resolved(ToyLibrary(h), Claiming(values).targets, ENTRY);
  }

  function RequestFor(value: Word): (r: Request) {
    Request(NOBODY, 0, NOWHERE, NOWHERE, value)
  }

  lemma FirstValueIsPublished(values: seq<Word>)
    requires values != []
    ensures VerifiedRequests(Claiming(values)) == [RequestFor(values[0])]
  {
    var targets := Claiming(values).targets;
    assert FirstTarget(targets, NOBODY) == Some(targets[0]);
    assert FirstSlot(targets[0].slots, NOWHERE) == Some(Slots(values)[0]);
  }

  lemma LastValueIsCommitted(values: seq<Word>)
    requires values != []
    ensures RequestsOf(Claiming(values)) == [RequestFor(values[|values| - 1])]
  {
    LastValueCounts(values);
  }

  /** Without distinct slot keys an accepted witness can be published wrongly: of a slot listed several
      times the guest checks and commits the last value, here the true one, and the list published beside
      the proof says the first. It is right exactly when the first is the true value too. */
  lemma AcceptedButPublishedWrongly(h: Hasher, values: seq<Word>)
    requires values != [] && values[|values| - 1] == 0
    ensures Accepts(ToyLibrary(h), STATE_ROOT, Claiming(values))
    ensures VerifiedRequests(Claiming(values)) == RequestsOf(Claiming(values)) <==> values[0] == 0
  {
    ToyAccepts(h, values);
    FirstValueIsPublished(values);
    LastValueIsCommitted(values);
    assert RequestFor(values[0]).value == values[0];
  }

  // ---- a light client and a settled proof -----------------------------------------------------

  function HeaderAt(slot: U64): (header: Header) {
    Header(slot, Some(ExecutionHeader(STATE_ROOT, 1)), [])
  }

  const COMMITTEE: SyncCommittee := SyncCommittee([])
  const NEXT_COMMITTEE: SyncCommittee := SyncCommittee([1])
  const STORE: Store := Store(HeaderAt(32), COMMITTEE, Some(NEXT_COMMITTEE), [])
  const NETWORK: Network := Network(Zeros(32), [])

  function ToyApply(s: Store, u: ()): (t: Store) {
    if s.finalizedHeader.slot <= 64 then s.(finalizedHeader := HeaderAt(64)) else s
  }

  /** Two headers and two committees can be encoded; an update moves an older header to slot 64. */
  function ToyClient(): (lc: LightClient<(), ()>) {
    LightClient(
      (u: (), slot: U64, s: Store, n: Network) => true, ToyApply,
      (f: (), slot: U64, s: Store, n: Network) => true, ToyApply,
      (c: SyncCommittee) => if c == NEXT_COMMITTEE then STORAGE_ROOT else Zeros(32),
      (x: Header) => if x == HeaderAt(32) then Some([1]) else if x == HeaderAt(64) then Some([2]) else None,
      (c: SyncCommittee) => if c == COMMITTEE then Some([3]) else if c == NEXT_COMMITTEE then Some([4]) else None,
      (bytes: seq<Byte>) => Zeros(32))
  }

  lemma ToyClientHypotheses()
    ensures SelfDelimiting(ToyClient()) && OnlyNewerHeaders(ToyClient())
  {
    var lc := ToyClient();
    forall a, b, x: seq<Byte>, y: seq<Byte> | DelimitedHeader(lc, a, x, b, y)
      ensures a == b
    {
      assert lc.encodeHeader(a).value[0] == (lc.encodeHeader(a).value + x)[0];
      assert lc.encodeHeader(b).value[0] == (lc.encodeHeader(b).value + y)[0];
    }
    forall a, b, x: seq<Byte>, y: seq<Byte> | DelimitedCommittee(lc, a, x, b, y)
      ensures a == b
    {
      assert lc.encodeCommittee(a).value[0] == (lc.encodeCommittee(a).value + x)[0];
      assert lc.encodeCommittee(b).value[0] == (lc.encodeCommittee(b).value + y)[0];
    }
  }

  const FETCHED: Fetched<(), ()> := Fetched([], (), 0, STORE, NETWORK)
  const PROOF: GuestInputs<(), ()> := GuestInputs(InputsOf(FETCHED, Zeros(32)), Claiming([0]))

  lemma ToyDryRun()
    ensures DryRunAccepts(ToyClient(), InputsOf(FETCHED, Zeros(32)))
    ensures DryRunOutputs(ToyClient(), InputsOf(FETCHED, Zeros(32)))
         == ConsensusOutputs(32, Zeros(32), 64, Zeros(32), STATE_ROOT, STORAGE_ROOT, 1)
  {
    var lc, inputs := ToyClient(), InputsOf(FETCHED, Zeros(32));
    assert ApplyFrom(lc, inputs, STORE, 0) == Ok(STORE);
    assert FinalStore(lc, inputs) == Ok(STORE.(finalizedHeader := HeaderAt(64)));
  }

  lemma ToyTrusted(h: Hasher)
    ensures Trusted(ToyLibrary(h), ToyRead, STATE_ROOT, CHAIN)
    ensures Honest(ToyLibrary(h), STATE_ROOT, CHAIN, ToyProvider())
  {
    ToyEncodingsInjective(h);
    ToyCommits(h);
    ToyHonest(h);
  }

  lemma ToyGuestAccepts(h: Hasher)
    ensures GuestAccepts(ToyClient(), ToyLibrary(h), PROOF)
  {
    ToyDryRun();
    ToyAccepts(h, [0]);
  }

  /** Every hypothesis of the theorems holds here at once. Library, chain and provider are as assumed, at
      the block the light client's dry run finds, with an entry to settle. */
  lemma HypothesesAreSatisfiable(h: Hasher)
    ensures TrustedBlock(ToyClient(), ToyLibrary(h), ToyRead, CHAIN, ToyProvider(), PROOF.consensus)
    ensures SelfDelimiting(ToyClient()) && OnlyNewerHeaders(ToyClient())
    ensures ReadyQueue(ToyLibrary(h), CHAIN, QUEUE, 0) && HeadWord(ToyLibrary(h), CHAIN, QUEUE) == 1
  {
    ToyTrusted(h);
    ToyClientHypotheses();
    ToyDryRun();
    ToyAccepts(h, [0]);
    AcceptedQueueIsReady(ToyLibrary(h), ToyRead, STATE_ROOT, CHAIN, Claiming([0]));
  }

  /** A window from slot 32 can be prepared here, with validation. */
  lemma ToyWindowIsPreparable(h: Hasher)
    ensures DryRunAccepts(ToyClient(), InputsOf(FETCHED, Zeros(32)))
    ensures Preparable(ToyClient(), ToyLibrary(h), CHAIN, QUEUE, Start(32, Zeros(32), 0), true, FETCHED, _ => true)
  {
    ToyDryRun();
    HypothesesAreSatisfiable(h);
    assert STORAGE_ROOT[0] == 1 && Zeros(32)[0] == 0;
  }

  lemma ToyOutputs(h: Hasher)
    ensures GuestAccepts(ToyClient(), ToyLibrary(h), PROOF)
    ensures var o := GuestOutputs(ToyClient(), ToyLibrary(h), PROOF);
            && o.executionStateRoot == STATE_ROOT && o.proofRequestQueueAddress == QUEUE
            && o.inputQueueCursor == 0 && o.outputQueueCursor == 1
  {
    ToyGuestAccepts(h);
    ToyDryRun();
  }

  lemma OneProofSettles<U, F>(lc: LightClient<U, F>, lib: Library, read: Lookup, queue: Address, p: GuestInputs<U, F>,
                              chain: Chain)
    requires GuestAccepts(lc, lib, p) && Trusted(lib, read, GuestOutputs(lc, lib, p).executionStateRoot, chain)
    requires GuestOutputs(lc, lib, p).proofRequestQueueAddress == queue
    ensures SettledChain(lc, lib, read, queue, [p], [chain])
  {
  }

  /** The proof of that window is a settled chain, and moves the cursor past the entry. */
  lemma ToyProofSettles(h: Hasher)
    ensures GuestAccepts(ToyClient(), ToyLibrary(h), PROOF)
    ensures GuestOutputs(ToyClient(), ToyLibrary(h), PROOF).outputQueueCursor == 1
    ensures SettledChain(ToyClient(), ToyLibrary(h), ToyRead, QUEUE, [PROOF], [CHAIN])
  {
    ToyOutputs(h);
    ToyTrusted(h);
    OneProofSettles(ToyClient(), ToyLibrary(h), ToyRead, QUEUE, PROOF, CHAIN);
  }
}
