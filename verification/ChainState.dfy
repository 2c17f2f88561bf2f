/** Storage layout of the request queue, the chain state it is read from, and the library functions
    the guest relies on, taken as parameters with their hypotheses stated. */
module ChainState {
  import opened ByteCodec
  import opened RequestLeaf

  // ---- storage layout -------------------------------------------------------------------------

  const QUEUE_HEAD_STORAGE_INDEX: Byte := 0
  const QUEUE_REQUESTS_STORAGE_INDEX: Byte := 1
  const QUEUE_ENTRY_WORDS: nat := 5

  type Keccak = seq<Byte> -> B256

  function StorageSlotOfIndex(index: Byte): (slot: B256) {
    ToBe(index, 32)
  }

  /** Solidity's rule for a mapping entry: the hash of the 32-byte key followed by the 32-byte slot
      index of the mapping. */
  function MappingEntryLocation(keccak: Keccak, key: Word, mappingSlotIndex: Byte): (slot: B256) {
    keccak(ToBe(key, 32) + ToBe(mappingSlotIndex, 32))
  }

  /** Word `wordIndex` of the struct at `base`, wrapping at 2^256. */
  function StructWordSlot(base: B256, wordIndex: Byte): (slot: B256) {
    ToBe((BeNat(base) + wordIndex) % TWO_256, 32)
  }

  function WordOfAddress(a: Address): (w: Word)
    ensures w < TWO_160
  {
    BeNatBound(a);
    Pow256Widths();
    BeNat(a)
  }

  function WordOfB256(b: B256): (w: Word) {
    BeNatBound(b);
    Pow256Widths();
    BeNat(b)
  }

  /** Last 20 bytes of a word, as the host reads an address. */
  function AddressOfWord(w: Word): (a: Address) {
    ToBe(w, 32)[12..32]
  }

  lemma AddressWordRoundTrip(a: Address)
    ensures AddressOfWord(WordOfAddress(a)) == a
  {
    BeSuffix(WordOfAddress(a), 20, 12);
    BeRoundTripBytes(a);
  }

  /** The converse holds exactly for right-aligned words: truncation loses the rest. */
  lemma WordAddressRoundTrip(w: Word)
    ensures WordOfAddress(AddressOfWord(w)) == w <==> w < TWO_160
  {
    if w < TWO_160 {
      BeSuffix(w, 20, 12);
      assert AddressOfWord(w) == ToBe(w, 12 + 20)[12..];
      Pow256Widths();
      BeRoundTrip(w, 20);
    }
  }

  lemma B256WordRoundTrip(b: B256)
    ensures ToBe(WordOfB256(b), 32) == b
  {
    BeRoundTripBytes(b);
  }

  lemma WordB256RoundTrip(w: Word)
    ensures WordOfB256(ToBe(w, 32)) == w
  {
    Pow256Widths();
    BeRoundTrip(w, 32);
  }

  /** Storage key of word `j` of queue entry `index`. The first word sits at the base itself. */
  function EntryKey(keccak: Keccak, index: U64, j: nat): (slot: B256)
    requires j < QUEUE_ENTRY_WORDS
  {
    var base := MappingEntryLocation(keccak, index, QUEUE_REQUESTS_STORAGE_INDEX);
    if j == 0 then base else StructWordSlot(base, j)
  }

  lemma WrappingAddsDiffer(b: Word, j: nat, k: nat)
    requires j < k < 256
    ensures (b + j) % TWO_256 != (b + k) % TWO_256
  {
  }

  lemma StructWordSlotOffset(base: B256, wordIndex: Byte)
    ensures WordOfB256(StructWordSlot(base, wordIndex)) == (WordOfB256(base) + wordIndex) % TWO_256
  {
    WordB256RoundTrip((WordOfB256(base) + wordIndex) % TWO_256);
  }

  /** The words of a struct are at different locations, even where the addition wraps. */
  lemma StructWordSlotsDiffer(base: B256, j: Byte, k: Byte)
    requires j < k
    ensures StructWordSlot(base, j) != StructWordSlot(base, k)
  {
    var x, y := StructWordSlot(base, j), StructWordSlot(base, k);
    assert WordOfB256(x) != WordOfB256(y) by {
      StructWordSlotOffset(base, j);
      StructWordSlotOffset(base, k);
      WrappingAddsDiffer(WordOfB256(base), j, k);
    }
  }

  /** The location of a struct's word, as a number. */
  lemma WordOffset(base: B256, j: Byte, slot: B256)
    requires slot == if j == 0 then base else StructWordSlot(base, j)
    ensures WordOfB256(slot) == (WordOfB256(base) + j) % TWO_256
  {
    if j > 0 {
      StructWordSlotOffset(base, j);
    }
  }

  /** The string hashed into an entry's base. */
  function EntryPreimage(index: U64): (x: seq<Byte>)
    ensures |x| == 64
  {
    ToBe(index, 32) + ToBe(QUEUE_REQUESTS_STORAGE_INDEX, 32)
  }

  lemma EntryPreimagesDiffer(i: U64, k: U64)
    requires i != k
    ensures EntryPreimage(i) != EntryPreimage(k)
  {
    WordB256RoundTrip(i);
    WordB256RoundTrip(k);
    assert EntryPreimage(i)[..32] == ToBe(i, 32) && EntryPreimage(k)[..32] == ToBe(k, 32);
  }

  /** Word `j` of one entry and word `m` of another share a location exactly when the keccak hashes of the
      two entries' preimages, which differ, are `m - j` apart modulo 2^256. */
  lemma EntryWordsMeet(keccak: Keccak, i: U64, j: nat, k: U64, m: nat)
    requires i != k && j < QUEUE_ENTRY_WORDS && m < QUEUE_ENTRY_WORDS
    ensures EntryPreimage(i) != EntryPreimage(k)
    ensures EntryKey(keccak, i, j) == EntryKey(keccak, k, m)
       <==> (WordOfB256(keccak(EntryPreimage(i))) + j) % TWO_256 == (WordOfB256(keccak(EntryPreimage(k))) + m) % TWO_256
  {
    EntryPreimagesDiffer(i, k);
    var x, y := EntryKey(keccak, i, j), EntryKey(keccak, k, m);
    WordOffset(keccak(EntryPreimage(i)), j, x);
    WordOffset(keccak(EntryPreimage(k)), m, y);
    B256WordRoundTrip(x);
    B256WordRoundTrip(y);
  }

  /** A slot index names the slot of that number. */
  lemma SlotOfIndex(index: Byte)
    ensures WordOfB256(StorageSlotOfIndex(index)) == index
  {
    WordB256RoundTrip(index);
  }

  lemma BeOfOne(width: nat)
    requires width > 0
    ensures ToBe(1, width) == Zeros(width - 1) + [1]
  {
    BeOfZero(width - 1);
  }

  // ---- library functions ----------------------------------------------------------------------

  /** Root hash of the empty trie. */
  const EMPTY_ROOT_HASH: B256 :=
    [ 0x56, 0xe8, 0x1f, 0x17, 0x1b, 0xcc, 0x55, 0xa6, 0xff, 0x83, 0x45, 0xe6, 0x92, 0xc0, 0xf8, 0x6e,
      0x5b, 0x48, 0xe0, 0x1b, 0x99, 0x6c, 0xad, 0xc0, 0x01, 0x62, 0x2f, 0xb5, 0xe3, 0x63, 0xb4, 0x21 ]

  datatype TrieAccount = TrieAccount(nonce: U64, balance: Word, storageRoot: B256, codeHash: B256)

  type TrieProof = seq<seq<Byte>>

  datatype Library = Library(
    verifyProof: (B256, B256, Option<seq<Byte>>, TrieProof) -> bool,
    keccak: Keccak,
    rlpWord: Word -> seq<Byte>,
    rlpAccount: TrieAccount -> seq<Byte>,
    poseidon: Hasher)

  /** What a trie with a given root holds at a hashed key. */
  type Lookup = (B256, B256) -> Option<seq<Byte>>

  /** Hypothesis on `verify_proof`: an accepted claim, of presence or of absence, is the true one. */
  ghost predicate AcceptanceIsTrueLookup(lib: Library, read: Lookup) {
    forall root, key, claim, proof | lib.verifyProof(root, key, claim, proof) :: read(root, key) == claim
  }

  /** Hypothesis on the RLP encoders. */
  ghost predicate EncodingsAreInjective(lib: Library) {
    && (forall v: Word, w: Word | lib.rlpWord(v) == lib.rlpWord(w) :: v == w)
    && (forall a: TrieAccount, b: TrieAccount | lib.rlpAccount(a) == lib.rlpAccount(b) :: a == b)
  }

  // ---- chain state ----------------------------------------------------------------------------

  /** Accounts and storage at one block. A word that is not stored reads as zero. */
  datatype Chain = Chain(accounts: map<Address, TrieAccount>, storage: map<Address, map<B256, Word>>)
  {
    function AccountAt(a: Address): (r: Option<TrieAccount>) {
      if a in accounts then Some(accounts[a]) else None
    }

    function StorageRootAt(a: Address): (r: B256) {
      if a in accounts then accounts[a].storageRoot else EMPTY_ROOT_HASH
    }

    function WordAt(a: Address, key: B256): (w: Word) {
      if a in accounts && a in storage && key in storage[a] then storage[a][key] else 0
    }
  }

  /** A word claim: zero is claimed as absence, anything else as presence of its encoding. */
  function WordClaim(lib: Library, w: Word): (c: Option<seq<Byte>>) {
    if w == 0 then None else Some(lib.rlpWord(w))
  }

  function AccountClaim(lib: Library, a: Option<TrieAccount>): (c: Option<seq<Byte>>) {
    match a
    case None => None
    case Some(account) => Some(lib.rlpAccount(account))
  }

  /** `stateRoot` commits to `chain`: its trie holds the accounts, and each account's storage root
      (the empty root for an absent account) holds that account's non-zero words. */
  ghost predicate Commits(lib: Library, read: Lookup, stateRoot: B256, chain: Chain) {
    && (forall a: Address {:trigger read(stateRoot, lib.keccak(a))} ::
          read(stateRoot, lib.keccak(a)) == AccountClaim(lib, chain.AccountAt(a)))
    && (forall a: Address, key: B256 {:trigger read(chain.StorageRootAt(a), lib.keccak(key))} ::
          read(chain.StorageRootAt(a), lib.keccak(key)) == WordClaim(lib, chain.WordAt(a, key)))
  }

  /** The hypotheses together: what is accepted is true, of this chain. */
  ghost predicate Trusted(lib: Library, read: Lookup, stateRoot: B256, chain: Chain) {
    && AcceptanceIsTrueLookup(lib, read)
    && EncodingsAreInjective(lib)
    && Commits(lib, read, stateRoot, chain)
  }

  // ---- the queue, read from chain state alone -------------------------------------------------

  function HeadWord(lib: Library, chain: Chain, queue: Address): (w: Word) {
    chain.WordAt(queue, StorageSlotOfIndex(QUEUE_HEAD_STORAGE_INDEX))
  }

  function EntryWord(lib: Library, chain: Chain, queue: Address, index: U64, j: nat): (w: Word)
    requires j < QUEUE_ENTRY_WORDS
  {
    chain.WordAt(queue, EntryKey(lib.keccak, index, j))
  }

  /** The words at an entry's location are ones the queue contract writes: a right-aligned address
      and a one-byte key count. */
  predicate WellFormedEntry(lib: Library, chain: Chain, queue: Address, index: U64) {
    && EntryWord(lib, chain, queue, index, 0) < TWO_160
    && EntryWord(lib, chain, queue, index, 2) < 256
  }

  /** The request five entry words spell, with the value its target holds at this block. */
  function DecodeRequest(chain: Chain, w0: Word, w1: Word, w2: Word, w3: Word, w4: Word): (r: Request) {
    Request(AddressOfWord(w0), w2 % 256, ToBe(w3, 32), ToBe(w4, 32), chain.WordAt(AddressOfWord(w0), ToBe(w1, 32)))
  }

  /** The request a queue entry stands for. */
  function RequestAt(lib: Library, chain: Chain, queue: Address, index: U64): (r: Request) {
    DecodeRequest(chain,
      EntryWord(lib, chain, queue, index, 0), EntryWord(lib, chain, queue, index, 1),
      EntryWord(lib, chain, queue, index, 2), EntryWord(lib, chain, queue, index, 3),
      EntryWord(lib, chain, queue, index, 4))
  }

  /** The requests of indices `from` up to, but not including, `end`. */
  function RequestsBetween(lib: Library, chain: Chain, queue: Address, from: U64, end: U64): (rs: seq<Request>)
    requires from <= end
    ensures |rs| == end - from
  {
    seq(end - from, i requires 0 <= i < end - from => RequestAt(lib, chain, queue, from + i))
  }

  lemma RequestsBetweenAt(lib: Library, chain: Chain, queue: Address, from: U64, end: U64, i: U64)
    requires from <= i < end
    ensures RequestsBetween(lib, chain, queue, from, end)[i - from] == RequestAt(lib, chain, queue, i)
  {
    assert from + (i - from) == i;
  }

  lemma RequestsBetweenIs(lib: Library, chain: Chain, queue: Address, from: U64, end: U64, rs: seq<Request>)
    requires from <= end && |rs| == end - from
    requires forall i | 0 <= i < |rs| :: rs[i] == RequestAt(lib, chain, queue, from + i)
    ensures rs == RequestsBetween(lib, chain, queue, from, end)
  {
  }

  // ---- the layout, spelled out ----------------------------------------------------------------

  /** The head is the word in slot 0. */
  lemma HeadIsSlotZero(lib: Library, chain: Chain, queue: Address)
    ensures HeadWord(lib, chain, queue) == chain.WordAt(queue, Zeros(32))
  {
    BeOfZero(32);
  }

  /** Where the mapping in slot 1 puts the entry of an index. */
  function EntryBase(keccak: Keccak, index: U64): (base: B256) {
    keccak(ToBe(index, 32) + (Zeros(31) + [1]))
  }

  /** An entry starts where the mapping in slot 1 puts its index, and its words follow, wrapping at 2^256. */
  lemma EntryIsInSlotOne(keccak: Keccak, index: U64, j: nat)
    requires j < QUEUE_ENTRY_WORDS
    ensures EntryKey(keccak, index, 0) == EntryBase(keccak, index)
    ensures WordOfB256(EntryKey(keccak, index, j)) == (WordOfB256(EntryBase(keccak, index)) + j) % TWO_256
  {
    BeOfOne(32);
    WordOffset(EntryBase(keccak, index), j, EntryKey(keccak, index, j));
  }

  /** The word `j` places after a location. */
  function WordAfter(chain: Chain, queue: Address, base: B256, j: nat): (w: Word) {
    chain.WordAt(queue, ToBe((WordOfB256(base) + j) % TWO_256, 32))
  }

  lemma EntryWordIs(lib: Library, chain: Chain, queue: Address, index: U64, j: nat)
    requires j < QUEUE_ENTRY_WORDS
    ensures EntryWord(lib, chain, queue, index, j) == WordAfter(chain, queue, EntryBase(lib.keccak, index), j)
  {
    EntryIsInSlotOne(lib.keccak, index, j);
    B256WordRoundTrip(EntryKey(lib.keccak, index, j));
  }

  /** A request is spelled by the five words from the entry's base on: target, slot key, key count and the
      two keys, in this order; its value is what the target holds in that slot. */
  lemma RequestIsSpelled(lib: Library, chain: Chain, queue: Address, index: U64)
    ensures var base, r := EntryBase(lib.keccak, index), RequestAt(lib, chain, queue, index);
            && r.target == ToBe(WordAfter(chain, queue, base, 0), 32)[12..]
            && r.value == chain.WordAt(r.target, ToBe(WordAfter(chain, queue, base, 1), 32))
            && r.keysCount == WordAfter(chain, queue, base, 2) % 256
            && r.key0 == ToBe(WordAfter(chain, queue, base, 3), 32)
            && r.key1 == ToBe(WordAfter(chain, queue, base, 4), 32)
  {
    EntryWordIs(lib, chain, queue, index, 0);
    EntryWordIs(lib, chain, queue, index, 1);
    EntryWordIs(lib, chain, queue, index, 2);
    EntryWordIs(lib, chain, queue, index, 3);
    EntryWordIs(lib, chain, queue, index, 4);
  }
}
