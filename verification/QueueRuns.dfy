/** Chained updates over an append-only queue: which entries each update settles, and when. */
module QueueRuns {
  import opened ByteCodec
  import opened RequestLeaf
  import opened MerkleTree
  import opened ChainState
  import opened QueueVerifier

  /** One accepted update: the chain it was proven against and the witness. */
  datatype Update = Update(stateRoot: B256, chain: Chain, storage: QueueStorage)
  {
    function From(): nat {
      storage.inputCursor
    }

    function To(): nat {
      storage.inputCursor + |storage.entries|
    }

    predicate Settles(i: nat) {
      From() <= i < To()
    }
  }

  /** The later chain extends the earlier queue: its head is no lower, and entries below the earlier
      head keep their words. Target storage may change freely. */
  ghost predicate Extends(lib: Library, queue: Address, earlier: Chain, later: Chain) {
    && HeadWord(lib, earlier, queue) <= HeadWord(lib, later, queue)
    && forall i: U64, j: nat | i < HeadWord(lib, earlier, queue) && j < QUEUE_ENTRY_WORDS ::
         EntryWord(lib, later, queue, i, j) == EntryWord(lib, earlier, queue, i, j)
  }

  /** The destination chain accepts an update only from the cursor it settled at. */
  ghost predicate Run(lib: Library, read: Lookup, queue: Address, us: seq<Update>) {
    && (forall k | 0 <= k < |us| ::
          && Trusted(lib, read, us[k].stateRoot, us[k].chain)
          && Accepts(lib, us[k].stateRoot, us[k].storage)
          && us[k].storage.queueAddress == queue)
    && (forall k | 0 < k < |us| :: us[k].From() == us[k - 1].To())
    && (forall k | 0 < k < |us| :: Extends(lib, queue, us[k - 1].chain, us[k].chain))
  }

  /** One update moves the cursor to the lesser of the head and a full batch on. */
  lemma UpdateBounds(lib: Library, read: Lookup, queue: Address, us: seq<Update>, k: nat)
    requires Run(lib, read, queue, us) && k < |us|
    ensures us[k].From() <= us[k].To() == Min(HeadWord(lib, us[k].chain, queue), us[k].From() + MAX_BATCH)
  {
    AcceptedWitnessIsChainState(lib, read, us[k].stateRoot, us[k].chain, us[k].storage);
  }

  lemma {:induction false} CursorsAreOrdered(lib: Library, read: Lookup, queue: Address, us: seq<Update>, j: nat,
                                             k: nat)
    requires Run(lib, read, queue, us) && j < k < |us|
    ensures us[j].To() <= us[k].From()
    decreases k
  {
    if j + 1 < k {
      CursorsAreOrdered(lib, read, queue, us, j, k - 1);
      UpdateBounds(lib, read, queue, us, k - 1);
    }
  }

  /** Ranges are disjoint: no entry is settled by two updates. */
  lemma SettledAtMostOnce(lib: Library, read: Lookup, queue: Address, us: seq<Update>, j: nat, k: nat, i: nat)
    requires Run(lib, read, queue, us) && j < |us| && k < |us|
    requires us[j].Settles(i) && us[k].Settles(i)
    ensures j == k
  {
    if j < k {
      CursorsAreOrdered(lib, read, queue, us, j, k);
    } else if k < j {
      CursorsAreOrdered(lib, read, queue, us, k, j);
    }
  }

  /** Ranges leave no gap: every index between the first and the last cursor is settled. */
  lemma {:induction false} SettledAtLeastOnce(lib: Library, read: Lookup, queue: Address, us: seq<Update>, i: nat)
    returns (k: nat)
    requires Run(lib, read, queue, us) && us != []
    requires us[0].From() <= i < us[|us| - 1].To()
    ensures k < |us| && us[k].Settles(i)
  {
    var n := |us| - 1;
    if us[n].From() <= i {
      k := n;
    } else {
      k := SettledAtLeastOnce(lib, read, queue, us[..n], i);
    }
  }

  lemma {:induction false} HeadsGrow(lib: Library, read: Lookup, queue: Address, us: seq<Update>, k: nat)
    requires Run(lib, read, queue, us) && k < |us|
    ensures HeadWord(lib, us[0].chain, queue) <= HeadWord(lib, us[k].chain, queue)
  {
    if k > 0 {
      HeadsGrow(lib, read, queue, us, k - 1);
      assert Extends(lib, queue, us[k - 1].chain, us[k].chain);
    }
  }

  /** While an entry enqueued before the run is unsettled, every update drains a full batch. */
  lemma {:induction false} FullBatches(lib: Library, read: Lookup, queue: Address, us: seq<Update>, i: nat, k: nat)
    requires Run(lib, read, queue, us) && k < |us|
    requires us[0].From() <= i < HeadWord(lib, us[0].chain, queue)
    ensures us[k].To() > i || us[k].To() == us[0].From() + (k + 1) * MAX_BATCH
  {
    UpdateBounds(lib, read, queue, us, k);
    HeadsGrow(lib, read, queue, us, k);
    if k > 0 {
      FullBatches(lib, read, queue, us, i, k - 1);
      assert us[k].From() == us[k - 1].To();
    }
  }

  /** The deadline. An entry already below the proven head when the run starts at cursor `c` is settled
      within floor((i - c) / MAX_BATCH) + 1 updates. */
  lemma SettledByDeadline(lib: Library, read: Lookup, queue: Address, us: seq<Update>, i: nat) returns (k: nat)
    requires Run(lib, read, queue, us) && us != []
    requires us[0].From() <= i < HeadWord(lib, us[0].chain, queue)
    requires |us| >= (i - us[0].From()) / MAX_BATCH + 1
    ensures k < |us| && us[k].Settles(i) && k <= (i - us[0].From()) / MAX_BATCH
  {
    var last := (i - us[0].From()) / MAX_BATCH;
    FullBatches(lib, read, queue, us, i, last);
    k := SettledAtLeastOnce(lib, read, queue, us[..last + 1], i);
  }

  lemma {:induction false} EntryUnchanged(lib: Library, read: Lookup, queue: Address, us: seq<Update>, i: U64, k: nat)
    requires Run(lib, read, queue, us) && k < |us|
    requires i < HeadWord(lib, us[0].chain, queue)
    ensures forall j: nat | j < QUEUE_ENTRY_WORDS ::
              EntryWord(lib, us[k].chain, queue, i, j) == EntryWord(lib, us[0].chain, queue, i, j)
  {
    if k > 0 {
      EntryUnchanged(lib, read, queue, us, i, k - 1);
      HeadsGrow(lib, read, queue, us, k - 1);
      assert Extends(lib, queue, us[k - 1].chain, us[k].chain);
    }
  }

  /** Request `r` is leaf `i - from` of the tree over indices `from` up to `to` with this root: along a
      path as long as that tree is deep, its leaf climbs to the root. */
  predicate IsLeaf(h: Hasher, r: Request, from: nat, to: nat, root: B256, i: nat, path: seq<Fp>)
    requires from <= i < to
  {
    && |path| == ComputeDepthAndSize(to - from).depth
    && FieldToBytes(Climb(h, LeafOf(h, r), i - from, path)) == root
  }

  lemma LeafUnderRoot(h: Hasher, leaves: seq<Fp>, k: nat) returns (path: seq<Fp>)
    requires k < |leaves|
    ensures |path| == ComputeDepthAndSize(|leaves|).depth
    ensures Climb(h, leaves[k], k, path) == ReferenceRoot(h, leaves)
  {
    path := SiblingPath(h, leaves, ComputeDepthAndSize(|leaves|).depth, k);
    LeafClimbsToReference(h, leaves, k);
  }

  lemma LeafOfRequestAt(h: Hasher, rs: seq<Request>, k: nat)
    requires k < |rs|
    ensures |Leaves(h, rs)| == |rs| && Leaves(h, rs)[k] == LeafOf(h, rs[k])
  {
  }

  /** Every request of a list is a leaf of the list's committed root. */
  lemma RequestIsLeaf(h: Hasher, rs: seq<Request>, r: Request, from: nat, to: nat, i: nat) returns (path: seq<Fp>)
    requires from <= i < to == from + |rs| && r == rs[i - from]
    ensures IsLeaf(h, r, from, to, RootBytes(h, rs), i, path)
  {
    LeafOfRequestAt(h, rs, i - from);
    path := LeafUnderRoot(h, Leaves(h, rs), i - from);
  }

  /** A settled entry's request is the one at its index less the update's input cursor. */
  lemma SettledPosition(lib: Library, read: Lookup, queue: Address, us: seq<Update>, k: nat, i: U64)
    requires Run(lib, read, queue, us) && k < |us| && us[k].Settles(i)
    ensures RequestsOf(us[k].storage)[i - us[k].From()] == RequestAt(lib, us[k].chain, queue, i)
  {
    var u := us[k];
    AcceptedWitnessIsChainState(lib, read, u.stateRoot, u.chain, u.storage);
    RequestsBetweenAt(lib, u.chain, queue, u.storage.inputCursor, u.To(), i);
  }

  /** The update commits entry `i` of its chain. */
  predicate CommitsEntry(lib: Library, queue: Address, u: Update, i: U64, path: seq<Fp>)
    requires u.Settles(i)
  {
    IsLeaf(lib.poseidon, RequestAt(lib, u.chain, queue, i), u.From(), u.To(),
           RootBytes(lib.poseidon, RequestsOf(u.storage)), i, path)
  }

  lemma PositionedLeaf(lib: Library, queue: Address, u: Update, i: U64) returns (path: seq<Fp>)
    requires u.Settles(i) && RequestsOf(u.storage)[i - u.From()] == RequestAt(lib, u.chain, queue, i)
    ensures CommitsEntry(lib, queue, u, i, path)
  {
    var rs, r := RequestsOf(u.storage), RequestAt(lib, u.chain, queue, i);
    path := RequestIsLeaf(lib.poseidon, rs, r, u.From(), u.To(), i);
  }

  lemma SettledPath(lib: Library, read: Lookup, queue: Address, us: seq<Update>, k: nat, i: U64)
    returns (path: seq<Fp>)
    requires Run(lib, read, queue, us) && k < |us| && us[k].Settles(i)
    ensures CommitsEntry(lib, queue, us[k], i, path)
  {
    SettledPosition(lib, read, queue, us, k, i);
    path := PositionedLeaf(lib, queue, us[k], i);
  }

  /** The whole story of one entry: enqueued before the run, it becomes exactly one leaf of exactly one
      committed root, in time, still carrying the words it was enqueued with. */
  lemma EntryBecomesOneLeaf(lib: Library, read: Lookup, queue: Address, us: seq<Update>, i: U64)
    returns (k: nat, path: seq<Fp>)
    requires Run(lib, read, queue, us) && us != []
    requires us[0].From() <= i < HeadWord(lib, us[0].chain, queue)
    requires |us| >= (i - us[0].From()) / MAX_BATCH + 1
    ensures k <= (i - us[0].From()) / MAX_BATCH && k < |us| && us[k].Settles(i)
    ensures forall m | 0 <= m < |us| && m != k :: !us[m].Settles(i)
    ensures forall j: nat | j < QUEUE_ENTRY_WORDS ::
              EntryWord(lib, us[k].chain, queue, i, j) == EntryWord(lib, us[0].chain, queue, i, j)
    ensures CommitsEntry(lib, queue, us[k], i, path)
  {
    k := SettledByDeadline(lib, read, queue, us, i);
    forall m | 0 <= m < |us| && m != k
      ensures !us[m].Settles(i)
    {
      if us[m].Settles(i) {
        SettledAtMostOnce(lib, read, queue, us, m, k, i);
      }
    }
    EntryUnchanged(lib, read, queue, us, i, k);
    path := SettledPath(lib, read, queue, us, k, i);
  }
}
