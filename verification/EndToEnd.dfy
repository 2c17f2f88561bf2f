/** The components joined: the windows the actors stage are chains of guest proofs, and a queued entry
    appears once in the public outputs of such a chain. */
module EndToEnd {
  import opened ByteCodec
  import opened RequestLeaf
  import opened MerkleTree
  import opened MerkleBinding
  import opened ChainState
  import opened QueueVerifier
  import opened ProofOutputsCodec
  import opened Windows
  import opened Consensus
  import opened WindowPreparation
  import Pipeline
  import QueueRuns

  // ---- staged windows as proofs ---------------------------------------------------------------

  /** The prepared window looks like this to the actors, and was prepared soundly from the start it has. */
  ghost predicate Backs<U, F>(lc: LightClient<U, F>, lib: Library, w: ProofWindow, x: Window<U, F>) {
    AsProofWindow(x) == w && Sound(lc, lib, w.input, x)
  }

  /** Some prepared window backs this one. */
  ghost predicate SoundlyPrepared<U(!new), F(!new)>(lc: LightClient<U, F>, lib: Library, w: ProofWindow) {
    exists x: Window<U, F> :: Backs(lc, lib, w, x)
  }

  /** The prepared windows behind the staged ones. */
  ghost predicate Backed<U, F>(lc: LightClient<U, F>, lib: Library, staged: seq<ProofWindow>, ws: seq<Window<U, F>>) {
    && |ws| == |staged|
    && forall k | 0 <= k < |ws| :: Backs(lc, lib, staged[k], ws[k])
  }

  lemma {:induction false} ChooseEach<A, B(!new)>(xs: seq<A>, related: (A, B) -> bool) returns (ys: seq<B>)
    requires forall x | x in xs :: exists y :: related(x, y)
    ensures |ys| == |xs| && forall k | 0 <= k < |xs| :: related(xs[k], ys[k])
  {
    ys := [];
    if xs != [] {
      var n := |xs| - 1;
      assert xs[n] in xs;
      var y :| related(xs[n], y);
      forall x | x in xs[..n]
        ensures exists z :: related(x, z)
      {
        assert x in xs;
      }
      ys := ChooseEach(xs[..n], related);
      ys := ys + [y];
    }
  }

  lemma FindBacking<U(!new), F(!new)>(lc: LightClient<U, F>, lib: Library, staged: seq<ProofWindow>)
    returns (ws: seq<Window<U, F>>)
    requires forall w | w in staged :: SoundlyPrepared(lc, lib, w)
    ensures Backed(lc, lib, staged, ws)
  {
    var backs := (w: ProofWindow, x: Window<U, F>) => Backs(lc, lib, w, x);
    forall w | w in staged
      ensures exists x :: backs(w, x)
    {
      assert SoundlyPrepared(lc, lib, w);
      var x: Window<U, F> :| Backs(lc, lib, w, x);
      assert backs(w, x);
    }
    ws := ChooseEach(staged, backs);
    forall k | 0 <= k < |ws|
      ensures Backs(lc, lib, staged[k], ws[k])
    {
      assert backs(staged[k], ws[k]);
    }
  }

  function InputsAt<U, F>(ws: seq<Window<U, F>>, chain: seq<nat>): (ps: seq<GuestInputs<U, F>>)
    requires forall m | 0 <= m < |chain| :: chain[m] < |ws|
    ensures |ps| == |chain| && forall m | 0 <= m < |ps| :: ps[m] == ws[chain[m]].inputs
  {
    seq(|chain|, m requires 0 <= m < |chain| => ws[chain[m]].inputs)
  }

  /** Each proof starts at the queue cursor the one before it commits. */
  ghost predicate CursorsMeet<U, F>(lc: LightClient<U, F>, lib: Library, ps: seq<GuestInputs<U, F>>)
    requires forall k | 0 <= k < |ps| :: GuestAccepts(lc, lib, ps[k])
  {
    forall k | 0 < k < |ps| ::
      GuestOutputs(lc, lib, ps[k]).inputQueueCursor == GuestOutputs(lc, lib, ps[k - 1]).outputQueueCursor
  }

  /** Two windows of which one starts exactly where the other ends are linked by store hash and cursor. */
  lemma FollowingWindowsLink<U, F>(lc: LightClient<U, F>, lib: Library, staged: seq<ProofWindow>,
                                   ws: seq<Window<U, F>>, i: nat, j: nat)
    requires Backed(lc, lib, staged, ws) && i < |ws| && j < |ws| && Pipeline.Follows(staged, i, j)
    ensures Linked(lc, lib, ws[i].inputs, ws[j].inputs)
    ensures GuestOutputs(lc, lib, ws[j].inputs).inputQueueCursor
         == GuestOutputs(lc, lib, ws[i].inputs).outputQueueCursor
  {
    assert Backs(lc, lib, staged[i], ws[i]) && Backs(lc, lib, staged[j], ws[j]);
  }

  lemma ChainLinks<U, F>(lc: LightClient<U, F>, lib: Library, roots: set<Start>, staged: seq<ProofWindow>,
                         ws: seq<Window<U, F>>, chain: seq<nat>, k: nat)
    requires Backed(lc, lib, staged, ws) && Pipeline.IsChain(roots, staged, chain, k)
    ensures ProofChain(lc, lib, InputsAt(ws, chain)) && CursorsMeet(lc, lib, InputsAt(ws, chain))
  {
    var ps := InputsAt(ws, chain);
    forall m | 0 <= m < |ps|
      ensures GuestAccepts(lc, lib, ps[m])
    {
      assert Backs(lc, lib, staged[chain[m]], ws[chain[m]]);
    }
    forall m | 0 < m < |ps|
      ensures Linked(lc, lib, ps[m - 1], ps[m])
      ensures GuestOutputs(lc, lib, ps[m]).inputQueueCursor == GuestOutputs(lc, lib, ps[m - 1]).outputQueueCursor
    {
      FollowingWindowsLink(lc, lib, staged, ws, chain[m - 1], chain[m]);
    }
  }

  /** Every window staged in any run of the joined actors is the end of a chain of guest proofs that
      begins at a root and is linked by store hash and by queue cursor. All that is assumed is that what
      the actor answers was soundly prepared, as `PrepareWindow` ensures. */
  lemma StagedWindowEndsProofChain<U(!new), F(!new)>(
    lc: LightClient<U, F>, lib: Library, states: seq<Pipeline.State>, steps: seq<Pipeline.Step>, i: nat, k: nat)
    returns (ws: seq<Window<U, F>>, chain: seq<nat>, ps: seq<GuestInputs<U, F>>)
    requires Pipeline.IsRun(states, steps) && i < |states| && k < |states[i].staged|
    requires Pipeline.RepliesHave(w => SoundlyPrepared(lc, lib, w), states, steps)
    ensures Backed(lc, lib, states[i].staged, ws)
    ensures Pipeline.IsChain(Pipeline.Roots(states[0]), states[i].staged, chain, k) && ps == InputsAt(ws, chain)
    ensures ProofChain(lc, lib, ps) && CursorsMeet(lc, lib, ps) && ps[|ps| - 1] == ws[k].inputs
  {
    var roots, staged := Pipeline.Roots(states[0]), states[i].staged;
    Pipeline.StagedWerePrepared(w => SoundlyPrepared(lc, lib, w), states, steps, i);
    ws := FindBacking(lc, lib, staged);
    Pipeline.RunsProveGroundedWindows(states, steps, i);
    chain := Pipeline.StagedWindowHasChain(roots, staged, k);
    ChainLinks(lc, lib, roots, staged, ws, chain, k);
    ps := InputsAt(ws, chain);
  }

  /** A window that follows another is proven from the very slot it was prepared for, although the guest
      takes its input slot from the store it is given: or two store encodings collide. */
  lemma FollowingSlotIsAsked<U, F>(lc: LightClient<U, F>, lib: Library, staged: seq<ProofWindow>,
                                   ws: seq<Window<U, F>>, i: nat, j: nat)
    requires SelfDelimiting(lc)
    requires Backed(lc, lib, staged, ws) && i < |ws| && j < |ws| && Pipeline.Follows(staged, i, j)
    ensures Linked(lc, lib, ws[i].inputs, ws[j].inputs)
    ensures LinkCollision(lc, lib, ws[i].inputs, ws[j].inputs).None?
      ==> GuestOutputs(lc, lib, ws[j].inputs).inputSlot == ws[j].inputSlot
  {
    FollowingWindowsLink(lc, lib, staged, ws, i, j);
  }

  // ---- settled chains -------------------------------------------------------------------------

  /** Proofs in the order the destination chain settles them: each accepted, for one queue, from the
      cursor the one before it committed, against chains whose queue only grows. */
  ghost predicate SettledChain<U, F>(lc: LightClient<U, F>, lib: Library, read: Lookup, queue: Address,
                                     ps: seq<GuestInputs<U, F>>, chains: seq<Chain>)
  {
    && |chains| == |ps|
    && (forall k | 0 <= k < |ps| :: GuestAccepts(lc, lib, ps[k]))
    && (forall k | 0 <= k < |ps| :: Trusted(lib, read, GuestOutputs(lc, lib, ps[k]).executionStateRoot, chains[k]))
    && (forall k | 0 <= k < |ps| :: GuestOutputs(lc, lib, ps[k]).proofRequestQueueAddress == queue)
    && CursorsMeet(lc, lib, ps)
    && (forall k | 0 < k < |ps| :: QueueRuns.Extends(lib, queue, chains[k - 1], chains[k]))
  }

  function UpdateOf<U, F>(lc: LightClient<U, F>, lib: Library, p: GuestInputs<U, F>, chain: Chain)
    : (u: QueueRuns.Update)
    requires GuestAccepts(lc, lib, p)
    ensures u.From() == GuestOutputs(lc, lib, p).inputQueueCursor
    ensures u.To() == GuestOutputs(lc, lib, p).outputQueueCursor
    ensures Accepts(lib, u.stateRoot, u.storage)
    ensures RootBytes(lib.poseidon, RequestsOf(u.storage)) == GuestOutputs(lc, lib, p).verifiedRequestsRoot
    ensures u.stateRoot == GuestOutputs(lc, lib, p).executionStateRoot
    ensures u.storage.queueAddress == GuestOutputs(lc, lib, p).proofRequestQueueAddress
    ensures u.chain == chain && u.storage == p.queue
  {
    QueueRuns.Update(GuestOutputs(lc, lib, p).executionStateRoot, chain, p.queue)
  }

  function UpdatesOf<U, F>(lc: LightClient<U, F>, lib: Library, ps: seq<GuestInputs<U, F>>, chains: seq<Chain>)
    : (us: seq<QueueRuns.Update>)
    requires |chains| == |ps| && forall k | 0 <= k < |ps| :: GuestAccepts(lc, lib, ps[k])
    ensures |us| == |ps| && forall k | 0 <= k < |ps| :: us[k] == UpdateOf(lc, lib, ps[k], chains[k])
  {
    seq(|ps|, k requires 0 <= k < |ps| => UpdateOf(lc, lib, ps[k], chains[k]))
  }

  lemma SettledChainIsRun<U, F>(lc: LightClient<U, F>, lib: Library, read: Lookup, queue: Address,
                                ps: seq<GuestInputs<U, F>>, chains: seq<Chain>)
    requires SettledChain(lc, lib, read, queue, ps, chains)
    ensures QueueRuns.Run(lib, read, queue, UpdatesOf(lc, lib, ps, chains))
  {
    var us := UpdatesOf(lc, lib, ps, chains);
    forall k | 0 <= k < |us|
      ensures Trusted(lib, read, us[k].stateRoot, us[k].chain)
      ensures Accepts(lib, us[k].stateRoot, us[k].storage) && us[k].storage.queueAddress == queue
    {
      assert us[k] == UpdateOf(lc, lib, ps[k], chains[k]);
    }
    forall k | 0 < k < |us|
      ensures us[k].From() == us[k - 1].To() && QueueRuns.Extends(lib, queue, us[k - 1].chain, us[k].chain)
    {
      UpdatesMeet(lc, lib, queue, ps[k - 1], chains[k - 1], ps[k], chains[k]);
    }
  }

  lemma UpdatesMeet<U, F>(lc: LightClient<U, F>, lib: Library, queue: Address, p: GuestInputs<U, F>, earlier: Chain,
                          q: GuestInputs<U, F>, later: Chain)
    requires GuestAccepts(lc, lib, p) && GuestAccepts(lc, lib, q)
    requires GuestOutputs(lc, lib, q).inputQueueCursor == GuestOutputs(lc, lib, p).outputQueueCursor
    requires QueueRuns.Extends(lib, queue, earlier, later)
    ensures UpdateOf(lc, lib, q, later).From() == UpdateOf(lc, lib, p, earlier).To()
    ensures QueueRuns.Extends(lib, queue, UpdateOf(lc, lib, p, earlier).chain, UpdateOf(lc, lib, q, later).chain)
  {
  }

  /** The cursor range a proof's public outputs claim. */
  predicate CoversIndex(o: ProofOutputs, i: nat) {
    o.inputQueueCursor <= i < o.outputQueueCursor
  }

  /** Request `r` is the leaf of entry `i` in the tree whose root the proof commits. */
  predicate LeafCommitted(h: Hasher, o: ProofOutputs, i: nat, r: Request, path: seq<Fp>)
    requires CoversIndex(o, i)
  {
    QueueRuns.IsLeaf(h, r, o.inputQueueCursor, o.outputQueueCursor, o.verifiedRequestsRoot, i, path)
  }

  /** An entry a proof covers is committed by it. */
  lemma CoveredEntryIsCommitted<U, F>(lc: LightClient<U, F>, lib: Library, read: Lookup, queue: Address,
                                      ps: seq<GuestInputs<U, F>>, chains: seq<Chain>, k: nat, i: U64)
    returns (path: seq<Fp>)
    requires SettledChain(lc, lib, read, queue, ps, chains) && k < |ps|
    requires CoversIndex(GuestOutputs(lc, lib, ps[k]), i)
    ensures LeafCommitted(lib.poseidon, GuestOutputs(lc, lib, ps[k]), i, RequestAt(lib, chains[k], queue, i), path)
  {
    SettledChainIsRun(lc, lib, read, queue, ps, chains);
    var us := UpdatesOf(lc, lib, ps, chains);
    assert us[k] == UpdateOf(lc, lib, ps[k], chains[k]);
    path := QueueRuns.SettledPath(lib, read, queue, us, k, i);
  }

  /** The end-to-end statement, on public outputs alone: an entry below the head proven by the first of
      a settled chain of proofs is covered by exactly one proof, in time, and its request as that
      proof's chain holds it is a leaf of the root that proof commits. */
  lemma QueuedEntryIsCommittedOnce<U, F>(lc: LightClient<U, F>, lib: Library, read: Lookup, queue: Address,
                                         ps: seq<GuestInputs<U, F>>, chains: seq<Chain>, i: U64)
    returns (k: nat, path: seq<Fp>)
    requires SettledChain(lc, lib, read, queue, ps, chains) && ps != []
    requires ps[0].queue.inputCursor <= i < HeadWord(lib, chains[0], queue)
    requires |ps| >= (i - ps[0].queue.inputCursor) / MAX_BATCH + 1
    ensures k < |ps| && k <= (i - ps[0].queue.inputCursor) / MAX_BATCH
    ensures CoversIndex(GuestOutputs(lc, lib, ps[k]), i)
    ensures forall m | 0 <= m < |ps| && m != k :: !CoversIndex(GuestOutputs(lc, lib, ps[m]), i)
    ensures LeafCommitted(lib.poseidon, GuestOutputs(lc, lib, ps[k]), i, RequestAt(lib, chains[k], queue, i), path)
  {
    SettledChainIsRun(lc, lib, read, queue, ps, chains);
    var us := UpdatesOf(lc, lib, ps, chains);
    assert us[0] == UpdateOf(lc, lib, ps[0], chains[0]);
    k := QueueRuns.SettledByDeadline(lib, read, queue, us, i);
    assert us[k] == UpdateOf(lc, lib, ps[k], chains[k]);
    forall m | 0 <= m < |ps| && m != k
      ensures !CoversIndex(GuestOutputs(lc, lib, ps[m]), i)
    {
      assert us[m] == UpdateOf(lc, lib, ps[m], chains[m]);
      if us[m].Settles(i) {
        QueueRuns.SettledAtMostOnce(lib, read, queue, us, m, k, i);
      }
    }
    path := CoveredEntryIsCommitted(lc, lib, read, queue, ps, chains, k, i);
  }

  lemma RootBytesDetermineRoot(h: Hasher, xs: seq<Request>, ys: seq<Request>)
    requires RootBytes(h, xs) == RootBytes(h, ys)
    ensures ReferenceRoot(h, Leaves(h, xs)) == ReferenceRoot(h, Leaves(h, ys))
  {
    FieldBytesRoundTrip(ReferenceRoot(h, Leaves(h, xs)));
    FieldBytesRoundTrip(ReferenceRoot(h, Leaves(h, ys)));
  }

  /** What the public outputs bind, with no hypothesis on tries or chains: two accepted proofs that
      commit the same number of entries and the same root commit the same requests, or the extraction
      returns two different Poseidon inputs with the same hash. */
  function FindOutputCollision<U, F>(lc: LightClient<U, F>, lib: Library, p: GuestInputs<U, F>, q: GuestInputs<U, F>)
    : (r: Option<Collision>)
    requires GuestAccepts(lc, lib, p) && GuestAccepts(lc, lib, q)
    requires var o, u := GuestOutputs(lc, lib, p), GuestOutputs(lc, lib, q);
             && o.outputQueueCursor - o.inputQueueCursor == u.outputQueueCursor - u.inputQueueCursor
             && o.verifiedRequestsRoot == u.verifiedRequestsRoot
    ensures r.Some? ==> Collides(lib.poseidon, r.value)
    ensures r.None? ==> RequestsOf(p.queue) == RequestsOf(q.queue)
  {
    RootBytesDetermineRoot(lib.poseidon, RequestsOf(p.queue), RequestsOf(q.queue));
    FindRequestCollision(lib.poseidon, RequestsOf(p.queue), RequestsOf(q.queue))
  }
}
