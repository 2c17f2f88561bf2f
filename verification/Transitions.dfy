/** What the consensus programs mean, stated without them: a chain of verified updates from the input store
    to the output store, in terms of the light client alone. */
module Transitions {
  import opened ByteCodec
  import opened ChainState
  import opened QueueVerifier
  import opened ProofOutputsCodec
  import opened Consensus

  // ---- store hashes ---------------------------------------------------------------------------

  predicate Encodable<U, F>(lc: LightClient<U, F>, s: Store) {
    && lc.encodeHeader(s.finalizedHeader).Some? && lc.encodeCommittee(s.currentCommittee).Some?
    && (s.nextCommittee.Some? ==> lc.encodeCommittee(s.nextCommittee.value).Some?)
  }

  /** The header comes first, then the current committee, then the next one if there is one. */
  ghost predicate HasEncoding<U, F>(lc: LightClient<U, F>, s: Store, bytes: seq<Byte>) {
    && Encodable(lc, s)
    && var h, c := lc.encodeHeader(s.finalizedHeader).value, lc.encodeCommittee(s.currentCommittee).value;
       && |bytes| >= |h| + |c| && bytes[..|h|] == h && bytes[|h|..|h| + |c|] == c
       && bytes[|h| + |c|..] == if s.nextCommittee.None? then [] else lc.encodeCommittee(s.nextCommittee.value).value
  }

  ghost predicate HashesTo<U, F>(lc: LightClient<U, F>, s: Store, hash: B256) {
    exists bytes :: HasEncoding(lc, s, bytes) && lc.sha256(bytes) == hash
  }

  lemma StoreBytesMeaning<U, F>(lc: LightClient<U, F>, s: Store, bytes: seq<Byte>)
    ensures StoreBytes(lc, s) == Some(bytes) <==> HasEncoding(lc, s, bytes)
    ensures StoreBytes(lc, s).None? <==> !Encodable(lc, s)
  {
    if Encodable(lc, s) {
      var h, c := lc.encodeHeader(s.finalizedHeader).value, lc.encodeCommittee(s.currentCommittee).value;
      var n := if s.nextCommittee.None? then [] else lc.encodeCommittee(s.nextCommittee.value).value;
      assert StoreBytes(lc, s).value == h + c + n;
      if HasEncoding(lc, s, bytes) {
        assert bytes == bytes[..|h|] + bytes[|h|..|h| + |c|] + bytes[|h| + |c|..];
      }
    }
  }

  lemma HashMeaning<U, F>(lc: LightClient<U, F>, s: Store, hash: B256)
    ensures HashStore(lc, s) == Some(hash) <==> HashesTo(lc, s, hash)
    ensures HashStore(lc, s).None? <==> !Encodable(lc, s)
  {
    if StoreBytes(lc, s).Some? {
      StoreBytesMeaning(lc, s, StoreBytes(lc, s).value);
    } else {
      StoreBytesMeaning(lc, s, []);
    }
    if HashesTo(lc, s, hash) {
      var bytes :| HasEncoding(lc, s, bytes) && lc.sha256(bytes) == hash;
      StoreBytesMeaning(lc, s, bytes);
    }
  }

  // ---- verified chains of stores --------------------------------------------------------------

  /** Update `i` verifies against `s`, and applying it gives `t`. */
  predicate Updates<U, F>(lc: LightClient<U, F>, inputs: ConsensusInputs<U, F>, i: nat, s: Store, t: Store)
    requires i < |inputs.updates|
  {
    && lc.verifyUpdate(inputs.updates[i], inputs.expectedCurrentSlot, s, inputs.network)
    && t == lc.applyUpdate(s, inputs.updates[i])
  }

  /** The stores reached one after another by the updates from `i` on, each verified against the store it
      is applied to. */
  ghost predicate VerifiedFrom<U, F>(lc: LightClient<U, F>, inputs: ConsensusInputs<U, F>, i: nat, ss: seq<Store>) {
    && ss != [] && i + |ss| - 1 <= |inputs.updates|
    && forall k | 0 <= k < |ss| - 1 :: Updates(lc, inputs, i + k, ss[k], ss[k + 1])
  }

  function Last(ss: seq<Store>): (s: Store)
    requires ss != []
  {
    ss[|ss| - 1]
  }

  /** The stores `ApplyFrom` passes through: all updates verified, or up to the first that does not. */
  lemma {:induction false} ApplyPasses<U, F>(lc: LightClient<U, F>, inputs: ConsensusInputs<U, F>, store: Store, i: nat)
    returns (ss: seq<Store>)
    requires i <= |inputs.updates|
    ensures VerifiedFrom(lc, inputs, i, ss) && ss[0] == store
    ensures var n := i + |ss| - 1;
            if n == |inputs.updates| then ApplyFrom(lc, inputs, store, i) == Ok(Last(ss))
            else !lc.verifyUpdate(inputs.updates[n], inputs.expectedCurrentSlot, Last(ss), inputs.network)
                 && ApplyFrom(lc, inputs, store, i) == Err(InvalidUpdate(n))
    decreases |inputs.updates| - i
  {
    ss := [store];
    if i < |inputs.updates| && lc.verifyUpdate(inputs.updates[i], inputs.expectedCurrentSlot, store, inputs.network) {
      var next := lc.applyUpdate(store, inputs.updates[i]);
      var rest := ApplyPasses(lc, inputs, next, i + 1);
      ss := [store] + rest;
      forall k | 0 <= k < |ss| - 1
        ensures Updates(lc, inputs, i + k, ss[k], ss[k + 1])
      {
        if k > 0 {
          assert Updates(lc, inputs, i + 1 + (k - 1), rest[k - 1], rest[k]);
        }
      }
    }
  }

  /** There is one such chain of each length. */
  lemma {:induction false} ChainsAgree<U, F>(lc: LightClient<U, F>, inputs: ConsensusInputs<U, F>, ss: seq<Store>,
                                             ts: seq<Store>, k: nat)
    requires VerifiedFrom(lc, inputs, 0, ss) && VerifiedFrom(lc, inputs, 0, ts) && ss[0] == ts[0]
    requires k < |ss| && k < |ts|
    ensures ss[k] == ts[k]
  {
    if k > 0 {
      ChainsAgree(lc, inputs, ss, ts, k - 1);
      assert Updates(lc, inputs, 0 + (k - 1), ss[k - 1], ss[k]) && Updates(lc, inputs, 0 + (k - 1), ts[k - 1], ts[k]);
    }
  }

  /** The input store hashes to the given hash, and the first `n` updates verify in turn, leading to `s`. */
  ghost predicate Leads<U, F>(lc: LightClient<U, F>, inputs: ConsensusInputs<U, F>, n: nat, s: Store) {
    && HashesTo(lc, inputs.store, inputs.storeHash)
    && exists ss :: VerifiedFrom(lc, inputs, 0, ss) && ss[0] == inputs.store && |ss| == n + 1 && Last(ss) == s
  }

  /** The chain cannot be prolonged: every update is used up, or the next one does not verify. */
  predicate Stops<U, F>(lc: LightClient<U, F>, inputs: ConsensusInputs<U, F>, ss: seq<Store>)
    requires ss != [] && |ss| - 1 <= |inputs.updates|
  {
    |ss| - 1 < |inputs.updates| ==>
      !lc.verifyUpdate(inputs.updates[|ss| - 1], inputs.expectedCurrentSlot, Last(ss), inputs.network)
  }

  lemma NoLongerChain<U, F>(lc: LightClient<U, F>, inputs: ConsensusInputs<U, F>, ss: seq<Store>, ts: seq<Store>)
    requires VerifiedFrom(lc, inputs, 0, ss) && VerifiedFrom(lc, inputs, 0, ts) && ss[0] == ts[0]
    requires Stops(lc, inputs, ss)
    ensures |ts| <= |ss|
  {
    var last := |ss| - 1;
    if last < |ts| {
      ChainsAgree(lc, inputs, ss, ts, last);
      assert last + 1 < |ts| ==> Updates(lc, inputs, 0 + last, ts[last], ts[last + 1]);
    }
  }

  lemma LeadsAlongChain<U, F>(lc: LightClient<U, F>, inputs: ConsensusInputs<U, F>, ss: seq<Store>, n: nat, s: Store)
    requires VerifiedFrom(lc, inputs, 0, ss) && ss[0] == inputs.store && Stops(lc, inputs, ss)
    ensures Leads(lc, inputs, n, s) <==> HashesTo(lc, inputs.store, inputs.storeHash) && n < |ss| && s == ss[n]
  {
    if Leads(lc, inputs, n, s) {
      var ts :| VerifiedFrom(lc, inputs, 0, ts) && ts[0] == inputs.store && |ts| == n + 1 && Last(ts) == s;
      NoLongerChain(lc, inputs, ss, ts);
      ChainsAgree(lc, inputs, ss, ts, n);
    } else if n < |ss| && s == ss[n] {
      assert VerifiedFrom(lc, inputs, 0, ss[..n + 1]);
      assert Last(ss[..n + 1]) == s;
    }
  }

  /** The store the finality update is checked against, and the one it gives. */
  predicate Finalizes<U, F>(lc: LightClient<U, F>, inputs: ConsensusInputs<U, F>, s: Store, final: Store) {
    && lc.verifyFinalityUpdate(inputs.finalityUpdate, inputs.expectedCurrentSlot, s, inputs.network)
    && final == lc.applyFinalityUpdate(s, inputs.finalityUpdate)
  }

  /** The input store hashes as given, all updates verify in turn, and so does the finality update. */
  ghost predicate EndsIn<U, F>(lc: LightClient<U, F>, inputs: ConsensusInputs<U, F>, final: Store) {
    exists s :: Leads(lc, inputs, |inputs.updates|, s) && Finalizes(lc, inputs, s, final)
  }

  ghost predicate FailsAt<U, F>(lc: LightClient<U, F>, inputs: ConsensusInputs<U, F>, i: nat) {
    && i < |inputs.updates|
    && exists s ::
         Leads(lc, inputs, i, s) && !lc.verifyUpdate(inputs.updates[i], inputs.expectedCurrentSlot, s, inputs.network)
  }

  ghost predicate FailsFinally<U, F>(lc: LightClient<U, F>, inputs: ConsensusInputs<U, F>) {
    exists s ::
      && Leads(lc, inputs, |inputs.updates|, s)
      && !lc.verifyFinalityUpdate(inputs.finalityUpdate, inputs.expectedCurrentSlot, s, inputs.network)
  }

  /** Processing succeeds, with this store, exactly when the input store hashes as given, every update
      verifies against the store the ones before it lead to, and the finality update verifies against the
      last of these and gives this store. */
  lemma SucceedsExactly<U, F>(lc: LightClient<U, F>, inputs: ConsensusInputs<U, F>, final: Store)
    ensures FinalStore(lc, inputs) == Ok(final) <==> EndsIn(lc, inputs, final)
  {
    var ss := ApplyPasses(lc, inputs, inputs.store, 0);
    HashMeaning(lc, inputs.store, inputs.storeHash);
    LeadsAlongChain(lc, inputs, ss, |ss| - 1, Last(ss));
    if EndsIn(lc, inputs, final) {
      var s :| Leads(lc, inputs, |inputs.updates|, s) && Finalizes(lc, inputs, s, final);
      LeadsAlongChain(lc, inputs, ss, |inputs.updates|, s);
    }
  }

  lemma EarlierVerifies<U, F>(lc: LightClient<U, F>, inputs: ConsensusInputs<U, F>, ss: seq<Store>, i: nat)
    requires VerifiedFrom(lc, inputs, 0, ss) && i + 1 < |ss|
    ensures lc.verifyUpdate(inputs.updates[i], inputs.expectedCurrentSlot, ss[i], inputs.network)
  {
    assert Updates(lc, inputs, 0 + i, ss[i], ss[i + 1]);
  }

  /** It fails at update `i` exactly when that is the first that does not verify. */
  lemma FailsAtExactly<U, F>(lc: LightClient<U, F>, inputs: ConsensusInputs<U, F>, i: nat)
    ensures FinalStore(lc, inputs) == Err(InvalidUpdate(i)) <==> FailsAt(lc, inputs, i)
  {
    var ss := ApplyPasses(lc, inputs, inputs.store, 0);
    HashMeaning(lc, inputs.store, inputs.storeHash);
    LeadsAlongChain(lc, inputs, ss, |ss| - 1, Last(ss));
    if FailsAt(lc, inputs, i) {
      var s :| && Leads(lc, inputs, i, s)
               && !lc.verifyUpdate(inputs.updates[i], inputs.expectedCurrentSlot, s, inputs.network);
      LeadsAlongChain(lc, inputs, ss, i, s);
      if i + 1 < |ss| {
        EarlierVerifies(lc, inputs, ss, i);
      }
    }
  }

  /** It fails at the finality update exactly when all updates verify and that one does not. */
  lemma FailsFinallyExactly<U, F>(lc: LightClient<U, F>, inputs: ConsensusInputs<U, F>)
    ensures FinalStore(lc, inputs) == Err(InvalidFinalityUpdate) <==> FailsFinally(lc, inputs)
  {
    var ss := ApplyPasses(lc, inputs, inputs.store, 0);
    HashMeaning(lc, inputs.store, inputs.storeHash);
    LeadsAlongChain(lc, inputs, ss, |ss| - 1, Last(ss));
    if FailsFinally(lc, inputs) {
      var s :| && Leads(lc, inputs, |inputs.updates|, s)
               && !lc.verifyFinalityUpdate(inputs.finalityUpdate, inputs.expectedCurrentSlot, s, inputs.network);
      LeadsAlongChain(lc, inputs, ss, |inputs.updates|, s);
    }
  }

  /** Before any update is looked at, a store that cannot be encoded and a store of another hash are
      refused, with the hash it has. */
  lemma HashChainExactly<U, F>(lc: LightClient<U, F>, inputs: ConsensusInputs<U, F>, hash: B256)
    ensures FinalStore(lc, inputs) == Err(StoreHashingError) <==> !Encodable(lc, inputs.store)
    ensures FinalStore(lc, inputs) == Err(HashChainMismatch(inputs.storeHash, hash))
       <==> HashesTo(lc, inputs.store, hash) && hash != inputs.storeHash
  {
    var ss := ApplyPasses(lc, inputs, inputs.store, 0);
    HashMeaning(lc, inputs.store, hash);
  }

  // ---- what the programs commit ---------------------------------------------------------------

  /** What the dry run reports, read off the input store, the final store and the light client. */
  ghost predicate Reports<U, F>(lc: LightClient<U, F>, inputs: ConsensusInputs<U, F>, final: Store,
                                o: ConsensusOutputs) {
    && o.inputSlot == inputs.store.finalizedHeader.slot && o.inputStoreHash == inputs.storeHash
    && o.outputSlot == final.finalizedHeader.slot && HashesTo(lc, final, o.outputStoreHash)
    && final.finalizedHeader.execution.Some?
    && o.executionStateRoot == final.finalizedHeader.execution.value.stateRoot
    && o.outputBlockNumber == final.finalizedHeader.execution.value.blockNumber
    && (match final.nextCommittee
        case Some(next) => o.nextSyncCommitteeHash == lc.committeeRoot(next)
        case None => o.nextSyncCommitteeHash == Zeros(32))
  }

  /** The dry run succeeds and reports `o` exactly when some store is reached through verified updates from
      a store of the given hash, and `o` is what that store and the input store say. */
  lemma DryRunMeaning<U, F>(lc: LightClient<U, F>, inputs: ConsensusInputs<U, F>, o: ConsensusOutputs)
    ensures DryRunAccepts(lc, inputs) && DryRunOutputs(lc, inputs) == o
       <==> exists final :: EndsIn(lc, inputs, final) && Reports(lc, inputs, final, o)
  {
    if FinalStore(lc, inputs).Ok? {
      var final := FinalStore(lc, inputs).value;
      SucceedsExactly(lc, inputs, final);
      HashMeaning(lc, final, o.outputStoreHash);
    }
    if final :| EndsIn(lc, inputs, final) && Reports(lc, inputs, final, o) {
      SucceedsExactly(lc, inputs, final);
      HashMeaning(lc, final, o.outputStoreHash);
    }
  }

  /** What the guest commits beside the dry run's values. */
  predicate CommitsFor<U, F>(lib: Library, inputs: GuestInputs<U, F>, d: ConsensusOutputs, o: ProofOutputs) {
    && o.inputSlot == d.inputSlot && o.inputStoreHash == d.inputStoreHash
    && o.outputSlot == d.outputSlot && o.outputStoreHash == d.outputStoreHash
    && o.executionStateRoot == d.executionStateRoot && o.nextSyncCommitteeHash == d.nextSyncCommitteeHash
    && o.outputBlockNumber == d.outputBlockNumber
    && o.proofRequestQueueAddress == inputs.queue.queueAddress
    && o.inputQueueCursor == inputs.queue.inputCursor
    && o.outputQueueCursor == inputs.queue.inputCursor + |inputs.queue.entries|
    && o.verifiedRequestsRoot == RootBytes(lib.poseidon, RequestsOf(inputs.queue))
  }

  /** The guest commits `o` exactly when some store is reached through verified updates, its slot is a
      multiple of 32, the queue witness is accepted under its own state root, and `o` is what it says. */
  lemma GuestMeaning<U, F>(lc: LightClient<U, F>, lib: Library, inputs: GuestInputs<U, F>, o: ProofOutputs)
    ensures GuestAccepts(lc, lib, inputs) && GuestOutputs(lc, lib, inputs) == o
       <==> exists final, d ::
              && EndsIn(lc, inputs.consensus, final) && Reports(lc, inputs.consensus, final, d)
              && d.outputSlot % 32 == 0 && Accepts(lib, d.executionStateRoot, inputs.queue)
              && CommitsFor(lib, inputs, d, o)
  {
    if GuestAccepts(lc, lib, inputs) {
      DryRunMeaning(lc, inputs.consensus, DryRunOutputs(lc, inputs.consensus));
    }
    if final, d :| EndsIn(lc, inputs.consensus, final) && Reports(lc, inputs.consensus, final, d)
                   && d.outputSlot % 32 == 0 && Accepts(lib, d.executionStateRoot, inputs.queue)
                   && CommitsFor(lib, inputs, d, o) {
      DryRunMeaning(lc, inputs.consensus, d);
    }
  }

  // ---- the committed committee hash -----------------------------------------------------------

  /** The next committee of the final store, and nothing else, decides the committed hash. */
  lemma NextCommitteeDecides<U, F>(lc: LightClient<U, F>, a: ConsensusInputs<U, F>, b: ConsensusInputs<U, F>)
    requires DryRunAccepts(lc, a) && DryRunAccepts(lc, b)
    requires FinalStore(lc, a).value.nextCommittee == FinalStore(lc, b).value.nextCommittee
    ensures DryRunOutputs(lc, a).nextSyncCommitteeHash == DryRunOutputs(lc, b).nextSyncCommitteeHash
  {
  }

  /** Equal hashes come from equal next committees, from two committees with one root, or from a committee
      whose root is the zero that stands for none. */
  lemma CommitteeHashBinds<U, F>(lc: LightClient<U, F>, a: ConsensusInputs<U, F>, b: ConsensusInputs<U, F>)
    requires DryRunAccepts(lc, a) && DryRunAccepts(lc, b)
    requires DryRunOutputs(lc, a).nextSyncCommitteeHash == DryRunOutputs(lc, b).nextSyncCommitteeHash
    ensures var x, y := FinalStore(lc, a).value.nextCommittee, FinalStore(lc, b).value.nextCommittee;
            || x == y
            || (x.Some? && y.Some? && x != y && lc.committeeRoot(x.value) == lc.committeeRoot(y.value))
            || (x.Some? && y.None? && lc.committeeRoot(x.value) == Zeros(32))
            || (x.None? && y.Some? && lc.committeeRoot(y.value) == Zeros(32))
  {
  }
}
