/** How the host prepares a window: a dry run of the consensus part, its progress checks, the queue
    witness assembled under the state root the dry run found, and a dry run of the whole guest program.
    What is fetched from the network is a parameter. */
module WindowPreparation {
  import opened ByteCodec
  import opened RequestLeaf
  import opened MerkleTree
  import opened ChainState
  import opened WitnessAssembler
  import opened ProofOutputsCodec
  import opened Windows
  import opened Consensus
  import Detector
  import BridgeHead

  /** Bootstrapped store, updates and finality update, as fetched for an input slot. */
  datatype Fetched<U, F> = Fetched(
    updates: seq<U>, finalityUpdate: F, expectedCurrentSlot: U64, store: Store, network: Network)

  /** Prepared inputs with the window they are expected to cover. */
  datatype Window<U, F> = Window(
    inputSlot: U64,
    expectedOutputSlot: U64,
    inputBlockNumber: U64,
    expectedOutputBlockNumber: U64,
    inputs: GuestInputs<U, F>,
    expectedOutputStoreHash: B256,
    expectedOutputCursor: nat)

  datatype PrepareError =
    | FetchFailed
    | Program(program: ProgramError)
    | NotGreater(outputSlot: U64, inputSlot: U64)
    | NonCheckpoint(outputSlot: U64)
    | NextCommitteeZero
    | BootstrapFailed(outputSlot: U64)
    | MissingInputExecution
    | Host(host: HostError)

  /** The program's consensus inputs: what was fetched, with the store hash the caller asked for. */
  function InputsOf<U, F>(fetched: Fetched<U, F>, storeHash: B256): (inputs: ConsensusInputs<U, F>) {
    ConsensusInputs(fetched.updates, fetched.finalityUpdate, fetched.expectedCurrentSlot, fetched.store,
                    fetched.network, storeHash)
  }

  /** What validation asks of a dry run. */
  predicate Progresses(inputSlot: U64, o: ConsensusOutputs) {
    o.outputSlot > inputSlot && o.outputSlot % 32 == 0 && o.nextSyncCommitteeHash != Zeros(32)
  }

  function ValidateProgress(inputSlot: U64, o: ConsensusOutputs): (r: Result<(), PrepareError>)
    ensures r.Ok? <==> Progresses(inputSlot, o)
  {
    if o.outputSlot <= inputSlot then Err(NotGreater(o.outputSlot, inputSlot))
    else if o.outputSlot % 32 > 0 then Err(NonCheckpoint(o.outputSlot))
    else if o.nextSyncCommitteeHash == Zeros(32) then Err(NextCommitteeZero)
    else Ok(())
  }

  /** What staging a window registers as the start of the next one: the cursor is recomputed from the
      witness. */
  function StagedStart<U, F>(w: Window<U, F>): (s: Start) {
    Start(w.expectedOutputSlot, w.expectedOutputStoreHash, w.inputs.queue.inputCursor + |w.inputs.queue.entries|)
  }

  /** A prepared window as the actors see it. */
  function AsProofWindow<U, F>(w: Window<U, F>): (p: ProofWindow) {
    ProofWindow(Start(w.inputSlot, w.inputs.consensus.storeHash, w.inputs.queue.inputCursor), StagedStart(w))
  }

  /** The window starts where it was asked to, the guest accepts it, and everything it expects of its
      proof is what the guest commits. */
  ghost predicate Sound<U, F>(lc: LightClient<U, F>, lib: Library, start: Start, w: Window<U, F>) {
    && AsProofWindow(w).input == start
    && GuestAccepts(lc, lib, w.inputs)
    && var o := GuestOutputs(lc, lib, w.inputs);
       && StagedStart(w) == BridgeHead.ProvenStart(o)
       && w.expectedOutputCursor == o.outputQueueCursor && w.expectedOutputBlockNumber == o.outputBlockNumber
       && start.storeHash == o.inputStoreHash && start.cursor == o.inputQueueCursor
  }

  /** What the proof of a validated window commits: a later checkpoint slot, and a next committee. */
  ghost predicate CommitsProgress<U, F>(lc: LightClient<U, F>, lib: Library, slot: U64, w: Window<U, F>) {
    GuestAccepts(lc, lib, w.inputs) && ProgressCommitted(lc, lib, slot, w.inputs)
  }

  ghost predicate ProgressCommitted<U, F>(lc: LightClient<U, F>, lib: Library, slot: U64, inputs: GuestInputs<U, F>)
    requires GuestAccepts(lc, lib, inputs)
  {
    var o := GuestOutputs(lc, lib, inputs);
    o.outputSlot > slot && o.outputSlot % 32 == 0 && o.nextSyncCommitteeHash != Zeros(32)
  }

  lemma ProgressIsCommitted<U, F>(lc: LightClient<U, F>, lib: Library, slot: U64, inputs: GuestInputs<U, F>)
    requires GuestAccepts(lc, lib, inputs) && Progresses(slot, DryRunOutputs(lc, inputs.consensus))
    ensures ProgressCommitted(lc, lib, slot, inputs)
  {
  }

  /** The window proves exactly what was fetched, and names the block the fetched store is at. */
  ghost predicate UsesFetched<U, F>(w: Window<U, F>, fetched: Fetched<U, F>) {
    var c, execution := w.inputs.consensus, fetched.store.finalizedHeader.execution;
    && c.updates == fetched.updates && c.finalityUpdate == fetched.finalityUpdate
    && c.expectedCurrentSlot == fetched.expectedCurrentSlot
    && c.store == fetched.store && c.network == fetched.network
    && execution.Some? && w.inputBlockNumber == execution.value.blockNumber
  }

  /** Whether the fetched data, with a trusted chain and an honest provider, make a window. */
  ghost predicate Preparable<U, F>(lc: LightClient<U, F>, lib: Library, chain: Chain, queue: Address, start: Start,
                                   validate: bool, fetched: Fetched<U, F>, bootstraps: U64 -> bool)
    requires DryRunAccepts(lc, InputsOf(fetched, start.storeHash)) && start.cursor < TWO_64
  {
    var o := DryRunOutputs(lc, InputsOf(fetched, start.storeHash));
    && (validate ==>
          o.outputSlot > start.slot && o.nextSyncCommitteeHash != Zeros(32) && bootstraps(o.outputSlot))
    && fetched.store.finalizedHeader.execution.Some? && o.outputSlot % 32 == 0
    && ReadyQueue(lib, chain, queue, start.cursor)
  }

  /** Chain and provider are those of the block the dry run found. */
  ghost predicate TrustedBlock<U, F>(lc: LightClient<U, F>, lib: Library, read: Lookup, chain: Chain,
                                     provider: Provider, inputs: ConsensusInputs<U, F>)
  {
    && DryRunAccepts(lc, inputs)
    && Trusted(lib, read, DryRunOutputs(lc, inputs).executionStateRoot, chain)
    && Honest(lib, DryRunOutputs(lc, inputs).executionStateRoot, chain, provider)
  }

  /** With a trusted chain and an honest provider, `prepared` says whether a window can be made. */
  ghost predicate ExactlyPreparable<U, F>(
    lc: LightClient<U, F>, lib: Library, read: Lookup, chain: Chain, provider: Provider, queue: Address, start: Start,
    validate: bool, fetched: Fetched<U, F>, bootstraps: U64 -> bool, prepared: bool)
    requires start.cursor < TWO_64
  {
    TrustedBlock(lc, lib, read, chain, provider, InputsOf(fetched, start.storeHash)) ==>
      (prepared <==> Preparable(lc, lib, chain, queue, start, validate, fetched, bootstraps))
  }

  /** All that is promised of a window that comes out: sound, made from exactly what was fetched, with
      distinct targets, and under validation with the progress asked for. */
  ghost predicate WellPrepared<U, F>(lc: LightClient<U, F>, lib: Library, start: Start, validate: bool,
                                     fetched: Fetched<U, F>, bootstraps: U64 -> bool, w: Window<U, F>)
  {
    && Sound(lc, lib, start, w) && UsesFetched(w, fetched) && DistinctTargets(w.inputs.queue.targets)
    && (validate ==>
          && CommitsProgress(lc, lib, start.slot, w) && bootstraps(w.expectedOutputSlot)
          && Detector.Prepares(start, Ok(AsProofWindow(w))))
  }

  lemma MadeWindowIsWellPrepared<U, F>(lc: LightClient<U, F>, lib: Library, start: Start, validate: bool,
                                       fetched: Fetched<U, F>, bootstraps: U64 -> bool, w: Window<U, F>)
    requires w.inputs.consensus == InputsOf(fetched, start.storeHash) && GuestAccepts(lc, lib, w.inputs)
    requires w.inputSlot == start.slot && w.inputs.queue.inputCursor == start.cursor
    requires DistinctTargets(w.inputs.queue.targets)
    requires fetched.store.finalizedHeader.execution.Some?
    requires w.inputBlockNumber == fetched.store.finalizedHeader.execution.value.blockNumber
    requires var o := DryRunOutputs(lc, w.inputs.consensus);
             && w.expectedOutputSlot == o.outputSlot && w.expectedOutputStoreHash == o.outputStoreHash
             && w.expectedOutputBlockNumber == o.outputBlockNumber
             && w.expectedOutputCursor == start.cursor + |w.inputs.queue.entries|
             && (validate ==> Progresses(start.slot, o) && bootstraps(o.outputSlot))
    ensures WellPrepared(lc, lib, start, validate, fetched, bootstraps, w)
  {
    if validate {
      ProgressIsCommitted(lc, lib, start.slot, w.inputs);
    }
  }

  /** Dry-runs the consensus part and, when asked to, validates its progress. */
  method DryRun<U, F>(lc: LightClient<U, F>, inputs: ConsensusInputs<U, F>, slot: U64, validate: bool,
                      bootstraps: U64 -> bool)
    returns (r: Result<ConsensusOutputs, PrepareError>)
    ensures r.Ok? <==> && DryRunAccepts(lc, inputs)
                       && var o := DryRunOutputs(lc, inputs);
                          validate ==> Progresses(slot, o) && bootstraps(o.outputSlot)
    ensures r.Ok? ==> r.value == DryRunOutputs(lc, inputs)
    ensures r.Err? ==>
              if !DryRunAccepts(lc, inputs) then r.error.Program?
              else
                var o := DryRunOutputs(lc, inputs);
                r.error == if o.outputSlot <= slot then NotGreater(o.outputSlot, slot)
                           else if o.outputSlot % 32 != 0 then NonCheckpoint(o.outputSlot)
                           else if o.nextSyncCommitteeHash == Zeros(32) then NextCommitteeZero
                           else BootstrapFailed(o.outputSlot)
  {
    var outputs := ConsensusProgram(lc, inputs);
    if outputs.Err? {
      return Err(Program(outputs.error));
    }
    if validate {
      var progress := ValidateProgress(slot, outputs.value);
      if progress.Err? {
        return Err(progress.error);
      }
      if !bootstraps(outputs.value.outputSlot) {
        return Err(BootstrapFailed(outputs.value.outputSlot));
      }
    }
    r := Ok(outputs.value);
  }

  /** Assembles the queue witness under the state root the dry run found, and dry-runs the whole guest
      program on the result. */
  method AssembleInputs<U, F>(lc: LightClient<U, F>, lib: Library, zeros: seq<Fp>, ghost read: Lookup,
                              ghost chain: Chain, provider: Provider, queue: Address, chunkLimit: nat, cursor: U64,
                              consensus: ConsensusInputs<U, F>, stateRoot: B256)
    returns (r: Result<GuestInputs<U, F>, PrepareError>)
    requires |zeros| == MAX_TREE_DEPTH + 1 && IsZeroTable(lib.poseidon, zeros)
    requires DryRunAccepts(lc, consensus) && stateRoot == DryRunOutputs(lc, consensus).executionStateRoot
    ensures r.Ok? ==> && GuestAccepts(lc, lib, r.value) && r.value.consensus == consensus
                      && r.value.queue.inputCursor == cursor && DistinctTargets(r.value.queue.targets)
    ensures TrustedBlock(lc, lib, read, chain, provider, consensus)
      ==> (r.Ok? <==> DryRunOutputs(lc, consensus).outputSlot % 32 == 0 && ReadyQueue(lib, chain, queue, cursor))
    ensures TrustedBlock(lc, lib, read, chain, provider, consensus) && r.Ok? ==> r.value.queue.queueAddress == queue
  {
    var assembled := AssembleWitness(lib, read, stateRoot, chain, provider, queue, cursor, chunkLimit);
    if assembled.Err? {
      return Err(Host(assembled.error));
    }
    var inputs := GuestInputs(consensus, assembled.value);
    var outputs := ConsensusMptProgram(lc, lib, zeros, inputs);
    if outputs.Err? {
      return Err(Program(outputs.error));
    }
    r := Ok(inputs);
  }

  /** `prepare_consensus_mpt_proof_inputs`. A window that comes out is sound: it starts where it was asked
      to, the guest accepts it, and what staging it will register is what its proof commits; with
      validation it also meets the contract the detector's actor relies on. With a trusted chain and an
      honest provider it comes out exactly when the dry run makes progress that can be bootstrapped from
      and the queue is ready. */
  method PrepareWindow<U, F>(lc: LightClient<U, F>, lib: Library, zeros: seq<Fp>, ghost read: Lookup,
                             ghost chain: Chain, provider: Provider, queue: Address, chunkLimit: nat, slot: U64,
                             storeHash: B256, cursor: U64, validate: bool, fetched: Result<Fetched<U, F>, ()>,
                             bootstraps: U64 -> bool)
    returns (r: Result<Window<U, F>, PrepareError>)
    requires |zeros| == MAX_TREE_DEPTH + 1 && IsZeroTable(lib.poseidon, zeros)
    ensures r.Ok? ==>
              && fetched.Ok?
              && WellPrepared(lc, lib, Start(slot, storeHash, cursor), validate, fetched.value, bootstraps, r.value)
    ensures fetched.Err? || !DryRunAccepts(lc, InputsOf(fetched.value, storeHash)) ==> r.Err?
    ensures fetched.Ok? ==>
              ExactlyPreparable(lc, lib, read, chain, provider, queue, Start(slot, storeHash, cursor), validate,
                                fetched.value, bootstraps, r.Ok?)
  {
    if fetched.Err? {
      return Err(FetchFailed);
    }
    var consensus := InputsOf(fetched.value, storeHash);
    var dryRun := DryRun(lc, consensus, slot, validate, bootstraps);
    if dryRun.Err? {
      return Err(dryRun.error);
    }
    var o := dryRun.value;
    var execution := fetched.value.store.finalizedHeader.execution;
    if execution.None? {
      return Err(MissingInputExecution);
    }
    var inputs := AssembleInputs(lc, lib, zeros, read, chain, provider, queue, chunkLimit, cursor, consensus,
                                 o.executionStateRoot);
    if inputs.Err? {
      return Err(inputs.error);
    }
    var w := Window(slot, o.outputSlot, execution.value.blockNumber, o.outputBlockNumber, inputs.value,
                    o.outputStoreHash, cursor + |inputs.value.queue.entries|);
    MadeWindowIsWellPrepared(lc, lib, Start(slot, storeHash, cursor), validate, fetched.value, bootstraps, w);
    r := Ok(w);
  }

  /** A worker's whole life: the guest runs on the job's inputs, its outputs are encoded as public values
      and the bridge head decodes them. For a sound window this never fails, and the proof message
      carries the output the job was staged with: what `Pipeline.CommitsItsWindow` assumes of workers. */
  method ProveWindow<U, F>(lc: LightClient<U, F>, lib: Library, zeros: seq<Fp>, ghost start: Start, w: Window<U, F>,
                           head: BridgeHead.BridgeHead, id: nat)
    returns (r: Result<seq<BridgeHead.Event>, CodecError>)
    requires |zeros| == MAX_TREE_DEPTH + 1 && IsZeroTable(lib.poseidon, zeros)
    requires Sound(lc, lib, start, w) && id in head.proverJobs && head.proverJobs[id] == AsProofWindow(w)
    modifies head
    ensures head.View() == BridgeHead.AfterJob(old(head.View()), id)
    ensures r == Ok([BridgeHead.JobSucceeded(id), BridgeHead.ProofMessage(old(head.proverJobs[id]).output)])
  {
    var outputs := ConsensusMptProgram(lc, lib, zeros, w.inputs);
    var bytes := ToBytes(outputs.value);
    DecodeEncoded(bytes, outputs.value);
    r := head.HandleProverSuccess(id, bytes);
  }
}
