/** The whole pipeline: detector, validation actor, bridge head, workers and observer joined by their
    channels, over every interleaving. */
module Pipeline {
  import opened ByteCodec
  import opened Windows
  import D = Detector
  import B = BridgeHead

  /** `delivered` counts the detector's emissions the bridge head has received; `staged` lists every
      window staged so far, in order; `proven` holds the positions of those whose worker proved them. */
  datatype State = State(d: D.System, b: B.System, delivered: nat, staged: seq<ProofWindow>, proven: set<nat>)

  datatype Step = DetectorStep(dStep: D.Step) | BridgeStep(bStep: B.Step) | DeliverEmission

  /** What the guest commits for a job is what staging the job registered: the hypothesis that a
      worker's proof is a proof of its own job's inputs. */
  predicate CommitsItsWindow(b: B.System, id: nat, outcome: Result<Start, ()>) {
    outcome.Ok? && id in b.head.proverJobs ==> outcome.value == b.head.proverJobs[id].output
  }

  predicate Enabled(p: State, step: Step) {
    match step
    case DetectorStep(x) => !x.SendStage? && !x.SendAdvance? && D.Enabled(p.d, x)
    case BridgeStep(x) =>
      && !x.Finality? && B.Enabled(p.b, x)
      && (x.WorkerDone? ==> CommitsItsWindow(p.b, x.jobId, x.outcome))
    case DeliverEmission => p.delivered < |p.d.emitted|
  }

  /** Staging tells the detector the expected output; advancing tells it the new head. */
  function RunCommand(p: State): (q: State)
    requires p.b.commands != []
  {
    var b := B.Apply(p.b, B.ReceiveCommand);
    match p.b.commands[0]
    case StageTransitionProof(w) => p.(b := b, d := D.Apply(p.d, D.SendStage(w.output)), staged := p.staged + [w])
    case Advance(head) => p.(b := b, d := D.Apply(p.d, D.SendAdvance(head)))
  }

  /** A worker reports. Job ids count from one, in the order of staging. */
  function RunWorker(p: State, id: nat, outcome: Result<Start, ()>): (q: State)
    requires id in p.b.workers
  {
    p.(b := B.Apply(p.b, B.WorkerDone(id, outcome)),
       proven := if outcome.Ok? && id > 0 then p.proven + {id - 1} else p.proven)
  }

  function Apply(p: State, step: Step): (q: State)
    requires Enabled(p, step)
  {
    match step
    case DetectorStep(x) => p.(d := D.Apply(p.d, x))
    case BridgeStep(x) =>
      (match x
       case ReceiveCommand => RunCommand(p)
       case WorkerDone(id, outcome) => RunWorker(p, id, outcome)
       case _ => p.(b := B.Apply(p.b, x)))
    case DeliverEmission =>
      p.(b := B.Apply(p.b, B.Finality(p.d.emitted[p.delivered].dual)), delivered := p.delivered + 1)
  }

  /** The starts the pipeline was given: its head and, on a restart, the output of a job in flight. */
  function Roots(p: State): (r: set<Start>) {
    {p.d.d.InForce()} + if p.d.d.next.Some? then {p.d.d.next.value} else {}
  }

  ghost predicate Initial(p: State) {
    && D.Initial(p.d) && B.Initial(p.b) && p.b.head.current == p.d.d.InForce()
    && p.delivered == 0 && p.staged == [] && p.proven == {}
  }

  ghost predicate IsRun(states: seq<State>, steps: seq<Step>) {
    && |states| == |steps| + 1 && Initial(states[0])
    && forall i | 0 <= i < |steps| :: Enabled(states[i], steps[i]) && states[i + 1] == Apply(states[i], steps[i])
  }

  // ---- where starts come from -----------------------------------------------------------------

  /** A start is known when the pipeline was given it or some staged window ends there. */
  ghost predicate Known(roots: set<Start>, staged: seq<ProofWindow>, x: Start) {
    x in roots || exists w | w in staged :: w.output == x
  }

  /** A window that was staged and proven ends there. */
  ghost predicate ProvenEnd(staged: seq<ProofWindow>, proven: set<nat>, x: Start) {
    exists j | 0 <= j < |staged| :: j in proven && staged[j].output == x
  }

  /** A window that was staged and proven ends at that slot. */
  ghost predicate ProvenSlot(staged: seq<ProofWindow>, proven: set<nat>, slot: U64) {
    exists j | 0 <= j < |staged| :: j in proven && staged[j].output.slot == slot
  }

  ghost predicate Settled(roots: set<Start>, staged: seq<ProofWindow>, proven: set<nat>, x: Start) {
    x in roots || ProvenEnd(staged, proven, x)
  }

  lemma SettledIsKnown(roots: set<Start>, staged: seq<ProofWindow>, proven: set<nat>)
    ensures forall x | Settled(roots, staged, proven, x) :: Known(roots, staged, x)
  {
  }

  lemma StartsGrow(roots: set<Start>, staged: seq<ProofWindow>, proven: set<nat>, w: ProofWindow)
    ensures forall x | Known(roots, staged, x) :: Known(roots, staged + [w], x)
    ensures Known(roots, staged + [w], w.output)
    ensures forall x | ProvenEnd(staged, proven, x) :: ProvenEnd(staged + [w], proven, x)
    ensures forall slot | ProvenSlot(staged, proven, slot) :: ProvenSlot(staged + [w], proven, slot)
  {
    var all := staged + [w];
    forall x | ProvenEnd(staged, proven, x)
      ensures ProvenEnd(all, proven, x)
    {
      var j :| 0 <= j < |staged| && j in proven && staged[j].output == x;
      assert all[j] == staged[j];
    }
    forall slot | ProvenSlot(staged, proven, slot)
      ensures ProvenSlot(all, proven, slot)
    {
      var j :| 0 <= j < |staged| && j in proven && staged[j].output.slot == slot;
      assert all[j] == staged[j];
    }
  }

  lemma ProofsGrow(staged: seq<ProofWindow>, proven: set<nat>, more: set<nat>)
    requires proven <= more
    ensures forall x | ProvenEnd(staged, proven, x) :: ProvenEnd(staged, more, x)
    ensures forall slot | ProvenSlot(staged, proven, slot) :: ProvenSlot(staged, more, slot)
  {
  }

  // ---- where windows come from ----------------------------------------------------------------

  ghost predicate WasCurrent(emitted: seq<D.Emission>, w: ProofWindow) {
    exists e | e in emitted :: e.dual.current == w
  }

  ghost predicate WasNext(emitted: seq<D.Emission>, w: ProofWindow) {
    exists e | e in emitted :: e.dual.next == Some(w)
  }

  lemma EmittedGrows(emitted: seq<D.Emission>, more: seq<D.Emission>)
    requires emitted <= more
    ensures forall w | WasCurrent(emitted, w) :: WasCurrent(more, w)
    ensures forall w | WasNext(emitted, w) :: WasNext(more, w)
  {
  }

  /** A window fit to be staged: emitted as a current one, or emitted as a next one and starting at a
      slot where a proven window ends. */
  ghost predicate Fit(emitted: seq<D.Emission>, staged: seq<ProofWindow>, proven: set<nat>, w: ProofWindow) {
    WasCurrent(emitted, w) || (WasNext(emitted, w) && ProvenSlot(staged, proven, w.input.slot))
  }

  // ---- the invariant --------------------------------------------------------------------------

  /** The inputs in force, now, in the advance queue and at every emission, are settled; every expected
      output the detector holds, was sent or used is known. */
  ghost predicate DetectorKnows(roots: set<Start>, staged: seq<ProofWindow>, proven: set<nat>, d: D.System) {
    && Settled(roots, staged, proven, d.d.InForce())
    && (forall u | u in d.advanceQueue :: Settled(roots, staged, proven, u))
    && (forall e | e in d.emitted :: Settled(roots, staged, proven, e.inForce))
    && (d.d.next.Some? ==> Known(roots, staged, d.d.next.value))
    && (forall u | u in d.stageQueue :: Known(roots, staged, u))
    && (forall e | e in d.emitted && e.next.Some? :: Known(roots, staged, e.next.value))
  }

  /** Every window announced to the bridge side, or cached there, came from the detector. */
  ghost predicate WindowsEmitted(emitted: seq<D.Emission>, b: B.System) {
    && (forall e | e in b.events && e.FinalityTransitionDetected? ::
          WasCurrent(emitted, e.inputs.current) && (e.inputs.next.Some? ==> WasNext(emitted, e.inputs.next.value)))
    && (b.observer.latestCurrent.Some? ==> WasCurrent(emitted, b.observer.latestCurrent.value))
    && (b.observer.latestNext.Some? ==> WasNext(emitted, b.observer.latestNext.value))
  }

  /** Windows on their way to be staged are fit, and heads on their way to be advanced to are proven. */
  ghost predicate CommandsGrounded(emitted: seq<D.Emission>, staged: seq<ProofWindow>, proven: set<nat>, b: B.System) {
    && (forall c | c in b.commands && c.StageTransitionProof? :: Fit(emitted, staged, proven, c.inputs))
    && (forall c | c in b.commands && c.Advance? :: ProvenEnd(staged, proven, c.head))
    && (forall e | e in b.events && e.ProofMessage? :: ProvenEnd(staged, proven, e.output))
    && (forall r | r in b.results && r.outcome.Ok? :: ProvenEnd(staged, proven, r.outcome.value))
  }

  /** Job ids count the staged windows, and a registered job holds the window of its position. */
  ghost predicate JobsStaged(staged: seq<ProofWindow>, proven: set<nat>, head: B.HeadState) {
    && head.jobId == |staged| && (forall j | j in proven :: j < |staged|)
    && (forall id | id in head.proverJobs :: 0 < id <= |staged| && head.proverJobs[id] == staged[id - 1])
  }

  /** Each staged window ends beyond its input slot and starts, slot, store hash and cursor alike, at a
      root or where an earlier staged window ends. */
  ghost predicate Lineage(roots: set<Start>, staged: seq<ProofWindow>) {
    forall k | 0 <= k < |staged| ::
      staged[k].output.slot > staged[k].input.slot && Known(roots, staged[..k], staged[k].input)
  }

  /** A window starts at a root or where an earlier window, staged and proven, ends; or else it is a next
      window, and one of those ends at least at its slot. */
  ghost predicate Grounded(roots: set<Start>, emitted: seq<D.Emission>, before: seq<ProofWindow>, proven: set<nat>,
                           w: ProofWindow) {
    Settled(roots, before, proven, w.input) || (WasNext(emitted, w) && ProvenSlot(before, proven, w.input.slot))
  }

  ghost predicate AllGrounded(roots: set<Start>, emitted: seq<D.Emission>, staged: seq<ProofWindow>, proven: set<nat>) {
    forall k | 0 <= k < |staged| :: Grounded(roots, emitted, staged[..k], proven, staged[k])
  }

  ghost predicate Invariant(roots: set<Start>, p: State) {
    && D.Invariant(p.d) && B.Invariant(p.b) && p.delivered <= |p.d.emitted|
    && DetectorKnows(roots, p.staged, p.proven, p.d)
    && WindowsEmitted(p.d.emitted, p.b)
    && CommandsGrounded(p.d.emitted, p.staged, p.proven, p.b)
    && JobsStaged(p.staged, p.proven, p.b.head)
    && Lineage(roots, p.staged) && AllGrounded(roots, p.d.emitted, p.staged, p.proven)
  }

  // ---- detector steps -------------------------------------------------------------------------

  lemma DetectorStepKnows(roots: set<Start>, staged: seq<ProofWindow>, proven: set<nat>, d: D.System, x: D.Step)
    requires DetectorKnows(roots, staged, proven, d) && !x.SendStage? && !x.SendAdvance? && D.Enabled(d, x)
    ensures DetectorKnows(roots, staged, proven, D.Apply(d, x)) && d.emitted <= D.Apply(d, x).emitted
  {
  }

  lemma EmissionKeepsBridge(roots: set<Start>, emitted: seq<D.Emission>, more: seq<D.Emission>,
                            staged: seq<ProofWindow>, proven: set<nat>, b: B.System)
    requires emitted <= more && WindowsEmitted(emitted, b) && CommandsGrounded(emitted, staged, proven, b)
    requires AllGrounded(roots, emitted, staged, proven)
    ensures WindowsEmitted(more, b) && CommandsGrounded(more, staged, proven, b)
    ensures AllGrounded(roots, more, staged, proven)
  {
    EmittedGrows(emitted, more);
    forall k | 0 <= k < |staged|
      ensures Grounded(roots, more, staged[..k], proven, staged[k])
    {
      assert Grounded(roots, emitted, staged[..k], proven, staged[k]);
    }
  }

  lemma DetectorStepKeepsInvariant(roots: set<Start>, p: State, x: D.Step)
    requires Invariant(roots, p) && Enabled(p, DetectorStep(x))
    ensures Invariant(roots, Apply(p, DetectorStep(x)))
  {
    D.StepKeepsInvariant(p.d, x);
    DetectorStepKnows(roots, p.staged, p.proven, p.d, x);
    EmissionKeepsBridge(roots, p.d.emitted, D.Apply(p.d, x).emitted, p.staged, p.proven, p.b);
  }

  lemma DeliveryKeepsWindows(emitted: seq<D.Emission>, staged: seq<ProofWindow>, proven: set<nat>, b: B.System, i: nat)
    requires WindowsEmitted(emitted, b) && CommandsGrounded(emitted, staged, proven, b) && i < |emitted|
    ensures var c := B.Apply(b, B.Finality(emitted[i].dual));
            WindowsEmitted(emitted, c) && CommandsGrounded(emitted, staged, proven, c)
  {
  }

  lemma DeliveryKeepsInvariant(roots: set<Start>, p: State)
    requires Invariant(roots, p) && p.delivered < |p.d.emitted|
    ensures Invariant(roots, Apply(p, DeliverEmission))
  {
    B.StepKeepsInvariant(p.b, B.Finality(p.d.emitted[p.delivered].dual));
    DeliveryKeepsWindows(p.d.emitted, p.staged, p.proven, p.b, p.delivered);
  }

  // ---- events, results and workers ------------------------------------------------------------

  /** Handling an event moves windows between the event, the caches and the commands. */
  lemma EventKeepsWindows(emitted: seq<D.Emission>, b: B.System)
    requires WindowsEmitted(emitted, b) && b.events != []
    ensures WindowsEmitted(emitted, B.RunEvent(b))
  {
    assert b.events[0] in b.events;
  }

  /** What the observer sends is grounded: the cached current window, the one just announced, or, on a
      proof, the cached next window, which the observer checks against the slot proven. */
  lemma SentIsGrounded(emitted: seq<D.Emission>, staged: seq<ProofWindow>, proven: set<nat>, b: B.System, c: B.Command)
    requires WindowsEmitted(emitted, b) && CommandsGrounded(emitted, staged, proven, b)
    requires b.events != [] && c in B.AfterEvent(b.observer, b.events[0]).sent
    ensures c.StageTransitionProof? ==> Fit(emitted, staged, proven, c.inputs)
    ensures c.Advance? ==> ProvenEnd(staged, proven, c.head)
  {
    assert b.events[0] in b.events;
  }

  lemma EventKeepsCommands(emitted: seq<D.Emission>, staged: seq<ProofWindow>, proven: set<nat>, b: B.System)
    requires WindowsEmitted(emitted, b) && CommandsGrounded(emitted, staged, proven, b) && b.events != []
    ensures CommandsGrounded(emitted, staged, proven, B.RunEvent(b))
  {
    var sent := B.AfterEvent(b.observer, b.events[0]).sent;
    forall c | c in sent
      ensures c.StageTransitionProof? ==> Fit(emitted, staged, proven, c.inputs)
      ensures c.Advance? ==> ProvenEnd(staged, proven, c.head)
    {
      SentIsGrounded(emitted, staged, proven, b, c);
    }
  }

  lemma EventKeepsInvariant(roots: set<Start>, p: State)
    requires Invariant(roots, p) && p.b.events != []
    ensures Invariant(roots, p.(b := B.Apply(p.b, B.ReceiveEvent)))
  {
    B.StepKeepsInvariant(p.b, B.ReceiveEvent);
    EventKeepsWindows(p.d.emitted, p.b);
    EventKeepsCommands(p.d.emitted, p.staged, p.proven, p.b);
  }

  lemma ResultKeepsWindows(emitted: seq<D.Emission>, staged: seq<ProofWindow>, proven: set<nat>, b: B.System)
    requires WindowsEmitted(emitted, b) && CommandsGrounded(emitted, staged, proven, b) && b.results != []
    ensures WindowsEmitted(emitted, B.RunResult(b)) && CommandsGrounded(emitted, staged, proven, B.RunResult(b))
  {
    assert b.results[0] in b.results;
  }

  lemma ResultKeepsInvariant(roots: set<Start>, p: State)
    requires Invariant(roots, p) && p.b.results != []
    ensures Invariant(roots, p.(b := B.Apply(p.b, B.ReceiveResult)))
  {
    B.StepKeepsInvariant(p.b, B.ReceiveResult);
    ResultKeepsWindows(p.d.emitted, p.staged, p.proven, p.b);
  }

  lemma ProofKeepsGround(roots: set<Start>, d: D.System, b: B.System, staged: seq<ProofWindow>, proven: set<nat>,
                         more: set<nat>)
    requires proven <= more && DetectorKnows(roots, staged, proven, d)
    requires CommandsGrounded(d.emitted, staged, proven, b) && AllGrounded(roots, d.emitted, staged, proven)
    ensures DetectorKnows(roots, staged, more, d)
    ensures CommandsGrounded(d.emitted, staged, more, b) && AllGrounded(roots, d.emitted, staged, more)
  {
    ProofsGrow(staged, proven, more);
    forall k | 0 <= k < |staged|
      ensures Grounded(roots, d.emitted, staged[..k], more, staged[k])
    {
      assert Grounded(roots, d.emitted, staged[..k], proven, staged[k]);
      ProofsGrow(staged[..k], proven, more);
    }
  }

  lemma ProofIsRecorded(staged: seq<ProofWindow>, proven: set<nat>, b: B.System, id: nat, outcome: Result<Start, ()>,
                        more: set<nat>)
    requires JobsStaged(staged, proven, b.head) && id in b.head.proverJobs && CommitsItsWindow(b, id, outcome)
    requires more == if outcome.Ok? && id > 0 then proven + {id - 1} else proven
    ensures JobsStaged(staged, more, b.head)
    ensures outcome.Ok? ==> ProvenEnd(staged, more, outcome.value)
  {
    assert staged[id - 1] == b.head.proverJobs[id];
  }

  lemma WorkerKeepsCommands(emitted: seq<D.Emission>, staged: seq<ProofWindow>, proven: set<nat>, b: B.System,
                            id: nat, outcome: Result<Start, ()>)
    requires CommandsGrounded(emitted, staged, proven, b) && id in b.workers
    requires outcome.Ok? ==> ProvenEnd(staged, proven, outcome.value)
    ensures CommandsGrounded(emitted, staged, proven, B.Apply(b, B.WorkerDone(id, outcome)))
  {
  }

  lemma WorkerKeepsInvariant(roots: set<Start>, p: State, id: nat, outcome: Result<Start, ()>)
    requires Invariant(roots, p) && id in p.b.workers && CommitsItsWindow(p.b, id, outcome)
    ensures Invariant(roots, RunWorker(p, id, outcome))
  {
    B.StepKeepsInvariant(p.b, B.WorkerDone(id, outcome));
    var more := RunWorker(p, id, outcome).proven;
    ProofIsRecorded(p.staged, p.proven, p.b, id, outcome, more);
    ProofKeepsGround(roots, p.d, p.b, p.staged, p.proven, more);
    WorkerKeepsCommands(p.d.emitted, p.staged, more, p.b, id, outcome);
  }

  // ---- commands -------------------------------------------------------------------------------

  /** An emitted window was computed from inputs in force at its emission: a fit one is grounded, starts
      at a known start and makes progress. */
  lemma FitIsGrounded(roots: set<Start>, staged: seq<ProofWindow>, proven: set<nat>, d: D.System, w: ProofWindow)
    requires (forall e | e in d.emitted :: D.SoundEmission(e)) && DetectorKnows(roots, staged, proven, d)
    requires Fit(d.emitted, staged, proven, w)
    ensures Grounded(roots, d.emitted, staged, proven, w)
    ensures Known(roots, staged, w.input) && w.output.slot > w.input.slot
  {
    SettledIsKnown(roots, staged, proven);
  }

  lemma StagedGrows(roots: set<Start>, emitted: seq<D.Emission>, staged: seq<ProofWindow>, proven: set<nat>,
                    w: ProofWindow)
    requires Lineage(roots, staged) && AllGrounded(roots, emitted, staged, proven)
    requires Known(roots, staged, w.input) && w.output.slot > w.input.slot
    requires Grounded(roots, emitted, staged, proven, w)
    ensures Lineage(roots, staged + [w]) && AllGrounded(roots, emitted, staged + [w], proven)
  {
    var all := staged + [w];
    forall k | 0 <= k < |all|
      ensures all[k].output.slot > all[k].input.slot && Known(roots, all[..k], all[k].input)
      ensures Grounded(roots, emitted, all[..k], proven, all[k])
    {
      assert all[..k] == staged[..k];
      assert staged[..|staged|] == staged;
    }
  }

  lemma DetectorLearns(roots: set<Start>, staged: seq<ProofWindow>, proven: set<nat>, d: D.System, w: ProofWindow)
    requires DetectorKnows(roots, staged, proven, d)
    ensures DetectorKnows(roots, staged + [w], proven, D.Apply(d, D.SendStage(w.output)))
  {
    StartsGrow(roots, staged, proven, w);
  }

  lemma StagingKeepsCommands(emitted: seq<D.Emission>, staged: seq<ProofWindow>, proven: set<nat>, b: B.System,
                             w: ProofWindow)
    requires WindowsEmitted(emitted, b) && CommandsGrounded(emitted, staged, proven, b)
    requires JobsStaged(staged, proven, b.head)
    requires b.commands != [] && b.commands[0] == B.StageTransitionProof(w)
    ensures WindowsEmitted(emitted, B.RunCommand(b)) && CommandsGrounded(emitted, staged + [w], proven, B.RunCommand(b))
    ensures JobsStaged(staged + [w], proven, B.RunCommand(b).head)
  {
    StartsGrow({}, staged, proven, w);
  }

  lemma StagingKeepsInvariant(roots: set<Start>, p: State, w: ProofWindow)
    requires Invariant(roots, p) && p.b.commands != [] && p.b.commands[0] == B.StageTransitionProof(w)
    ensures Invariant(roots, RunCommand(p))
  {
    B.StepKeepsInvariant(p.b, B.ReceiveCommand);
    D.StepKeepsInvariant(p.d, D.SendStage(w.output));
    assert p.b.commands[0] in p.b.commands && Fit(p.d.emitted, p.staged, p.proven, w);
    FitIsGrounded(roots, p.staged, p.proven, p.d, w);
    StagedGrows(roots, p.d.emitted, p.staged, p.proven, w);
    DetectorLearns(roots, p.staged, p.proven, p.d, w);
    StagingKeepsCommands(p.d.emitted, p.staged, p.proven, p.b, w);
  }

  lemma AdvancingKeepsStarts(roots: set<Start>, staged: seq<ProofWindow>, proven: set<nat>, d: D.System, b: B.System,
                             head: Start)
    requires DetectorKnows(roots, staged, proven, d)
    requires WindowsEmitted(d.emitted, b) && CommandsGrounded(d.emitted, staged, proven, b)
    requires b.commands != [] && b.commands[0] == B.Advance(head)
    ensures DetectorKnows(roots, staged, proven, D.Apply(d, D.SendAdvance(head)))
    ensures WindowsEmitted(d.emitted, B.RunCommand(b)) && CommandsGrounded(d.emitted, staged, proven, B.RunCommand(b))
  {
    assert b.commands[0] in b.commands;
  }

  lemma AdvancingKeepsInvariant(roots: set<Start>, p: State, head: Start)
    requires Invariant(roots, p) && p.b.commands != [] && p.b.commands[0] == B.Advance(head)
    ensures Invariant(roots, RunCommand(p))
  {
    B.StepKeepsInvariant(p.b, B.ReceiveCommand);
    D.StepKeepsInvariant(p.d, D.SendAdvance(head));
    AdvancingKeepsStarts(roots, p.staged, p.proven, p.d, p.b, head);
  }

  lemma StepKeepsInvariant(roots: set<Start>, p: State, step: Step)
    requires Invariant(roots, p) && Enabled(p, step)
    ensures Invariant(roots, Apply(p, step))
  {
    match step
    case DetectorStep(x) => DetectorStepKeepsInvariant(roots, p, x);
    case DeliverEmission => DeliveryKeepsInvariant(roots, p);
    case BridgeStep(x) =>
      match x
      case ReceiveCommand =>
        if p.b.commands[0].Advance? {
          AdvancingKeepsInvariant(roots, p, p.b.commands[0].head);
        } else {
          StagingKeepsInvariant(roots, p, p.b.commands[0].inputs);
        }
      case ReceiveResult => ResultKeepsInvariant(roots, p);
      case ReceiveEvent => EventKeepsInvariant(roots, p);
      case WorkerDone(id, outcome) => WorkerKeepsInvariant(roots, p, id, outcome);
  }

  lemma InitialKeepsInvariant(p: State)
    requires Initial(p)
    ensures Invariant(Roots(p), p)
  {
    B.RunsKeepInvariant([p.b], [], 0);
    D.RunsKeepInvariant([p.d], [], 0);
  }

  lemma {:induction false} RunsKeepInvariant(states: seq<State>, steps: seq<Step>, i: nat)
    requires IsRun(states, steps) && i < |states|
    ensures Invariant(Roots(states[0]), states[i])
  {
    if i == 0 {
      InitialKeepsInvariant(states[0]);
    } else {
      RunsKeepInvariant(states, steps, i - 1);
      StepKeepsInvariant(Roots(states[0]), states[i - 1], steps[i - 1]);
    }
  }

  lemma RunsKeepCommands(states: seq<State>, steps: seq<Step>, i: nat)
    requires IsRun(states, steps) && i < |states|
    ensures var p := states[i]; CommandsGrounded(p.d.emitted, p.staged, p.proven, p.b)
  {
    RunsKeepInvariant(states, steps, i);
  }

  lemma RunsKeepBridge(states: seq<State>, steps: seq<Step>, i: nat)
    requires IsRun(states, steps) && i < |states|
    ensures B.Invariant(states[i].b)
  {
    RunsKeepInvariant(states, steps, i);
  }

  // ---- results --------------------------------------------------------------------------------

  /** In every state of every run: at most one prover job is live and nothing has aborted; a job's window
      is the staged one of its position; every emission is sound; and every window ever staged starts at
      a root or where an earlier window, staged and proven, ends, or else is a next window whose slot,
      though perhaps not whose store hash and cursor, is one where an earlier proven window ends. */
  lemma RunsProveGroundedWindows(states: seq<State>, steps: seq<Step>, i: nat)
    requires IsRun(states, steps) && i < |states|
    ensures var p := states[i];
            && |p.b.head.proverJobs| <= 1 && !p.b.aborted
            && (forall id | id in p.b.head.proverJobs ::
                  0 < id <= |p.staged| && p.b.head.proverJobs[id] == p.staged[id - 1])
            && (forall e | e in p.d.emitted :: D.SoundEmission(e))
            && Lineage(Roots(states[0]), p.staged)
            && AllGrounded(Roots(states[0]), p.d.emitted, p.staged, p.proven)
  {
    RunsKeepInvariant(states, steps, i);
  }

  /** In every run, a proof message carries the end of a proven window. On it the observer advances to
      that end and stages the cached next window exactly when that window starts at the same slot; the
      staged window is contiguous, store hash and cursor included, exactly when the two are equal. */
  lemma ProofStagesByTheSlot(states: seq<State>, steps: seq<Step>, i: nat, output: Start)
    requires IsRun(states, steps) && i < |steps| && steps[i] == BridgeStep(B.ReceiveEvent)
    requires states[i].b.events[0] == B.ProofMessage(output)
    ensures var p, next := states[i], states[i].b.observer.latestNext;
            var sent := states[i + 1].b.commands;
            && ProvenEnd(p.staged, p.proven, output)
            && (next.Some? && next.value.input.slot == output.slot
                ==> sent == [B.Advance(output), B.StageTransitionProof(next.value)] && WasNext(p.d.emitted, next.value))
            && (next.None? || next.value.input.slot != output.slot ==> sent == [B.Advance(output)])
            && (forall w | B.StageTransitionProof(w) in sent :: w.input == output <==> next.value.input == output)
  {
    RunsKeepInvariant(states, steps, i);
    var p := states[i];
    assert p.b.events[0] in p.b.events;
    B.CommandsEmpty(p.b);
  }

  /** Without a failed job the exception disappears: in every run, when all windows before it were proven,
      a staged window starts exactly at a root or at the end of one of them. */
  lemma NoFailureNoGap(states: seq<State>, steps: seq<Step>, i: nat, k: nat)
    requires IsRun(states, steps) && i < |states| && k < |states[i].staged|
    requires forall j | 0 <= j < k :: j in states[i].proven
    ensures Settled(Roots(states[0]), states[i].staged[..k], states[i].proven, states[i].staged[k].input)
  {
    RunsProveGroundedWindows(states, steps, i);
    var roots, staged, proven := Roots(states[0]), states[i].staged, states[i].proven;
    assert Known(roots, staged[..k], staged[k].input);
    if staged[k].input !in roots {
      var w :| w in staged[..k] && w.output == staged[k].input;
      var j :| 0 <= j < k && staged[..k][j] == w;
      assert j in proven;
    }
  }

  // ---- chains ---------------------------------------------------------------------------------

  /** A chain of staged windows, by position, from a root to window `k`. */
  ghost predicate IsChain(roots: set<Start>, staged: seq<ProofWindow>, chain: seq<nat>, k: nat) {
    && chain != [] && chain[|chain| - 1] == k && (forall m | 0 <= m < |chain| :: chain[m] < |staged|)
    && staged[chain[0]].input in roots
    && (forall m | 0 < m < |chain| :: Follows(staged, chain[m - 1], chain[m]))
  }

  /** Window `j` was staged later than window `i` and starts exactly where it ends. */
  predicate Follows(staged: seq<ProofWindow>, i: nat, j: nat)
    requires i < |staged| && j < |staged|
  {
    i < j && staged[j].input == staged[i].output
  }

  /** Every window staged in any run is the end of a chain of staged windows that begins at a root and
      in which each window starts at the slot, store hash and cursor where the one before it ends. */
  lemma {:induction false} StagedWindowHasChain(roots: set<Start>, staged: seq<ProofWindow>, k: nat)
    returns (chain: seq<nat>)
    requires Lineage(roots, staged) && k < |staged|
    ensures IsChain(roots, staged, chain, k)
    decreases k
  {
    assert Known(roots, staged[..k], staged[k].input);
    if staged[k].input in roots {
      chain := [k];
    } else {
      var w :| w in staged[..k] && w.output == staged[k].input;
      var j :| 0 <= j < k && staged[..k][j] == w;
      var before := StagedWindowHasChain(roots, staged, j);
      chain := before + [k];
      assert Follows(staged, j, k);
    }
  }

  /** Window `i` was proven, window `j` was staged later and starts at the slot where it ends: exactly
      where it ends, unless it was a next window. */
  ghost predicate Succeeds(emitted: seq<D.Emission>, staged: seq<ProofWindow>, proven: set<nat>, i: nat, j: nat)
    requires i < |staged| && j < |staged|
  {
    && i < j && i in proven && staged[j].input.slot == staged[i].output.slot
    && (staged[j].input == staged[i].output || WasNext(emitted, staged[j]))
  }

  /** A chain of windows, all proven but perhaps the last, from a root to window `k`. */
  ghost predicate IsProvenChain(roots: set<Start>, emitted: seq<D.Emission>, staged: seq<ProofWindow>,
                                proven: set<nat>, chain: seq<nat>, k: nat) {
    && chain != [] && chain[|chain| - 1] == k && (forall m | 0 <= m < |chain| :: chain[m] < |staged|)
    && staged[chain[0]].input in roots
    && (forall m | 0 < m < |chain| :: Succeeds(emitted, staged, proven, chain[m - 1], chain[m]))
  }

  /** Every window staged in any run is the end of a chain through proven windows that begins at a root
      and in which each window starts at the slot where the one before it ends. */
  lemma {:induction false} StagedWindowHasProvenChain(roots: set<Start>, emitted: seq<D.Emission>,
                                                      staged: seq<ProofWindow>, proven: set<nat>, k: nat)
    returns (chain: seq<nat>)
    requires AllGrounded(roots, emitted, staged, proven) && k < |staged|
    ensures IsProvenChain(roots, emitted, staged, proven, chain, k)
    decreases k
  {
    assert Grounded(roots, emitted, staged[..k], proven, staged[k]);
    if staged[k].input in roots {
      chain := [k];
    } else {
      var j := GroundOf(roots, emitted, staged, proven, k);
      var before := StagedWindowHasProvenChain(roots, emitted, staged, proven, j);
      chain := before + [k];
      assert Succeeds(emitted, staged, proven, j, k);
    }
  }

  lemma GroundOf(roots: set<Start>, emitted: seq<D.Emission>, staged: seq<ProofWindow>, proven: set<nat>, k: nat)
    returns (j: nat)
    requires k < |staged| && Grounded(roots, emitted, staged[..k], proven, staged[k]) && staged[k].input !in roots
    ensures j < k && Succeeds(emitted, staged, proven, j, k)
  {
    var before, x := staged[..k], staged[k].input;
    if ProvenEnd(before, proven, x) {
      j :| 0 <= j < |before| && j in proven && before[j].output == x;
    } else {
      j :| 0 <= j < |before| && j in proven && before[j].output.slot == x.slot;
    }
  }

  /** Every window staged in any run ends such a chain. */
  lemma RunsHaveProvenChains(states: seq<State>, steps: seq<Step>, i: nat, k: nat) returns (chain: seq<nat>)
    requires IsRun(states, steps) && i < |states| && k < |states[i].staged|
    ensures var p := states[i]; IsProvenChain(Roots(states[0]), p.d.emitted, p.staged, p.proven, chain, k)
  {
    RunsProveGroundedWindows(states, steps, i);
    var p := states[i];
    chain := StagedWindowHasProvenChain(Roots(states[0]), p.d.emitted, p.staged, p.proven, k);
  }

  // ---- from preparation to staging ------------------------------------------------------------

  /** If the step is the actor's reply, every window prepared for it has the property. */
  predicate ReplyHas(ok: ProofWindow -> bool, p: State, step: Step)
    requires Enabled(p, step)
  {
    step.DetectorStep? && step.dStep.ActorReply? ==>
      && (step.dStep.current.Ok? ==> ok(step.dStep.current.value))
      && (step.dStep.next.Ok? && p.d.working.value.next.Some? ==> ok(step.dStep.next.value))
  }

  ghost predicate RepliesHave(ok: ProofWindow -> bool, states: seq<State>, steps: seq<Step>)
    requires IsRun(states, steps)
  {
    forall i | 0 <= i < |steps| :: ReplyHas(ok, states[i], steps[i])
  }

  predicate DualHas(ok: ProofWindow -> bool, dual: Dual) {
    ok(dual.current) && (dual.next.Some? ==> ok(dual.next.value))
  }

  ghost predicate DetectorHas(ok: ProofWindow -> bool, d: D.System) {
    && (forall r | r in d.results && r.Ok? :: DualHas(ok, r.value))
    && (forall e | e in d.emitted :: DualHas(ok, e.dual))
  }

  lemma DetectorKeeps(ok: ProofWindow -> bool, p: State, step: Step)
    requires DetectorHas(ok, p.d) && Enabled(p, step) && ReplyHas(ok, p, step)
    ensures DetectorHas(ok, Apply(p, step).d)
  {
    if step == DetectorStep(D.ReceiveResult) {
      assert p.d.results[0] in p.d.results;
    }
  }

  ghost predicate StagedHave(ok: ProofWindow -> bool, staged: seq<ProofWindow>) {
    forall w | w in staged :: ok(w)
  }

  /** What is staged was emitted, and what was emitted has the property. */
  lemma StagingKeeps(ok: ProofWindow -> bool, p: State, w: ProofWindow)
    requires DetectorHas(ok, p.d) && StagedHave(ok, p.staged)
    requires CommandsGrounded(p.d.emitted, p.staged, p.proven, p.b)
    requires p.b.commands != [] && p.b.commands[0] == B.StageTransitionProof(w)
    ensures StagedHave(ok, RunCommand(p).staged)
  {
    assert p.b.commands[0] in p.b.commands && Fit(p.d.emitted, p.staged, p.proven, w);
  }

  lemma StepKeepsPrepared(ok: ProofWindow -> bool, p: State, step: Step)
    requires DetectorHas(ok, p.d) && StagedHave(ok, p.staged)
    requires CommandsGrounded(p.d.emitted, p.staged, p.proven, p.b)
    requires Enabled(p, step) && ReplyHas(ok, p, step)
    ensures DetectorHas(ok, Apply(p, step).d) && StagedHave(ok, Apply(p, step).staged)
  {
    DetectorKeeps(ok, p, step);
    if step == BridgeStep(B.ReceiveCommand) && p.b.commands[0].StageTransitionProof? {
      StagingKeeps(ok, p, p.b.commands[0].inputs);
    }
  }

  /** Every window staged in any run was prepared by the actor in that run: whatever holds of every window
      the actor's replies carry holds of every staged one. */
  lemma {:induction false} StagedWerePrepared(ok: ProofWindow -> bool, states: seq<State>, steps: seq<Step>, i: nat)
    requires IsRun(states, steps) && RepliesHave(ok, states, steps) && i < |states|
    ensures DetectorHas(ok, states[i].d) && StagedHave(ok, states[i].staged)
  {
    if i > 0 {
      StagedWerePrepared(ok, states, steps, i - 1);
      RunsKeepCommands(states, steps, i - 1);
      assert ReplyHas(ok, states[i - 1], steps[i - 1]);
      StepKeepsPrepared(ok, states[i - 1], steps[i - 1]);
    }
  }
}
