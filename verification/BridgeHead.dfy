/** The bridge head, its prover workers and the observer that drives it, as a state machine over the
    command, job-result and event channels. */
module BridgeHead {
  import opened ByteCodec
  import opened Windows
  import opened Histories
  import opened ProofOutputsCodec

  // ---- messages -------------------------------------------------------------------------------

  datatype Command = StageTransitionProof(inputs: ProofWindow) | Advance(head: Start)

  datatype Event =
    | Started(current: Start)
    | JobCreated(jobId: nat, expectedOutputSlot: U64)
    | JobSucceeded(jobId: nat)
    | JobFailed(jobId: nat, jobsInBuffer: nat)
    | FinalityTransitionDetected(inputs: Dual)
    | HeadAdvanced(head: Start)
    | ProofMessage(output: Start)

  /** What a worker reports: the state its proof commits, or a failure. */
  datatype JobResult = JobResult(jobId: nat, outcome: Result<Start, ()>)

  /** The state a proof's public values commit, as the proof message passes it on. */
  function ProvenStart(o: ProofOutputs): (s: Start) {
    Start(o.outputSlot, o.outputStoreHash, o.outputQueueCursor)
  }

  // ---- the bridge head ------------------------------------------------------------------------

  datatype HeadState = HeadState(current: Start, nextSlot: U64, jobId: nat, proverJobs: map<nat, ProofWindow>)

  function AfterStaging(s: HeadState, w: ProofWindow): (t: HeadState) {
    s.(jobId := s.jobId + 1, proverJobs := s.proverJobs[s.jobId + 1 := w])
  }

  function AfterJob(s: HeadState, id: nat): (t: HeadState) {
    s.(proverJobs := s.proverJobs - {id})
  }

  function JobEvents(s: HeadState, r: JobResult): (es: seq<Event>) {
    match r.outcome
    case Ok(output) => [JobSucceeded(r.jobId), ProofMessage(output)]
    case Err(_) => [JobFailed(r.jobId, |AfterJob(s, r.jobId).proverJobs|)]
  }

  /** Handlers of the bridge head's event loop. Events it emits are returned in order. */
  class BridgeHead {
    var currentSlot: U64
    var nextSlot: U64
    var storeHash: B256
    var queueCursor: nat
    var jobId: nat
    var proverJobs: map<nat, ProofWindow>

    function View(): (s: HeadState)
      reads this
    {
      HeadState(Start(currentSlot, storeHash, queueCursor), nextSlot, jobId, proverJobs)
    }

    constructor (start: Start, latestBeaconSlot: U64)
      ensures View() == HeadState(start, latestBeaconSlot, 0, map[])
    {
      currentSlot, storeHash, queueCursor := start.slot, start.storeHash, start.cursor;
      nextSlot, jobId, proverJobs := latestBeaconSlot, 0, map[];
    }

    /** Registers a job under a fresh id, spawns its worker and registers its expected output with the
        detector. */
    method StageTransitionProof(w: ProofWindow) returns (spawned: nat, toDetector: Start, events: seq<Event>)
      modifies this
      ensures View() == AfterStaging(old(View()), w)
      ensures jobId == old(jobId) + 1 && proverJobs == old(proverJobs)[jobId := w]
      ensures spawned == old(jobId) + 1 && toDetector == w.output
      ensures events == [JobCreated(spawned, old(nextSlot))]
    {
      jobId := jobId + 1;
      spawned := jobId;
      proverJobs := proverJobs[jobId := w];
      toDetector := w.output;
      events := [JobCreated(jobId, nextSlot)];
    }

    /** The job map is unwrapped, so the job must be registered. Public values that do not decode are an
        error, which ends the loop; the job is gone by then and nothing is emitted. */
    method HandleProverSuccess(id: nat, publicValues: seq<Byte>) returns (r: Result<seq<Event>, CodecError>)
      requires id in proverJobs
      modifies this
      ensures View() == AfterJob(old(View()), id)
      ensures proverJobs == old(proverJobs) - {id}
      ensures r.Ok? <==> |publicValues| == SIZE
      ensures r.Ok? ==>
                var o := FromBytes(publicValues).value;
                r.value == [JobSucceeded(id), ProofMessage(Start(o.outputSlot, o.outputStoreHash, o.outputQueueCursor))]
      ensures r.Ok? ==>
                r.value == JobEvents(old(View()), JobResult(id, Ok(ProvenStart(FromBytes(publicValues).value))))
    {
      proverJobs := proverJobs - {id};
      var decoded := FromBytes(publicValues);
      if decoded.Err? {
        return Err(decoded.error);
      }
      var outputs := decoded.value;
      var events := [JobSucceeded(id)];
      events := events + [ProofMessage(Start(outputs.outputSlot, outputs.outputStoreHash, outputs.outputQueueCursor))];
      r := Ok(events);
    }

    method HandleProverFailure(id: nat) returns (events: seq<Event>)
      requires id in proverJobs
      modifies this
      ensures View() == AfterJob(old(View()), id)
      ensures events == JobEvents(old(View()), JobResult(id, Err(())))
      ensures proverJobs == old(proverJobs) - {id} && events == [JobFailed(id, |proverJobs|)]
    {
      proverJobs := proverJobs - {id};
      events := [JobFailed(id, |proverJobs|)];
    }

    method AdvanceHead(head: Start) returns (toDetector: Start, events: seq<Event>)
      modifies this
      ensures View() == old(View()).(current := head)
      ensures toDetector == head && events == [HeadAdvanced(head)]
    {
      toDetector := head;
      currentSlot, storeHash, queueCursor := head.slot, head.storeHash, head.cursor;
      events := [HeadAdvanced(head)];
    }

    method OnBeaconFinalityChange(inputs: Dual) returns (events: seq<Event>)
      modifies this
      ensures View() == old(View()).(nextSlot := inputs.current.output.slot)
      ensures events == [FinalityTransitionDetected(inputs)]
    {
      events := [FinalityTransitionDetected(inputs)];
      nextSlot := inputs.current.output.slot;
    }
  }

  // ---- the observer ---------------------------------------------------------------------------

  datatype ObserverState = ObserverState(
    started: bool, current: Start, staging: bool, latestCurrent: Option<ProofWindow>, latestNext: Option<ProofWindow>)

  datatype Observed = Observed(state: ObserverState, sent: seq<Command>, aborted: bool)

  function AfterEvent(o: ObserverState, e: Event): (r: Observed) {
    match e
    case ProofMessage(output) =>
      var moved := o.(current := output);
      if o.latestNext.Some? && o.latestNext.value.input.slot == output.slot
      then Observed(moved, [Advance(output), StageTransitionProof(o.latestNext.value)], false)
      else Observed(moved.(staging := true), [Advance(output)], false)
    case Started(start) =>
      // The cursor of the notice is not copied.
      Observed(o.(started := true, current := start.(cursor := o.current.cursor), staging := true), [], false)
    case JobFailed(_, jobsInBuffer) =>
      if jobsInBuffer != 0 then Observed(o, [], false)
      else if o.latestCurrent.Some? then Observed(o, [StageTransitionProof(o.latestCurrent.value)], false)
      else Observed(o, [], true)
    case FinalityTransitionDetected(inputs) =>
      var cached := o.(latestCurrent := Some(inputs.current), latestNext := inputs.next);
      if o.staging then Observed(cached.(staging := false), [StageTransitionProof(inputs.current)], false)
      else Observed(cached, [], false)
    case _ => Observed(o, [], false)
  }

  /** A window staged on a proof starts at the slot the proof ends at, and follows its advance; a window
      staged on a finality change is the current window just announced; a retry is the last current
      window announced. Nothing else stages. */
  lemma StagedWindowFits(o: ObserverState, e: Event, w: ProofWindow)
    requires StageTransitionProof(w) in AfterEvent(o, e).sent
    ensures match e
            case ProofMessage(output) =>
              && Some(w) == o.latestNext && w.input.slot == output.slot
              && AfterEvent(o, e).sent == [Advance(output), StageTransitionProof(w)]
            case FinalityTransitionDetected(inputs) =>
              o.staging && w == inputs.current && !AfterEvent(o, e).state.staging
            case JobFailed(_, jobsInBuffer) => jobsInBuffer == 0 && Some(w) == o.latestCurrent
            case _ => false
  {
  }

  /** The reference observer. Commands it sends are returned in order; `aborted` is its panic. */
  class Observer {
    var started: bool
    var currentSlot: U64
    var storeHash: B256
    var queueCursor: nat
    var stageTransitionProof: bool
    var latestCurrent: Option<ProofWindow>
    var latestNext: Option<ProofWindow>

    function View(): (o: ObserverState)
      reads this
    {
      ObserverState(started, Start(currentSlot, storeHash, queueCursor), stageTransitionProof, latestCurrent,
                    latestNext)
    }

    constructor ()
      ensures View() == InitialObserver()
    {
      started, currentSlot, storeHash, queueCursor := false, 0, Zeros(32), 0;
      stageTransitionProof, latestCurrent, latestNext := false, None, None;
    }

    method OnTransitionProofSucceeded(output: Start) returns (sent: seq<Command>)
      modifies this
      ensures Observed(View(), sent, false) == AfterEvent(old(View()), ProofMessage(output))
    {
      currentSlot, storeHash, queueCursor := output.slot, output.storeHash, output.cursor;
      sent := [Advance(output)];
      if latestNext.Some? {
        if latestNext.value.input.slot == output.slot {
          sent := sent + [StageTransitionProof(latestNext.value)];
          return;
        }
      }
      stageTransitionProof := true;
    }

    method OnNotice(e: Event) returns (sent: seq<Command>, aborted: bool)
      requires !e.ProofMessage?
      modifies this
      ensures Observed(View(), sent, aborted) == AfterEvent(old(View()), e)
    {
      sent, aborted := [], false;
      match e
      case Started(start) =>
        started := true;
        currentSlot, storeHash := start.slot, start.storeHash;
        stageTransitionProof := true;
      case JobFailed(_, jobsInBuffer) =>
        if jobsInBuffer == 0 {
          if latestCurrent.Some? {
            sent := [StageTransitionProof(latestCurrent.value)];
          } else {
            aborted := true;
          }
        }
      case FinalityTransitionDetected(inputs) =>
        latestCurrent := Some(inputs.current);
        latestNext := inputs.next;
        if stageTransitionProof {
          sent := [StageTransitionProof(inputs.current)];
          stageTransitionProof := false;
        }
      case _ =>
    }
  }

  function InitialObserver(): (o: ObserverState) {
    ObserverState(false, Start(0, Zeros(32), 0), false, None, None)
  }

  // ---- the system -----------------------------------------------------------------------------

  /** A queue holds what was sent and not yet received, including what a sender waits to send.
      `workers` are the ids of running provers; `aborted` records a panic. */
  datatype System = System(
    head: HeadState, observer: ObserverState, commands: seq<Command>, workers: set<nat>,
    results: seq<JobResult>, events: seq<Event>, aborted: bool)

  datatype Step =
    | ReceiveCommand
    | ReceiveResult
    | ReceiveEvent
    | WorkerDone(jobId: nat, outcome: Result<Start, ()>)
    | Finality(inputs: Dual)

  predicate Enabled(s: System, step: Step) {
    match step
    case ReceiveCommand => s.commands != []
    case ReceiveResult => s.results != []
    case ReceiveEvent => s.events != []
    case WorkerDone(id, _) => id in s.workers
    case Finality(_) => true
  }

  function RunCommand(s: System): (t: System)
    requires s.commands != []
  {
    var rest := s.(commands := s.commands[1..]);
    match s.commands[0]
    case StageTransitionProof(w) =>
      rest.(head := AfterStaging(s.head, w), workers := s.workers + {s.head.jobId + 1},
            events := s.events + [JobCreated(s.head.jobId + 1, s.head.nextSlot)])
    case Advance(head) => rest.(head := s.head.(current := head), events := s.events + [HeadAdvanced(head)])
  }

  /** A result for a job that is not registered would fail an unwrap. */
  function RunResult(s: System): (t: System)
    requires s.results != []
  {
    var r := s.results[0];
    var rest := s.(results := s.results[1..]);
    if r.jobId !in s.head.proverJobs then rest.(aborted := true)
    else rest.(head := AfterJob(s.head, r.jobId), events := s.events + JobEvents(s.head, r))
  }

  function RunEvent(s: System): (t: System)
    requires s.events != []
  {
    var r := AfterEvent(s.observer, s.events[0]);
    s.(events := s.events[1..], observer := r.state, commands := s.commands + r.sent, aborted := s.aborted || r.aborted)
  }

  function Apply(s: System, step: Step): (t: System)
    requires Enabled(s, step)
  {
    match step
    case ReceiveCommand => RunCommand(s)
    case ReceiveResult => RunResult(s)
    case ReceiveEvent => RunEvent(s)
    case WorkerDone(id, outcome) => s.(workers := s.workers - {id}, results := s.results + [JobResult(id, outcome)])
    case Finality(inputs) =>
      s.(head := s.head.(nextSlot := inputs.current.output.slot),
         events := s.events + [FinalityTransitionDetected(inputs)])
  }

  predicate Initial(s: System) {
    && s.head.jobId == 0 && s.head.proverJobs == map[] && s.observer == InitialObserver()
    && s.commands == [] && s.workers == {} && s.results == [] && s.events == [Started(s.head.current)] && !s.aborted
  }

  /** A run: any interleaving of the bridge head, the workers and the observer, with any sequence of
      finality changes from the detector. */
  ghost predicate IsRun(states: seq<System>, steps: seq<Step>) {
    && |states| == |steps| + 1 && Initial(states[0])
    && forall i | 0 <= i < |steps| :: Enabled(states[i], steps[i]) && states[i + 1] == Apply(states[i], steps[i])
  }

  // ---- the token ------------------------------------------------------------------------------

  function Count<T>(s: seq<T>, p: T -> bool): (n: nat) {
    if s == [] then 0 else (if p(s[0]) then 1 else 0) + Count(s[1..], p)
  }

  lemma {:induction false} CountAppend<T>(s: seq<T>, t: seq<T>, p: T -> bool)
    ensures Count(s + t, p) == Count(s, p) + Count(t, p)
  {
    if s == [] {
      assert s + t == t;
    } else {
      CountAppend(s[1..], t, p);
      assert (s + t)[1..] == s[1..] + t;
    }
  }

  lemma {:induction false} CountMember<T>(s: seq<T>, p: T -> bool, x: T)
    requires x in s && p(x)
    ensures Count(s, p) > 0
  {
    if s[0] != x {
      CountMember(s[1..], p, x);
    }
  }

  lemma CountShort<T>(x: T, y: T, p: T -> bool)
    ensures Count([x], p) == if p(x) then 1 else 0
    ensures Count([x, y], p) == (if p(x) then 1 else 0) + (if p(y) then 1 else 0)
  {
    assert [x][1..] == [];
    assert [x, y][1..] == [y] && [y][1..] == [];
  }

  /** Events that pass the right to stage on to the observer. */
  predicate HandsOver(e: Event) {
    e.Started? || e.ProofMessage? || e.JobFailed?
  }

  predicate IsStarted(e: Event) {
    e.Started?
  }

  predicate Stages(c: Command) {
    c.StageTransitionProof?
  }

  function Tokens(s: System): (n: nat) {
    Count(s.events, HandsOver) + (if s.observer.staging then 1 else 0) + Count(s.commands, Stages) + |s.head.proverJobs|
  }

  /** Every registered job is running or reported, once. */
  ghost predicate JobsAccounted(s: System) {
    && (forall id | id in s.workers :: id in s.head.proverJobs)
    && (forall r | r in s.results :: r.jobId in s.head.proverJobs)
    && |s.workers| + |s.results| == |s.head.proverJobs|
    && (forall id | id in s.head.proverJobs :: id <= s.head.jobId)
  }

  /** Once a window has been staged the observer holds a current window to retry with. */
  ghost predicate RetryReady(s: System) {
    && (s.observer.latestNext.Some? ==> s.observer.latestCurrent.Some?)
    && (s.observer.latestCurrent.None? ==> s.observer.staging || Count(s.events, IsStarted) == 1)
    && (forall e | e in s.events && e.JobFailed? :: e.jobsInBuffer == 0)
  }

  /** The command channel holds at most an advance followed by a stage; an undelivered advance means
      the token is with the observer's flag or in the stage behind it. */
  ghost predicate CommandsOrdered(s: System) {
    && |s.commands| <= 2
    && (|s.commands| == 2 ==> s.commands[0].Advance? && s.commands[1].StageTransitionProof?)
    && (s.commands != [] && s.commands[0].Advance? ==> s.observer.staging || |s.commands| == 2)
  }

  ghost predicate Invariant(s: System) {
    && Tokens(s) == 1 && JobsAccounted(s) && RetryReady(s) && CommandsOrdered(s) && !s.aborted
  }

  lemma {:induction false} StartedHandsOver(es: seq<Event>)
    ensures Count(es, IsStarted) <= Count(es, HandsOver)
  {
    if es != [] {
      StartedHandsOver(es[1..]);
    }
  }

  lemma AddJob(m: map<nat, ProofWindow>, id: nat, w: ProofWindow)
    requires id !in m
    ensures |m[id := w]| == |m| + 1
  {
    assert m[id := w].Keys == m.Keys + {id};
  }

  lemma AppendEvents(s: System, es: seq<Event>)
    ensures Count(s.events + es, HandsOver) == Count(s.events, HandsOver) + Count(es, HandsOver)
    ensures Count(s.events + es, IsStarted) == Count(s.events, IsStarted) + Count(es, IsStarted)
  {
    CountAppend(s.events, es, HandsOver);
    CountAppend(s.events, es, IsStarted);
  }

  lemma StagingKeepsInvariant(s: System, w: ProofWindow)
    requires Invariant(s) && s.commands != [] && s.commands[0] == StageTransitionProof(w)
    ensures Invariant(RunCommand(s))
  {
    AddJob(s.head.proverJobs, s.head.jobId + 1, w);
    AppendEvents(s, [JobCreated(s.head.jobId + 1, s.head.nextSlot)]);
    assert |s.commands| == 1;
  }

  lemma AdvancingKeepsInvariant(s: System, head: Start)
    requires Invariant(s) && s.commands != [] && s.commands[0] == Advance(head)
    ensures Invariant(RunCommand(s))
  {
    AppendEvents(s, [HeadAdvanced(head)]);
  }

  /** A reported job is the only one, so its removal empties the map. */
  lemma LastJob(s: System)
    requires Invariant(s) && s.results != []
    ensures s.results[0].jobId in s.head.proverJobs && |s.results| == 1 && s.workers == {}
    ensures |AfterJob(s.head, s.results[0].jobId).proverJobs| == 0
  {
  }

  lemma ResultKeepsInvariant(s: System)
    requires Invariant(s) && s.results != []
    ensures Invariant(RunResult(s))
  {
    LastJob(s);
    var t := RunResult(s);
    var es := JobEvents(s.head, s.results[0]);
    AppendEvents(s, es);
    CountShort(es[0], es[|es| - 1], HandsOver);
    CountShort(es[0], es[|es| - 1], IsStarted);
  }

  lemma AppendCommands(s: System, cs: seq<Command>)
    ensures Count(s.commands + cs, Stages) == Count(s.commands, Stages) + Count(cs, Stages)
  {
    CountAppend(s.commands, cs, Stages);
  }

  /** A queued command means the token is with the observer's flag or in the queue. */
  lemma QueuedCommandHoldsToken(s: System)
    requires CommandsOrdered(s) && s.commands != []
    ensures s.observer.staging || Count(s.commands, Stages) > 0
  {
  }

  /** While the token is on its way to the observer, no command is queued. */
  lemma CommandsEmpty(s: System)
    requires Invariant(s) && s.events != [] && HandsOver(s.events[0])
    ensures s.commands == [] && !s.observer.staging && |s.head.proverJobs| == 0 && Count(s.events[1..], HandsOver) == 0
  {
    if s.commands != [] {
      QueuedCommandHoldsToken(s);
    }
  }

  /** While the observer's flag is up, at most one advance is queued. */
  lemma FlagLeavesRoom(s: System)
    requires Invariant(s) && s.observer.staging
    ensures s.commands == [] || (|s.commands| == 1 && s.commands[0].Advance?)
  {
    if s.commands != [] && Stages(s.commands[|s.commands| - 1]) {
      CountMember(s.commands, Stages, s.commands[|s.commands| - 1]);
    }
  }

  /** Taking the token moves it to the flag or into a stage command. */
  lemma HandoverKeepsInvariant(s: System)
    requires Invariant(s) && s.events != [] && HandsOver(s.events[0])
    ensures Invariant(RunEvent(s))
  {
    var r := AfterEvent(s.observer, s.events[0]);
    assert s.events[0] in s.events;
    CommandsEmpty(s);
    AppendCommands(s, r.sent);
    if r.sent != [] {
      CountShort(r.sent[0], r.sent[|r.sent| - 1], Stages);
    }
    StartedHandsOver(s.events[1..]);
  }

  /** Any other event leaves the token, or moves it from the flag into a stage command. */
  lemma NoticeKeepsInvariant(s: System)
    requires Invariant(s) && s.events != [] && !HandsOver(s.events[0])
    ensures Invariant(RunEvent(s))
  {
    var r := AfterEvent(s.observer, s.events[0]);
    AppendCommands(s, r.sent);
    if r.sent != [] {
      CountShort(r.sent[0], r.sent[0], Stages);
      FlagLeavesRoom(s);
    }
  }

  lemma StepKeepsInvariant(s: System, step: Step)
    requires Invariant(s) && Enabled(s, step)
    ensures Invariant(Apply(s, step))
  {
    match step
    case ReceiveCommand =>
      match s.commands[0] {
        case StageTransitionProof(w) => StagingKeepsInvariant(s, w);
        case Advance(head) => AdvancingKeepsInvariant(s, head);
      }
    case ReceiveResult => ResultKeepsInvariant(s);
    case ReceiveEvent => if HandsOver(s.events[0]) { HandoverKeepsInvariant(s); } else { NoticeKeepsInvariant(s); }
    case WorkerDone(id, outcome) =>
    case Finality(inputs) => AppendEvents(s, [FinalityTransitionDetected(inputs)]);
  }

  /** Every state of every run has exactly one token and keeps the invariant. */
  lemma {:induction false} RunsKeepInvariant(states: seq<System>, steps: seq<Step>, i: nat)
    requires IsRun(states, steps) && i < |states|
    ensures Invariant(states[i])
  {
    if i > 0 {
      RunsKeepInvariant(states, steps, i - 1);
      StepKeepsInvariant(states[i - 1], steps[i - 1]);
    } else {
      var started := Started(states[0].head.current);
      CountShort(started, started, HandsOver);
      CountShort(started, started, IsStarted);
    }
  }

  /** What follows, in every state of every run: at most one prover job is live, its result finds it
      registered, a failure notice says no other job is buffered and finds a window to retry, nothing
      aborts, and the command channel of capacity two never makes its sender wait. */
  lemma RunsProveOneAtATime(states: seq<System>, steps: seq<Step>, i: nat)
    requires IsRun(states, steps) && i < |states|
    ensures var s := states[i];
            && Tokens(s) == 1 && !s.aborted
            && |s.head.proverJobs| <= 1 && |s.workers| + |s.results| == |s.head.proverJobs|
            && (forall r | r in s.results :: r.jobId in s.head.proverJobs)
            && (forall e | e in s.events && e.JobFailed? :: e.jobsInBuffer == 0)
            && (forall e | e in s.events && e.JobFailed? :: s.observer.latestCurrent.Some?)
            && |s.commands| <= 2 && |s.results| <= 1
  {
    RunsKeepInvariant(states, steps, i);
    var s := states[i];
    forall e | e in s.events && e.JobFailed?
      ensures s.observer.latestCurrent.Some?
    {
      CountMember(s.events, HandsOver, e);
      FailedAndStarted(s.events, e);
    }
  }

  lemma {:induction false} FailedAndStarted(es: seq<Event>, e: Event)
    requires e in es && e.JobFailed?
    ensures Count(es, IsStarted) + 1 <= Count(es, HandsOver)
  {
    if es[0] == e {
      StartedHandsOver(es[1..]);
    } else {
      FailedAndStarted(es[1..], e);
    }
  }

  // ---- what two notices say -------------------------------------------------------------------

  /** The output slot of the last finality change among the steps. */
  function LastFinality(initial: U64, steps: seq<Step>): (slot: U64) {
    if steps == [] then initial
    else
      var last := steps[|steps| - 1];
      if last.Finality? then last.inputs.current.output.slot else LastFinality(initial, steps[..|steps| - 1])
  }

  /** In every state of every run the bridge head's next slot is that of the last finality change. */
  lemma {:induction false} NextSlotIsLastFinality(states: seq<System>, steps: seq<Step>, i: nat)
    requires IsRun(states, steps) && i < |states|
    ensures states[i].head.nextSlot == LastFinality(states[0].head.nextSlot, steps[..i])
  {
    if i > 0 {
      NextSlotIsLastFinality(states, steps, i - 1);
      assert steps[..i][..i - 1] == steps[..i - 1];
    }
  }

  /** In every run the job-created notice carries the output slot of the last finality change, whatever
      window is staged. That is `NextSlotIsLastFinality`; the last clause only spells out that the notice
      is right exactly when the staged window ends at that slot. */
  lemma JobNoticeSlot(states: seq<System>, steps: seq<Step>, i: nat)
    requires IsRun(states, steps) && i < |steps| && steps[i].ReceiveCommand? && Stages(states[i].commands[0])
    ensures var w, last := states[i].commands[0].inputs, LastFinality(states[0].head.nextSlot, steps[..i]);
            var notice := states[i + 1].events[|states[i].events|];
            && notice == JobCreated(states[i].head.jobId + 1, last)
            && (notice.expectedOutputSlot == w.output.slot <==> last == w.output.slot)
  {
    NextSlotIsLastFinality(states, steps, i);
  }

  /** No proof was received in the first `i` steps. */
  ghost predicate NoProofYet(states: seq<System>, steps: seq<Step>, i: nat)
    requires IsRun(states, steps) && i < |states|
  {
    forall k | 0 <= k < i && steps[k].ReceiveEvent? :: !states[k].events[0].ProofMessage?
  }

  ghost predicate StartedFrom(s: System, start: Start) {
    && (forall e | e in s.events && e.Started? :: e.current == start)
    && s.observer.current.cursor == 0
    && (s.observer.started ==> s.observer.current == start.(cursor := 0))
  }

  lemma {:induction false} StartedKept(states: seq<System>, steps: seq<Step>, i: nat)
    requires IsRun(states, steps) && i < |states| && NoProofYet(states, steps, i)
    ensures StartedFrom(states[i], states[0].head.current)
  {
    if i > 0 {
      StartedKept(states, steps, i - 1);
      if steps[i - 1].ReceiveEvent? {
        assert states[i - 1].events[0] in states[i - 1].events;
      }
    }
  }

  /** In every run, from the started notice until the first proof, the observer's view of the head is
      the head it was started with exactly when that head's cursor is zero. */
  lemma StartedCursor(states: seq<System>, steps: seq<Step>, i: nat)
    requires IsRun(states, steps) && i < |states| && NoProofYet(states, steps, i) && states[i].observer.started
    ensures states[i].observer.current == states[0].head.current <==> states[0].head.current.cursor == 0
  {
    StartedKept(states, steps, i);
  }

  // ---- what the observer holds ----------------------------------------------------------------

  predicate Announces(s: System, step: Step) {
    step.ReceiveEvent? && s.events != [] && s.events[0].FinalityTransitionDetected?
  }

  /** In every run, from one finality change to the next the observer's caches hold that change's windows:
      the current one, and the next one or none. A next window announced before is forgotten. */
  lemma {:induction false} CachesHoldLastAnnounced(states: seq<System>, steps: seq<Step>, i: nat, j: nat)
    requires IsRun(states, steps) && i < j < |states| && Announces(states[i], steps[i])
    requires forall k | i < k < j :: !Announces(states[k], steps[k])
    ensures states[j].observer.latestCurrent == Some(states[i].events[0].inputs.current)
    ensures states[j].observer.latestNext == states[i].events[0].inputs.next
    decreases j
  {
    if i + 1 < j {
      CachesHoldLastAnnounced(states, steps, i, j - 1);
    }
  }

  type Trace = History<System, Step>

  predicate Happens(h: Trace) {
    match h
    case Begin(s) => Initial(s)
    case Then(before, step, s) => Happens(before) && Enabled(before.s, step) && s == Apply(before.s, step)
  }

  lemma {:induction false} HistoryIsRun(h: Trace) returns (states: seq<System>, steps: seq<Step>)
    requires Happens(h)
    ensures IsRun(states, steps) && states[0] == FirstState(h) && states[|steps|] == h.s
  {
    match h
    case Begin(s) =>
      states, steps := [s], [];
    case Then(before, step, s) =>
      states, steps := HistoryIsRun(before);
      states, steps := states + [s], steps + [step];
  }

  /** A run that stages a window ending at slot 96 under a notice that says 128, and whose observer holds
      cursor 0 although the head started at cursor 1. */
  lemma NoticesDisagree() returns (states: seq<System>, steps: seq<Step>)
    ensures IsRun(states, steps)
    ensures var s := states[|steps|];
            && s.commands == [StageTransitionProof(WindowTo(96))] && s.head.nextSlot == 128
            && states[0].head.current.cursor == 1 && s.observer.started && s.observer.current.cursor == 0
  {
    var first, second := Dual(WindowTo(96), None), Dual(WindowTo(128), None);
    var start := WindowTo(96).input;
    var a := System(HeadState(start, 0, 0, map[]), InitialObserver(), [], {}, [], [Started(start)], false);
    var b := a.(head := a.head.(nextSlot := 96), events := [Started(start), FinalityTransitionDetected(first)]);
    var begun := a.observer.(started := true, staging := true);
    var c := b.(observer := begun, events := [FinalityTransitionDetected(first)]);
    var cached := begun.(staging := false, latestCurrent := Some(first.current));
    var d := c.(observer := cached, events := [], commands := [StageTransitionProof(first.current)]);
    var e := d.(head := d.head.(nextSlot := 128), events := [FinalityTransitionDetected(second)]);
    var h := Then(Begin(a), Finality(first), b);
    assert Happens(Begin(a)) && Happens(h) && FirstState(h) == a;
    assert b.events[1..] == c.events;
    h := Then(h, ReceiveEvent, c);
    assert Happens(h) && FirstState(h) == a;
    h := Then(Then(h, ReceiveEvent, d), Finality(second), e);
    states, steps := HistoryIsRun(h);
  }

  function WindowTo(slot: U64): (w: ProofWindow) {
    ProofWindow(Start(0, Zeros(32), 1), Start(slot, Zeros(32), 1))
  }
}
