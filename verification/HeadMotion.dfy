/** How the bridge head moves: a proof sets it to the proof's output whether or not that is ahead. */
module HeadMotion {
  import opened Windows
  import opened Pipeline

  // ---- the observer's slot is the head's ------------------------------------------------------

  predicate AdvanceQueued(b: B.System) {
    b.commands != [] && b.commands[0].Advance?
  }

  /** A queued advance leads to the observer's head; otherwise, once started, the observer has the head's
      own slot. */
  ghost predicate Synced(b: B.System) {
    && (AdvanceQueued(b) ==> b.commands[0].head == b.observer.current)
    && (b.observer.started && !AdvanceQueued(b) ==> b.observer.current.slot == b.head.current.slot)
    && (!b.observer.started ==> B.Count(b.events, B.IsStarted) == 1)
    && (forall e | e in b.events && e.Started? :: e.current == b.head.current)
  }

  /** While a command is queued nothing hands the token over. */
  lemma NothingHandsOver(b: B.System, e: B.Event)
    requires B.Invariant(b) && b.commands != [] && e in b.events
    ensures !B.HandsOver(e)
  {
    B.QueuedCommandHoldsToken(b);
    if B.HandsOver(e) {
      B.CountMember(b.events, B.HandsOver, e);
    }
  }

  lemma CommandKeepsSync(b: B.System)
    requires B.Invariant(b) && Synced(b) && b.commands != []
    ensures Synced(B.RunCommand(b))
  {
    var c := B.RunCommand(b);
    B.StartedHandsOver(b.events);
    B.QueuedCommandHoldsToken(b);
    forall e | e in c.events && e.Started?
      ensures e.current == c.head.current
    {
      NothingHandsOver(b, e);
    }
  }

  /** When the token arrives, either it is the started notice or the observer has started. */
  lemma HandoverStarts(b: B.System)
    requires B.Invariant(b) && Synced(b) && b.events != [] && B.HandsOver(b.events[0])
    ensures b.events[0].Started? || b.observer.started
    ensures b.commands == [] && B.Count(b.events[1..], B.IsStarted) == 0
  {
    B.CommandsEmpty(b);
    B.StartedHandsOver(b.events[1..]);
  }

  lemma NoStartedLeft(es: seq<B.Event>, e: B.Event)
    requires B.Count(es, B.IsStarted) == 0 && e in es
    ensures !e.Started?
  {
    if e.Started? {
      B.CountMember(es, B.IsStarted, e);
    }
  }

  lemma EventKeepsSync(b: B.System)
    requires B.Invariant(b) && Synced(b) && b.events != []
    ensures Synced(B.RunEvent(b))
  {
    assert b.events[0] in b.events;
    if B.HandsOver(b.events[0]) {
      HandoverStarts(b);
      forall e | e in b.events[1..]
        ensures !e.Started?
      {
        NoStartedLeft(b.events[1..], e);
      }
    }
  }

  lemma ResultKeepsSync(b: B.System)
    requires B.Invariant(b) && Synced(b) && b.results != []
    ensures Synced(B.RunResult(b))
  {
    B.LastJob(b);
    var es := B.JobEvents(b.head, b.results[0]);
    B.AppendEvents(b, es);
    B.CountShort(es[0], es[|es| - 1], B.IsStarted);
  }

  lemma FinalityKeepsSync(b: B.System, dual: Dual)
    requires Synced(b)
    ensures Synced(B.Apply(b, B.Finality(dual)))
  {
    B.AppendEvents(b, [B.FinalityTransitionDetected(dual)]);
  }

  lemma StepKeepsSync(p: State, step: Step)
    requires B.Invariant(p.b) && Synced(p.b) && Enabled(p, step)
    ensures Synced(Apply(p, step).b)
  {
    match step
    case DetectorStep(_) =>
    case DeliverEmission => FinalityKeepsSync(p.b, p.d.emitted[p.delivered].dual);
    case BridgeStep(x) =>
      match x
      case ReceiveCommand => CommandKeepsSync(p.b);
      case ReceiveResult => ResultKeepsSync(p.b);
      case ReceiveEvent => EventKeepsSync(p.b);
      case WorkerDone(id, outcome) =>
  }

  lemma {:induction false} RunsKeepSync(states: seq<State>, steps: seq<Step>, i: nat)
    requires IsRun(states, steps) && i < |states|
    ensures Synced(states[i].b)
  {
    if i == 0 {
      var started := B.Started(states[0].b.head.current);
      B.CountShort(started, started, B.IsStarted);
    } else {
      RunsKeepSync(states, steps, i - 1);
      RunsKeepBridge(states, steps, i - 1);
      StepKeepsSync(states[i - 1], steps[i - 1]);
    }
  }

  // ---- from a proof to the head ---------------------------------------------------------------

  predicate IsCommand(step: Step) {
    step == BridgeStep(B.ReceiveCommand)
  }

  /** The advance to `output` is the next command, and the head is still `head`. */
  predicate Pending(p: State, output: Start, head: Start) {
    p.b.commands != [] && p.b.commands[0] == B.Advance(output) && p.b.head.current == head
  }

  lemma PendingStays(p: State, step: Step, output: Start, head: Start)
    requires Pending(p, output, head) && Enabled(p, step) && !IsCommand(step)
    ensures Pending(Apply(p, step), output, head)
  {
  }

  lemma {:induction false} PendingUntilRun(states: seq<State>, steps: seq<Step>, i: nat, j: nat, output: Start,
                                          head: Start)
    requires IsRun(states, steps) && i <= j < |states| && Pending(states[i], output, head)
    requires forall k | i <= k < j :: !IsCommand(steps[k])
    ensures Pending(states[j], output, head)
    decreases j
  {
    if i < j {
      PendingUntilRun(states, steps, i, j - 1, output, head);
      PendingStays(states[j - 1], steps[j - 1], output, head);
    }
  }

  /** At the step that receives a proof the observer's slot is the head's, and the advance comes first. */
  lemma ProofIsPending(states: seq<State>, steps: seq<Step>, i: nat, output: Start)
    requires IsRun(states, steps) && i < |steps| && steps[i] == BridgeStep(B.ReceiveEvent)
    requires states[i].b.events[0] == B.ProofMessage(output)
    ensures states[i].b.observer.current.slot == states[i].b.head.current.slot
    ensures Pending(states[i + 1], output, states[i].b.head.current)
  {
    RunsKeepSync(states, steps, i);
    RunsKeepBridge(states, steps, i);
    HandoverStarts(states[i].b);
  }

  /** In every run: the first command executed after a proof is received sets the head to the proof's
      output. It raises the head exactly when that output's slot exceeds the slot the observer had. */
  lemma ProofMovesHead(states: seq<State>, steps: seq<Step>, i: nat, j: nat, output: Start)
    requires IsRun(states, steps) && i < j < |steps| && steps[i] == BridgeStep(B.ReceiveEvent)
    requires states[i].b.events[0] == B.ProofMessage(output)
    requires IsCommand(steps[j]) && forall k | i < k < j :: !IsCommand(steps[k])
    ensures states[j + 1].b.head.current == output
    ensures states[j].b.head.current.slot == states[i].b.observer.current.slot
    ensures states[j + 1].b.head.current.slot > states[j].b.head.current.slot
       <==> output.slot > states[i].b.observer.current.slot
  {
    ProofIsPending(states, steps, i, output);
    PendingUntilRun(states, steps, i + 1, j, output, states[i].b.head.current);
  }

  // ---- from staging to the proof --------------------------------------------------------------

  predicate Reports(e: B.Event) {
    e.ProofMessage? || e.JobFailed?
  }

  /** A job is live, or its outcome is on its way to the observer. */
  ghost predicate Proving(b: B.System) {
    b.head.proverJobs != map[] || exists e | e in b.events :: Reports(e)
  }

  /** Whatever is live, reported or on its way is a job for `w`. */
  ghost predicate OnlyFor(b: B.System, w: ProofWindow) {
    && (forall id | id in b.head.proverJobs :: b.head.proverJobs[id] == w)
    && (forall r | r in b.results && r.outcome.Ok? :: r.outcome.value == w.output)
    && (forall e | e in b.events && e.ProofMessage? :: e.output == w.output)
  }

  predicate StagesAt(p: State, step: Step) {
    IsCommand(step) && p.b.commands != [] && p.b.commands[0].StageTransitionProof?
  }

  /** While a job is being proven no command is queued. */
  lemma ProvingLeavesNoCommand(b: B.System)
    requires B.Invariant(b) && Proving(b)
    ensures b.commands == []
  {
    if b.commands != [] {
      B.QueuedCommandHoldsToken(b);
      if b.head.proverJobs == map[] {
        var e :| e in b.events && Reports(e);
        NothingHandsOver(b, e);
      }
    }
  }

  lemma ReportWasThere(p: State, step: Step, e: B.Event)
    requires Enabled(p, step) && step != BridgeStep(B.ReceiveResult) && e in Apply(p, step).b.events && Reports(e)
    ensures e in p.b.events
  {
  }

  /** Nothing but staging starts a job, so one under way after any other step was under way before it. */
  lemma ProvingGoesBack(p: State, step: Step)
    requires B.Invariant(p.b) && Enabled(p, step) && !StagesAt(p, step) && Proving(Apply(p, step).b)
    ensures Proving(p.b) && Apply(p, step).b.head.current == p.b.head.current
  {
    var q := Apply(p, step);
    if step == BridgeStep(B.ReceiveResult) {
      B.LastJob(p.b);
    } else if q.b.head.proverJobs == map[] {
      var e :| e in q.b.events && Reports(e);
      ReportWasThere(p, step, e);
    }
    if IsCommand(step) {
      ProvingLeavesNoCommand(p.b);
    }
  }

  lemma OutcomeStays(p: State, step: Step, w: ProofWindow)
    requires B.Invariant(p.b) && Enabled(p, step) && !StagesAt(p, step) && OnlyFor(p.b, w)
    ensures OnlyFor(Apply(p, step).b, w)
  {
    if step == BridgeStep(B.ReceiveResult) {
      B.LastJob(p.b);
      assert p.b.results[0] in p.b.results;
    }
  }

  lemma StagingStarts(p: State, w: ProofWindow)
    requires B.Invariant(p.b) && p.b.commands != [] && p.b.commands[0] == B.StageTransitionProof(w)
    ensures Held(RunCommand(p).b, w, p.b.head.current)
  {
    B.QueuedCommandHoldsToken(p.b);
    B.CountMember(p.b.commands, B.Stages, p.b.commands[0]);
    assert |p.b.head.proverJobs| == 0;
    forall e | e in p.b.events
      ensures !e.ProofMessage?
    {
      NothingHandsOver(p.b, e);
    }
  }

  /** Only a job for `w` is under way, if any, and while it is, the head is `head`. */
  ghost predicate Held(b: B.System, w: ProofWindow, head: Start) {
    OnlyFor(b, w) && (Proving(b) ==> b.head.current == head)
  }

  lemma StepKeepsHeld(p: State, step: Step, w: ProofWindow, head: Start)
    requires B.Invariant(p.b) && Enabled(p, step) && !StagesAt(p, step) && Held(p.b, w, head)
    ensures Held(Apply(p, step).b, w, head)
  {
    OutcomeStays(p, step, w);
    if Proving(Apply(p, step).b) {
      ProvingGoesBack(p, step);
    }
  }

  lemma RunKeepsHeld(states: seq<State>, steps: seq<Step>, k: nat, w: ProofWindow, head: Start)
    requires IsRun(states, steps) && k < |steps| && !StagesAt(states[k], steps[k]) && Held(states[k].b, w, head)
    ensures Held(states[k + 1].b, w, head)
  {
    RunsKeepBridge(states, steps, k);
    StepKeepsHeld(states[k], steps[k], w, head);
  }

  lemma {:induction false} HeadHeldWhileProving(states: seq<State>, steps: seq<Step>, i: nat, j: nat, w: ProofWindow)
    requires IsRun(states, steps) && i < j < |states| && IsCommand(steps[i])
    requires states[i].b.commands[0] == B.StageTransitionProof(w)
    requires forall k | i < k < j :: !StagesAt(states[k], steps[k])
    ensures Held(states[j].b, w, states[i].b.head.current)
    decreases j
  {
    if j == i + 1 {
      RunsKeepBridge(states, steps, i);
      StagingStarts(states[i], w);
    } else {
      HeadHeldWhileProving(states, steps, i, j - 1, w);
      RunKeepsHeld(states, steps, j - 1, w, states[i].b.head.current);
    }
  }

  lemma StagedWindowProgresses(states: seq<State>, steps: seq<Step>, i: nat, w: ProofWindow)
    requires IsRun(states, steps) && i < |steps| && IsCommand(steps[i])
    requires states[i].b.commands[0] == B.StageTransitionProof(w)
    ensures w.output.slot > w.input.slot
  {
    RunsKeepInvariant(states, steps, i + 1);
    var staged := states[i + 1].staged;
    assert staged[|staged| - 1] == w;
  }

  /** In every run, the proof of a staged window, received before another window is staged, has that
      window's output, and finds the head where it was when the window was staged. It will raise the head
      exactly when the window ends beyond that head: always, when it was staged from a start at or beyond
      the head. */
  lemma StagedProofRaisesHead(states: seq<State>, steps: seq<Step>, i: nat, j: nat, w: ProofWindow, output: Start)
    requires IsRun(states, steps) && i < j < |steps| && IsCommand(steps[i])
    requires states[i].b.commands[0] == B.StageTransitionProof(w)
    requires forall k | i < k < j :: !StagesAt(states[k], steps[k])
    requires steps[j] == BridgeStep(B.ReceiveEvent) && states[j].b.events[0] == B.ProofMessage(output)
    ensures output == w.output
    ensures states[j].b.observer.current.slot == states[j].b.head.current.slot == states[i].b.head.current.slot
    ensures w.input.slot >= states[i].b.head.current.slot ==> output.slot > states[j].b.observer.current.slot
  {
    HeadHeldWhileProving(states, steps, i, j, w);
    assert states[j].b.events[0] in states[j].b.events && Reports(states[j].b.events[0]);
    ProofIsPending(states, steps, j, output);
    StagedWindowProgresses(states, steps, i, w);
  }
}
