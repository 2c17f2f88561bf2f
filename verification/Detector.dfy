/** The finality change detector and its validation actor, as a state machine over their channels. */
module Detector {
  import opened ByteCodec
  import opened Windows
  import opened Histories

  // ---- handlers, as functions of the detector's variables ------------------------------------

  datatype DetectorState = DetectorState(
    slot: U64, storeHash: B256, cursor: nat, latestSlot: U64, inFlight: bool, stale: bool, next: Option<Start>)
  {
    function InForce(): (s: Start) {
      Start(slot, storeHash, cursor)
    }

    /** The next window, suppressed when it starts where the current one does. */
    function FilteredNext(): (n: Option<Start>) {
      if next.Some? && next.value.slot != slot then next else None
    }

    function Job(): (j: ValidationJob) {
      ValidationJob(InForce(), FilteredNext())
    }
  }

  datatype ValidationJob = ValidationJob(current: Start, next: Option<Start>)

  type ValidationResult = Result<Dual, ()>

  datatype Handled = Handled(state: DetectorState, job: Option<ValidationJob>, emitted: Option<Dual>)

  function AfterStage(s: DetectorState, update: Start): (t: DetectorState) {
    s.(next := Some(update), stale := s.stale || s.inFlight)
  }

  function AfterAdvance(s: DetectorState, update: Start): (t: DetectorState) {
    s.(slot := update.slot, storeHash := update.storeHash, cursor := update.cursor, latestSlot := update.slot,
       stale := s.stale || s.inFlight,
       next := if s.next.Some? && s.next.value.slot == update.slot then None else s.next)
  }

  /** Whether a result that shows progress is passed on: a next window must show progress too. */
  predicate Emits(s: DetectorState, dual: Dual) {
    dual.next.Some? ==> dual.next.value.output.slot > s.latestSlot
  }

  function AfterResult(s: DetectorState, result: ValidationResult): (h: Handled) {
    var idle := s.(inFlight := false);
    match result
    case Err(_) => Handled(idle, None, None)
    case Ok(dual) =>
      if s.stale then Handled(s.(stale := false, inFlight := true), Some(s.Job()), None)
      else if dual.current.input.slot != s.slot then Handled(idle, None, None)
      else if dual.current.output.slot <= s.latestSlot then Handled(idle, None, None)
      else Handled(idle.(latestSlot := dual.current.output.slot), None, if Emits(s, dual) then Some(dual) else None)
  }

  function AfterTick(s: DetectorState): (h: Handled) {
    if s.inFlight then Handled(s, None, None) else Handled(s.(inFlight := true), Some(s.Job()), None)
  }

  /** The detector's select loop: one method per branch, updating its variables in place. Messages it
      sends are returned. */
  class FinalityDetector {
    var slot: U64
    var storeHash: B256
    var cursor: nat
    var latestSlot: U64
    var inFlight: bool
    var stale: bool
    var next: Option<Start>

    function View(): (s: DetectorState)
      reads this
    {
      DetectorState(slot, storeHash, cursor, latestSlot, inFlight, stale, next)
    }

    constructor (start: Start, inflightOutput: Option<Start>)
      ensures View() == InitialDetector(start, inflightOutput)
    {
      slot, storeHash, cursor := start.slot, start.storeHash, start.cursor;
      latestSlot, inFlight, stale, next := start.slot, false, false, inflightOutput;
    }

    method OnStage(update: Start)
      modifies this
      ensures View() == AfterStage(old(View()), update)
    {
      next := Some(update);
      if inFlight {
        stale := true;
      }
    }

    method OnAdvance(update: Start)
      modifies this
      ensures View() == AfterAdvance(old(View()), update)
    {
      slot, storeHash, cursor := update.slot, update.storeHash, update.cursor;
      latestSlot := slot;
      if inFlight {
        stale := true;
      }
      if next.Some? && next.value.slot == slot {
        next := None;
      }
    }

    /** `try_start_validation_job`: builds a job from the current inputs and marks it in flight. */
    method TryStart() returns (job: ValidationJob)
      modifies this
      ensures job == old(View().Job()) && View() == old(View()).(inFlight := true)
    {
      var filtered := if next.Some? && next.value.slot != slot then next else None;
      job := ValidationJob(Start(slot, storeHash, cursor), filtered);
      inFlight := true;
    }

    method OnResult(result: ValidationResult) returns (job: Option<ValidationJob>, emitted: Option<Dual>)
      modifies this
      ensures Handled(View(), job, emitted) == AfterResult(old(View()), result)
    {
      job, emitted := None, None;
      inFlight := false;
      if result.Err? {
        return;
      }
      var dual := result.value;
      if stale {
        stale := false;
        var restarted := TryStart();
        job := Some(restarted);
        return;
      }
      if dual.current.input.slot != slot {
        return;
      }
      if dual.current.output.slot <= latestSlot {
        return;
      }
      if dual.next.Some? {
        if dual.next.value.output.slot > latestSlot {
          emitted := Some(dual);
        }
      } else {
        emitted := Some(dual);
      }
      latestSlot := dual.current.output.slot;
    }

    method OnTick() returns (job: Option<ValidationJob>)
      modifies this
      ensures Handled(View(), job, None) == AfterTick(old(View()))
    {
      job := None;
      if !inFlight {
        var started := TryStart();
        job := Some(started);
      }
    }
  }

  function InitialDetector(start: Start, inflightOutput: Option<Start>): (s: DetectorState) {
    DetectorState(start.slot, start.storeHash, start.cursor, start.slot, false, false, inflightOutput)
  }

  // ---- the validation actor -------------------------------------------------------------------

  /** Contract of preparing a window: on success it starts where asked and ends strictly later. */
  predicate Prepares(start: Start, outcome: Result<ProofWindow, ()>) {
    outcome.Ok? ==> outcome.value.input == start && outcome.value.output.slot > start.slot
  }

  /** What the actor answers, given how preparing each window went. */
  function Answer(job: ValidationJob, current: Result<ProofWindow, ()>, next: Result<ProofWindow, ()>)
    : (r: ValidationResult)
  {
    if job.next.None? then (if current.Ok? then Ok(Dual(current.value, None)) else Err(()))
    else if current.Err? || next.Err? then Err(())
    else Ok(Dual(current.value, Some(next.value)))
  }

  /** One turn of the actor's loop. On its solo, dual and error paths alike it sends exactly one
      result. */
  method ProcessJob(job: ValidationJob, current: Result<ProofWindow, ()>, next: Result<ProofWindow, ()>)
    returns (sent: seq<ValidationResult>)
    ensures sent == [Answer(job, current, next)]
    ensures sent[0].Ok? <==> current.Ok? && (job.next.Some? ==> next.Ok?)
    ensures sent[0].Ok? ==>
              && sent[0].value.current == current.value
              && sent[0].value.next == if job.next.Some? then Some(next.value) else None
  {
    sent := [];
    if job.next.Some? {
      if current.Err? {
        sent := sent + [Err(())];
        return;
      }
      if next.Err? {
        sent := sent + [Err(())];
        return;
      }
      sent := sent + [Ok(Dual(current.value, Some(next.value)))];
    } else {
      if current.Err? {
        sent := sent + [Err(())];
        return;
      }
      sent := sent + [Ok(Dual(current.value, None))];
    }
  }

  /** The result is one this job can have. */
  predicate Answers(job: ValidationJob, r: ValidationResult) {
    r.Ok? ==>
      && Prepares(job.current, Ok(r.value.current))
      && (job.next.Some? <==> r.value.next.Some?)
      && (job.next.Some? ==> Prepares(job.next.value, Ok(r.value.next.value)))
  }

  // ---- the system -----------------------------------------------------------------------------

  /** An emission, with the inputs in force when it was made. */
  datatype Emission = Emission(dual: Dual, inForce: Start, next: Option<Start>, latestBefore: U64, epoch: nat)

  /** `epoch` counts advance messages received. A queue holds what was sent and not yet received. */
  datatype System = System(
    d: DetectorState,
    jobs: seq<ValidationJob>,
    working: Option<ValidationJob>,
    results: seq<ValidationResult>,
    stageQueue: seq<Start>,
    advanceQueue: seq<Start>,
    emitted: seq<Emission>,
    epoch: nat)

  datatype Step =
    | SendStage(update: Start)
    | SendAdvance(update: Start)
    | ReceiveStage
    | ReceiveAdvance
    | ReceiveResult
    | Tick
    | ActorTake
    | ActorReply(current: Result<ProofWindow, ()>, next: Result<ProofWindow, ()>)

  predicate Enabled(s: System, step: Step) {
    match step
    case SendStage(_) => true
    case SendAdvance(_) => true
    case ReceiveStage => s.stageQueue != []
    case ReceiveAdvance => s.advanceQueue != []
    case ReceiveResult => s.results != []
    case Tick => true
    case ActorTake => s.jobs != [] && s.working.None?
    case ActorReply(current, next) =>
      && s.working.Some? && Prepares(s.working.value.current, current)
      && (s.working.value.next.Some? ==> Prepares(s.working.value.next.value, next))
  }

  function OptionSeq<T>(o: Option<T>): (s: seq<T>) {
    if o.Some? then [o.value] else []
  }

  function Absorb(s: System, h: Handled): (t: System) {
    s.(d := h.state, jobs := s.jobs + OptionSeq(h.job),
       emitted := match h.emitted
                  case None => s.emitted
                  case Some(dual) =>
                    s.emitted + [Emission(dual, s.d.InForce(), s.d.FilteredNext(), s.d.latestSlot, s.epoch)])
  }

  function Apply(s: System, step: Step): (t: System)
    requires Enabled(s, step)
  {
    match step
    case SendStage(u) => s.(stageQueue := s.stageQueue + [u])
    case SendAdvance(u) => s.(advanceQueue := s.advanceQueue + [u])
    case ReceiveStage => s.(stageQueue := s.stageQueue[1..], d := AfterStage(s.d, s.stageQueue[0]))
    case ReceiveAdvance =>
      s.(advanceQueue := s.advanceQueue[1..], d := AfterAdvance(s.d, s.advanceQueue[0]), epoch := s.epoch + 1)
    case ReceiveResult => Absorb(s.(results := s.results[1..]), AfterResult(s.d, s.results[0]))
    case Tick => Absorb(s, AfterTick(s.d))
    case ActorTake => s.(jobs := s.jobs[1..], working := Some(s.jobs[0]))
    case ActorReply(current, next) =>
      s.(working := None, results := s.results + [Answer(s.working.value, current, next)])
  }

  predicate Initial(s: System) {
    && s.d == InitialDetector(s.d.InForce(), s.d.next)
    && s.jobs == [] && s.working.None? && s.results == [] && s.stageQueue == [] && s.advanceQueue == []
    && s.emitted == [] && s.epoch == 0
  }

  /** A run: any interleaving of the detector, the actor and whoever sends to them. */
  ghost predicate IsRun(states: seq<System>, steps: seq<Step>) {
    && |states| == |steps| + 1 && Initial(states[0])
    && forall i | 0 <= i < |steps| :: Enabled(states[i], steps[i]) && states[i + 1] == Apply(states[i], steps[i])
  }

  // ---- invariants -----------------------------------------------------------------------------

  /** `inFlight` counts the one job or result outstanding, so neither channel of capacity one is ever
      full when it is sent to. */
  predicate OneOutstanding(s: System) {
    |s.jobs| + |OptionSeq(s.working)| + |s.results| == if s.d.inFlight then 1 else 0
  }

  /** A job in flight that is not stale was built from the inputs in force now. */
  ghost predicate FreshIsCurrent(s: System) {
    s.d.inFlight && !s.d.stale ==>
      && (forall j | j in s.jobs :: j == s.d.Job())
      && (forall j | j in OptionSeq(s.working) :: j == s.d.Job())
      && (forall r | r in s.results :: Answers(s.d.Job(), r))
  }

  /** An emission was computed from the inputs in force when it was made, ends beyond its input slot
      and beyond the slot accepted before; a next window it carries does so too. */
  predicate SoundEmission(e: Emission) {
    && Answers(ValidationJob(e.inForce, e.next), Ok(e.dual))
    && e.dual.current.output.slot > e.latestBefore >= e.inForce.slot
    && (e.dual.next.Some? ==> e.dual.next.value.output.slot > e.latestBefore && e.next.value.slot != e.inForce.slot)
  }

  /** Between two advances the output slots of emissions strictly increase. */
  ghost predicate EmissionsIncrease(s: System) {
    && (forall i, j | 0 <= i < j < |s.emitted| && s.emitted[i].epoch == s.emitted[j].epoch ::
          s.emitted[i].dual.current.output.slot < s.emitted[j].dual.current.output.slot)
    && (forall e | e in s.emitted :: e.epoch <= s.epoch)
    && (forall e | e in s.emitted && e.epoch == s.epoch :: e.dual.current.output.slot <= s.d.latestSlot)
  }

  ghost predicate Invariant(s: System) {
    && s.d.latestSlot >= s.d.slot
    && OneOutstanding(s) && FreshIsCurrent(s)
    && (forall e | e in s.emitted :: SoundEmission(e)) && EmissionsIncrease(s)
  }

  lemma AnswerAnswers(job: ValidationJob, current: Result<ProofWindow, ()>, next: Result<ProofWindow, ()>)
    requires Prepares(job.current, current) && (job.next.Some? ==> Prepares(job.next.value, next))
    ensures Answers(job, Answer(job, current, next))
  {
  }

  /** The branch for a result of another input slot is never taken: a fresh result has the slot in
      force. */
  lemma MismatchIsUnreachable(s: System)
    requires Invariant(s) && s.results != [] && s.results[0].Ok? && !s.d.stale
    ensures s.results[0].value.current.input == s.d.InForce()
  {
    assert s.results[0] in s.results;
  }

  /** Jobs and results are sent into empty channels. */
  lemma ChannelsHaveRoom(s: System, step: Step)
    requires Invariant(s) && Enabled(s, step)
    ensures |Apply(s, step).jobs| > |s.jobs| ==> s.jobs == [] && s.working.None? && |s.results| <= 1
    ensures |Apply(s, step).results| > |s.results| ==> s.results == []
    ensures |Apply(s, step).jobs| <= 1 && |Apply(s, step).results| <= 1
  {
  }

  lemma ResultEmitsSoundly(s: System)
    requires Invariant(s) && s.results != []
    ensures var t := Apply(s, ReceiveResult); EmissionsIncrease(t) && forall e | e in t.emitted :: SoundEmission(e)
  {
    var t := Apply(s, ReceiveResult);
    assert s.results[0] in s.results;
    if AfterResult(s.d, s.results[0]).emitted.Some? {
      assert Answers(s.d.Job(), s.results[0]);
      assert SoundEmission(t.emitted[|s.emitted|]);
    }
  }

  lemma ResultKeepsInvariant(s: System)
    requires Invariant(s) && s.results != []
    ensures Invariant(Apply(s, ReceiveResult))
  {
    ResultEmitsSoundly(s);
    assert Apply(s, ReceiveResult).results == [];
  }

  lemma StepKeepsInvariant(s: System, step: Step)
    requires Invariant(s) && Enabled(s, step)
    ensures Invariant(Apply(s, step))
  {
    match step
    case ReceiveResult => ResultKeepsInvariant(s);
    case ActorReply(current, next) =>
      AnswerAnswers(s.working.value, current, next);
      assert s.working.value in OptionSeq(s.working);
    case ActorTake => assert s.jobs[0] in s.jobs;
    case _ =>
  }

  /** Every state of every run keeps the invariant. */
  lemma {:induction false} RunsKeepInvariant(states: seq<System>, steps: seq<Step>, i: nat)
    requires IsRun(states, steps) && i < |states|
    ensures Invariant(states[i])
  {
    if i > 0 {
      RunsKeepInvariant(states, steps, i - 1);
      StepKeepsInvariant(states[i - 1], steps[i - 1]);
    }
  }

  /** Every emission of every run is sound, and emissions between two advances strictly increase. */
  lemma RunsEmitSoundly(states: seq<System>, steps: seq<Step>, i: nat)
    requires IsRun(states, steps) && i < |states|
    ensures forall e | e in states[i].emitted :: SoundEmission(e) && e.dual.current.input == e.inForce
    ensures EmissionsIncrease(states[i])
  {
    RunsKeepInvariant(states, steps, i);
  }

  // ---- what becomes of a result ---------------------------------------------------------------

  /** In every run, a prepared result is accepted exactly when it is not marked stale and ends beyond
      the slot accepted before. It is passed on exactly when, besides, a next window it carries ends
      beyond that slot too: otherwise `latestSlot` rises in silence. */
  lemma RunsAcceptExactly(states: seq<System>, steps: seq<Step>, i: nat)
    requires IsRun(states, steps) && i < |steps| && steps[i].ReceiveResult? && states[i].results[0].Ok?
    ensures var s, t, dual := states[i], states[i + 1], states[i].results[0].value;
            var accepted := !s.d.stale && dual.current.output.slot > s.d.latestSlot;
            var passedOn := accepted && (dual.next.Some? ==> dual.next.value.output.slot > s.d.latestSlot);
            && (|t.emitted| > |s.emitted| <==> passedOn)
            && (passedOn ==> t.emitted == s.emitted + [t.emitted[|s.emitted|]] && t.emitted[|s.emitted|].dual == dual)
            && t.d.latestSlot == (if accepted then dual.current.output.slot else s.d.latestSlot)
            && (s.d.stale ==> t.d.inFlight && t.jobs == [s.d.Job()])
  {
    RunsKeepInvariant(states, steps, i);
    if !states[i].d.stale {
      MismatchIsUnreachable(states[i]);
    }
  }

  // ---- runs that show it ----------------------------------------------------------------------

  type Trace = History<System, Step>

  predicate Happens(h: Trace) {
    match h
    case Begin(s) => Initial(s)
    case Then(before, step, s) => Happens(before) && Moves(before.s, step, s)
  }

  predicate Moves(s: System, step: Step, t: System) {
    Enabled(s, step) && t == Apply(s, step)
  }

  lemma {:induction false} HistoryIsRun(h: Trace) returns (states: seq<System>, steps: seq<Step>)
    requires Happens(h)
    ensures IsRun(states, steps) && states[|steps|] == h.s
  {
    match h
    case Begin(s) =>
      states, steps := [s], [];
    case Then(before, step, s) =>
      states, steps := HistoryIsRun(before);
      states, steps := states + [s], steps + [step];
  }

  predicate Idle(s: System) {
    !s.d.inFlight && s.jobs == [] && s.working.None? && s.results == []
  }

  /** From an idle state a tick, the actor's turn and its reply leave one answer to the current job. */
  lemma Validate(h: Trace, current: Result<ProofWindow, ()>, next: Result<ProofWindow, ()>) returns (k: Trace)
    requires Happens(h) && Idle(h.s) && Prepares(h.s.d.Job().current, current)
    requires h.s.d.Job().next.Some? ==> Prepares(h.s.d.Job().next.value, next)
    ensures Happens(k)
    ensures k.s == h.s.(d := h.s.d.(inFlight := true), results := [Answer(h.s.d.Job(), current, next)])
  {
    var s, job := h.s, h.s.d.Job();
    var ticked := s.(d := s.d.(inFlight := true), jobs := [job]);
    var taken := ticked.(jobs := [], working := Some(job));
    var replied := taken.(working := None, results := [Answer(job, current, next)]);
    assert Moves(s, Tick, ticked) && Moves(ticked, ActorTake, taken);
    assert Moves(taken, ActorReply(current, next), replied);
    k := Then(Then(h, Tick, ticked), ActorTake, taken);
    assert Happens(k);
    k := Then(k, ActorReply(current, next), replied);
  }

  function StartAt(slot: U64): (s: Start) {
    Start(slot, Zeros(32), 0)
  }

  function WindowBetween(a: U64, b: U64): (w: ProofWindow) {
    ProofWindow(StartAt(a), StartAt(b))
  }

  function FreshSystem(next: Option<Start>): (s: System) {
    System(InitialDetector(StartAt(0), next), [], None, [], [], [], [], 0)
  }

  /** A window is staged while a job is in flight, and the job then fails. */
  lemma StaleMarkStands() returns (h: Trace)
    ensures Happens(h) && h.s == FreshSystem(Some(StartAt(64))).(d := h.s.d)
    ensures h.s.d == InitialDetector(StartAt(0), Some(StartAt(64))).(stale := true)
  {
    var idle := FreshSystem(None);
    h := Validate(Begin(idle), Err(()), Err(()));
    var sent := h.s.(stageQueue := [StartAt(64)]);
    var marked := h.s.(d := h.s.d.(next := Some(StartAt(64)), stale := true));
    h := Then(Then(h, SendStage(StartAt(64)), sent), ReceiveStage, marked);
    h := Then(h, ReceiveResult, idle.(d := idle.d.(next := Some(StartAt(64)), stale := true)));
  }

  lemma ReachDroppedResult() returns (h: Trace)
    ensures Happens(h) && h.s.results == [Ok(Dual(WindowBetween(0, 96), Some(WindowBetween(64, 96))))]
    ensures Answers(h.s.d.Job(), h.s.results[0]) && h.s.d.latestSlot == 0
    ensures Apply(h.s, ReceiveResult).d.latestSlot == 0 && Apply(h.s, ReceiveResult).emitted == []
  {
    h := StaleMarkStands();
    h := Validate(h, Ok(WindowBetween(0, 96)), Ok(WindowBetween(64, 96)));
  }

  /** A run in which a fresh result that shows progress is dropped: an error answered a job that had
      gone stale, and the mark it left standing falls on the next result. */
  lemma FreshResultDropped() returns (states: seq<System>, steps: seq<Step>, s: System)
    ensures IsRun(states, steps) && s == states[|steps|]
    ensures s.results == [Ok(Dual(WindowBetween(0, 96), Some(WindowBetween(64, 96))))]
    ensures Answers(s.d.Job(), s.results[0]) && s.d.latestSlot == 0
    ensures Apply(s, ReceiveResult).d.latestSlot == 0 && Apply(s, ReceiveResult).emitted == []
  {
    var h := ReachDroppedResult();
    s := h.s;
    states, steps := HistoryIsRun(h);
  }

  lemma ReachWithheldProgress() returns (h: Trace)
    ensures Happens(h) && h.s.results == [Ok(Dual(WindowBetween(0, 128), Some(WindowBetween(64, 96))))]
    ensures Answers(h.s.d.Job(), h.s.results[0]) && !h.s.d.stale && h.s.d.latestSlot == 96
    ensures Apply(h.s, ReceiveResult).d.latestSlot == 128 && Apply(h.s, ReceiveResult).emitted == h.s.emitted
  {
    h := Validate(Begin(FreshSystem(Some(StartAt(64)))), Ok(WindowBetween(0, 96)), Ok(WindowBetween(64, 96)));
    var first := Dual(WindowBetween(0, 96), Some(WindowBetween(64, 96)));
    var emission := Emission(first, StartAt(0), Some(StartAt(64)), 0, 0);
    var idle := FreshSystem(Some(StartAt(64)));
    h := Then(h, ReceiveResult, idle.(d := idle.d.(latestSlot := 96), emitted := [emission]));
    h := Validate(h, Ok(WindowBetween(0, 128)), Ok(WindowBetween(64, 96)));
  }

  /** A run in which accepted progress is not passed on: the current window ends beyond the slot
      accepted before and the next window does not. */
  lemma ProgressWithheld() returns (states: seq<System>, steps: seq<Step>, s: System)
    ensures IsRun(states, steps) && s == states[|steps|]
    ensures s.results == [Ok(Dual(WindowBetween(0, 128), Some(WindowBetween(64, 96))))]
    ensures Answers(s.d.Job(), s.results[0]) && !s.d.stale && s.d.latestSlot == 96
    ensures Apply(s, ReceiveResult).d.latestSlot == 128 && Apply(s, ReceiveResult).emitted == s.emitted
  {
    var h := ReachWithheldProgress();
    s := h.s;
    states, steps := HistoryIsRun(h);
  }
}
