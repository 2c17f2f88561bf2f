/** Two runs of the joined actors. Both begin alike: a first window, from slot 0 to slot 32, proves, and a
    window from the same start to slot 128, announced late, is staged next.

    In the first run a window is staged that starts at no root and at no proven end, so the exception
    `Pipeline.Grounded` allows does occur. A full batch makes it real: at slot 128 more than a full batch
    waits, so the late window, which starts at cursor 0, stops at cursor 65536, and the window from slot 32
    and cursor 10 stops at cursor 65546. The late window's job fails, the other is retried and proves
    (128, 65546), and the cached next window, which starts at (128, 65536), is staged on that proof.

    In the second run the head moves backward. The late window proves, and then a window from slot 32 to
    slot 96, emitted in between from a provider that lags, is announced, staged and proven. */
module StagingRun {
  import opened ByteCodec
  import opened Windows
  import opened Histories
  import opened Pipeline

  // ---- runs, written down ---------------------------------------------------------------------

  type Trace = History<State, Step>

  predicate Moves(p: State, step: Step, q: State) {
    Enabled(p, step) && q == Apply(p, step)
  }

  ghost predicate Happens(h: Trace) {
    match h
    case Begin(s) => Initial(s)
    case Then(before, step, s) => Happens(before) && Moves(before.s, step, s)
  }

  lemma {:induction false} HistoryIsRun(h: Trace) returns (states: seq<State>, steps: seq<Step>)
    requires Happens(h)
    ensures IsRun(states, steps) && states[0] == FirstState(h) && states[|steps|] == h.s
    ensures h.Then? ==> steps != [] && steps[|steps| - 1] == h.step && states[|steps| - 1] == h.before.s
  {
    match h
    case Begin(s) =>
      states, steps := [s], [];
    case Then(before, step, s) =>
      states, steps := HistoryIsRun(before);
      states, steps := states + [s], steps + [step];
  }

  lemma DetectorGo(h: Trace, x: D.Step, d: D.System) returns (k: Trace)
    requires Happens(h) && !x.SendStage? && !x.SendAdvance? && D.Moves(h.s.d, x, d)
    ensures Happens(k) && FirstState(k) == FirstState(h) && k.s == h.s.(d := d)
  {
    k := Then(h, DetectorStep(x), h.s.(d := d));
  }

  lemma BridgeGo(h: Trace, x: B.Step, b: B.System) returns (k: Trace)
    requires Happens(h) && (x.ReceiveEvent? || x.ReceiveResult?) && B.Enabled(h.s.b, x) && b == B.Apply(h.s.b, x)
    ensures Happens(k) && FirstState(k) == FirstState(h) && k.s == h.s.(b := b)
  {
    k := Then(h, BridgeStep(x), h.s.(b := b));
  }

  lemma CommandGo(h: Trace) returns (k: Trace)
    requires Happens(h) && h.s.b.commands != []
    ensures Happens(k) && FirstState(k) == FirstState(h) && k.s == RunCommand(h.s)
  {
    k := Then(h, BridgeStep(B.ReceiveCommand), RunCommand(h.s));
  }

  lemma WorkerGo(h: Trace, id: nat, outcome: Result<Start, ()>) returns (k: Trace)
    requires Happens(h) && id in h.s.b.workers && CommitsItsWindow(h.s.b, id, outcome)
    ensures Happens(k) && FirstState(k) == FirstState(h) && k.s == RunWorker(h.s, id, outcome)
  {
    k := Then(h, BridgeStep(B.WorkerDone(id, outcome)), RunWorker(h.s, id, outcome));
  }

  // ---- stretches of a run ---------------------------------------------------------------------

  function Emitted(d: D.System, dual: Dual): (e: D.System) {
    d.(d := d.d.(latestSlot := dual.current.output.slot),
       emitted := d.emitted + [D.Emission(dual, d.d.InForce(), d.d.FilteredNext(), d.d.latestSlot, d.epoch)])
  }

  /** The detector and its actor alone, from idle: one job is built, prepared and answered. */
  lemma Reply(h: Trace, w: ProofWindow, next: Option<ProofWindow>) returns (k: Trace)
    requires Happens(h) && D.Idle(h.s.d) && D.Answers(h.s.d.d.Job(), Ok(Dual(w, next)))
    ensures Happens(k) && FirstState(k) == FirstState(h)
    ensures k.s == h.s.(d := h.s.d.(d := h.s.d.d.(inFlight := true), results := [Ok(Dual(w, next))]))
  {
    var d, job := h.s.d, h.s.d.d.Job();
    var second := if next.Some? then Ok(next.value) else Err(());
    var ticked := d.(d := d.d.(inFlight := true), jobs := [job]);
    var taken := ticked.(jobs := [], working := Some(job));
    k := DetectorGo(h, D.Tick, ticked);
    k := DetectorGo(k, D.ActorTake, taken);
    k := DetectorGo(k, D.ActorReply(Ok(w), second), taken.(working := None, results := [Ok(Dual(w, next))]));
  }

  /** The answer, when it shows progress, is emitted. */
  lemma Emit(h: Trace, w: ProofWindow, next: Option<ProofWindow>) returns (k: Trace)
    requires Happens(h) && D.Idle(h.s.d) && !h.s.d.d.stale
    requires D.Answers(h.s.d.d.Job(), Ok(Dual(w, next)))
    requires w.output.slot > h.s.d.d.latestSlot && D.Emits(h.s.d.d, Dual(w, next))
    ensures Happens(k) && FirstState(k) == FirstState(h) && k.s == h.s.(d := Emitted(h.s.d, Dual(w, next)))
  {
    k := Reply(h, w, next);
    k := DetectorGo(k, D.ReceiveResult, Emitted(h.s.d, Dual(w, next)));
  }

  /** The next emission is delivered and its notice received. */
  lemma Announce(h: Trace, dual: Dual) returns (k: Trace)
    requires Happens(h) && h.s.delivered < |h.s.d.emitted| && h.s.d.emitted[h.s.delivered].dual == dual
    requires h.s.b.events == []
    ensures var o := B.AfterEvent(h.s.b.observer, B.FinalityTransitionDetected(dual));
            k.s == h.s.(delivered := h.s.delivered + 1,
                        b := h.s.b.(head := h.s.b.head.(nextSlot := dual.current.output.slot), observer := o.state,
                                    commands := h.s.b.commands + o.sent))
    ensures Happens(k) && FirstState(k) == FirstState(h)
  {
    var b, o := h.s.b, B.AfterEvent(h.s.b.observer, B.FinalityTransitionDetected(dual));
    var told := b.(head := b.head.(nextSlot := dual.current.output.slot),
                   events := [B.FinalityTransitionDetected(dual)]);
    k := Then(h, DeliverEmission, h.s.(b := told, delivered := h.s.delivered + 1));
    k := BridgeGo(k, B.ReceiveEvent, told.(events := [], observer := o.state, commands := b.commands + o.sent));
  }

  function Registered(b: B.System, w: ProofWindow): (c: B.System) {
    b.(commands := [], head := B.AfterStaging(b.head, w), workers := b.workers + {b.head.jobId + 1})
  }

  /** A queued stage command is executed and its notice received. */
  lemma Stage(h: Trace, w: ProofWindow) returns (k: Trace)
    requires Happens(h) && h.s.b.commands == [B.StageTransitionProof(w)] && h.s.b.events == []
    ensures Happens(k) && FirstState(k) == FirstState(h)
    ensures k.s == h.s.(b := Registered(h.s.b, w), staged := h.s.staged + [w],
                        d := h.s.d.(stageQueue := h.s.d.stageQueue + [w.output]))
  {
    k := CommandGo(h);
    k := BridgeGo(k, B.ReceiveEvent, Registered(h.s.b, w));
  }

  /** A queued advance is executed and its notice received. */
  lemma AdvanceTo(h: Trace, head: Start, rest: seq<B.Command>) returns (k: Trace)
    requires Happens(h) && h.s.b.commands == [B.Advance(head)] + rest && h.s.b.events == []
    ensures Happens(k) && FirstState(k) == FirstState(h)
    ensures k.s == h.s.(b := h.s.b.(commands := rest, head := h.s.b.head.(current := head)),
                        d := h.s.d.(advanceQueue := h.s.d.advanceQueue + [head]))
  {
    k := CommandGo(h);
    k := BridgeGo(k, B.ReceiveEvent, h.s.b.(commands := rest, head := h.s.b.head.(current := head)));
  }

  /** Nothing is cached for the next window: a proof received raises the flag and advances the head. */
  lemma AdvanceOnProof(h: Trace, output: Start) returns (k: Trace)
    requires Happens(h) && h.s.b.events == [B.ProofMessage(output)] && h.s.b.commands == []
    requires h.s.b.observer.latestNext.None?
    ensures Happens(k) && FirstState(k) == FirstState(h)
    ensures k.s == h.s.(b := h.s.b.(events := [], head := h.s.b.head.(current := output),
                                    observer := h.s.b.observer.(current := output, staging := true)),
                        d := h.s.d.(advanceQueue := h.s.d.advanceQueue + [output]))
  {
    var o := h.s.b.observer.(current := output, staging := true);
    k := BridgeGo(h, B.ReceiveEvent, h.s.b.(events := [], observer := o, commands := [B.Advance(output)]));
    k := AdvanceTo(k, output, []);
  }

  predicate OneJob(b: B.System, id: nat, w: ProofWindow) {
    0 < id && b.head.proverJobs == map[id := w] && b.workers == {id} && b.results == [] && b.events == []
  }

  function Finished(b: B.System): (c: B.System) {
    b.(workers := {}, head := b.head.(proverJobs := map[]))
  }

  /** The one live job proves; its proof message is left to be received. */
  lemma Prove(h: Trace, id: nat, w: ProofWindow) returns (k: Trace)
    requires Happens(h) && OneJob(h.s.b, id, w)
    ensures Happens(k) && FirstState(k) == FirstState(h)
    ensures k.s == h.s.(b := Finished(h.s.b).(events := [B.ProofMessage(w.output)]), proven := h.s.proven + {id - 1})
  {
    k := WorkerGo(h, id, Ok(w.output));
    var done := Finished(h.s.b);
    k := BridgeGo(k, B.ReceiveResult, done.(events := [B.JobSucceeded(id), B.ProofMessage(w.output)]));
    k := BridgeGo(k, B.ReceiveEvent, done.(events := [B.ProofMessage(w.output)]));
  }

  /** The one live job fails and the cached current window is sent to be staged. */
  lemma Retry(h: Trace, id: nat, w: ProofWindow, again: ProofWindow) returns (k: Trace)
    requires Happens(h) && OneJob(h.s.b, id, w) && h.s.b.observer.latestCurrent == Some(again) && h.s.b.commands == []
    ensures Happens(k) && FirstState(k) == FirstState(h)
    ensures k.s == h.s.(b := Finished(h.s.b).(commands := [B.StageTransitionProof(again)]))
  {
    k := WorkerGo(h, id, Err(()));
    var done := Finished(h.s.b);
    k := BridgeGo(k, B.ReceiveResult, done.(events := [B.JobFailed(id, 0)]));
    k := BridgeGo(k, B.ReceiveEvent, done.(commands := [B.StageTransitionProof(again)]));
  }

  // ---- the run --------------------------------------------------------------------------------

  function StartAt(slot: U64, cursor: nat): (x: Start) {
    Start(slot, Zeros(32), cursor)
  }

  const FIRST: ProofWindow := ProofWindow(StartAt(0, 0), StartAt(32, 10))
  const LATE: ProofWindow := ProofWindow(StartAt(0, 0), StartAt(128, 65536))
  const RETRIED: ProofWindow := ProofWindow(StartAt(32, 10), StartAt(128, 65546))
  const CACHED: ProofWindow := ProofWindow(StartAt(128, 65536), StartAt(160, 131072))
  const LAGGING: ProofWindow := ProofWindow(StartAt(32, 10), StartAt(96, 20))

  function Emissions(): (es: seq<D.Emission>) {
    [D.Emission(Dual(FIRST, None), StartAt(0, 0), None, 0, 0), D.Emission(Dual(LATE, None), StartAt(0, 0), None, 32, 0)]
  }

  function IdleDetector(d: D.DetectorState): (s: D.System) {
    D.System(d, [], None, [], [], [], [], 0)
  }

  function Opening(): (p: State) {
    State(IdleDetector(D.InitialDetector(StartAt(0, 0), None)),
          B.System(B.HeadState(StartAt(0, 0), 0, 0, map[]), B.InitialObserver(), [], {}, [],
                   [B.Started(StartAt(0, 0))], false),
          0, [], {})
  }

  /** Two windows from the first start are emitted before the first is announced. */
  function TwiceEmitted(): (d: D.System) {
    IdleDetector(D.InitialDetector(StartAt(0, 0), None).(latestSlot := 128)).(emitted := Emissions())
  }

  /** The bridge side between jobs or with one live job, nothing under way. */
  function Bridge(current: Start, nextSlot: U64, jobId: nat, jobs: map<nat, ProofWindow>, held: ProofWindow,
                  next: Option<ProofWindow>): (b: B.System) {
    B.System(B.HeadState(current, nextSlot, jobId, jobs), B.ObserverState(true, current, false, Some(held), next),
             [], jobs.Keys, [], [], false)
  }

  lemma EmitTwice() returns (h: Trace)
    ensures Happens(h) && FirstState(h) == Opening() && h.s == Opening().(d := TwiceEmitted())
  {
    h := Emit(Begin(Opening()), FIRST, None);
    h := Emit(h, LATE, None);
  }

  /** The first window is staged. */
  lemma StageFirst() returns (h: Trace)
    ensures Happens(h) && FirstState(h) == Opening()
    ensures h.s == State(TwiceEmitted().(stageQueue := [FIRST.output]),
                         Bridge(StartAt(0, 0), 32, 1, map[1 := FIRST], FIRST, None), 1, [FIRST], {})
  {
    h := EmitTwice();
    var b := h.s.b.(events := [], observer := B.ObserverState(true, StartAt(0, 0), true, None, None));
    h := BridgeGo(h, B.ReceiveEvent, b);
    h := Announce(h, Dual(FIRST, None));
    h := Stage(h, FIRST);
  }

  /** It proves and the head advances. */
  lemma ProveFirst() returns (h: Trace)
    ensures Happens(h) && FirstState(h) == Opening()
    ensures h.s == State(TwiceEmitted().(stageQueue := [FIRST.output], advanceQueue := [FIRST.output]),
                         Waiting(Bridge(FIRST.output, 32, 1, map[], FIRST, None)), 1, [FIRST], {0})
  {
    h := StageFirst();
    h := Prove(h, 1, FIRST);
    h := AdvanceOnProof(h, FIRST.output);
  }

  /** The observer's staging flag is up. */
  function Waiting(b: B.System): (c: B.System) {
    b.(observer := b.observer.(staging := true))
  }

  /** The window announced late is staged. */
  lemma StageLate() returns (h: Trace)
    ensures Happens(h) && FirstState(h) == Opening()
    ensures h.s == State(TwiceEmitted().(stageQueue := [FIRST.output, LATE.output], advanceQueue := [FIRST.output]),
                         Bridge(FIRST.output, 128, 2, map[2 := LATE], LATE, None), 2, [FIRST, LATE], {0})
  {
    h := ProveFirst();
    h := Announce(h, Dual(LATE, None));
    h := Stage(h, LATE);
  }

  function Informed(): (d: D.System) {
    IdleDetector(D.InitialDetector(FIRST.output, Some(LATE.output))).(emitted := Emissions(), epoch := 1)
  }

  function DualEmitted(): (d: D.System) {
    Emitted(Informed(), Dual(RETRIED, Some(CACHED)))
  }

  lemma Inform() returns (h: Trace)
    ensures Happens(h) && FirstState(h) == Opening()
    ensures h.s == State(Informed(), Bridge(FIRST.output, 128, 2, map[2 := LATE], LATE, None), 2, [FIRST, LATE], {0})
  {
    h := StageLate();
    var d := h.s.d;
    h := DetectorGo(h, D.ReceiveStage, d.(stageQueue := [LATE.output], d := d.d.(next := Some(FIRST.output))));
    h := DetectorGo(h, D.ReceiveStage, d.(stageQueue := [], d := d.d.(next := Some(LATE.output))));
    h := DetectorGo(h, D.ReceiveAdvance, Informed());
  }

  /** The detector, told of both, emits a window from the new head and one from the late window's end. */
  lemma EmitDual() returns (h: Trace)
    ensures Happens(h) && FirstState(h) == Opening()
    ensures h.s == State(DualEmitted(), Bridge(FIRST.output, 128, 2, map[2 := LATE], RETRIED, Some(CACHED)), 3,
                         [FIRST, LATE], {0})
  {
    h := Inform();
    h := Emit(h, RETRIED, Some(CACHED));
    h := Announce(h, Dual(RETRIED, Some(CACHED)));
  }

  /** The late window's job fails, and the window from the head is sent to be staged. */
  lemma RetryQueued() returns (h: Trace)
    ensures Happens(h) && FirstState(h) == Opening()
    ensures h.s == State(DualEmitted(), Bridge(FIRST.output, 128, 2, map[], RETRIED, Some(CACHED))
                                        .(commands := [B.StageTransitionProof(RETRIED)]),
                         3, [FIRST, LATE], {0})
  {
    h := EmitDual();
    h := Retry(h, 2, LATE, RETRIED);
  }

  /** It is staged. */
  lemma StageRetried() returns (h: Trace)
    ensures Happens(h) && FirstState(h) == Opening()
    ensures h.s == State(DualEmitted().(stageQueue := [RETRIED.output]),
                         Bridge(FIRST.output, 128, 3, map[3 := RETRIED], RETRIED, Some(CACHED)), 3,
                         [FIRST, LATE, RETRIED], {0})
  {
    h := RetryQueued();
    h := Stage(h, RETRIED);
  }

  /** It proves. */
  lemma ProveRetried() returns (h: Trace)
    ensures Happens(h) && FirstState(h) == Opening()
    ensures h.s == State(DualEmitted().(stageQueue := [RETRIED.output]),
                         Bridge(FIRST.output, 128, 3, map[], RETRIED, Some(CACHED))
                         .(events := [B.ProofMessage(RETRIED.output)]),
                         3, [FIRST, LATE, RETRIED], {0, 2})
  {
    h := StageRetried();
    h := Prove(h, 3, RETRIED);
  }

  /** On that proof the cached next window is staged. It starts at the slot proven, but at no root and at
      no state ever proven. */
  lemma UnprovenStartIsStaged() returns (states: seq<State>, steps: seq<Step>)
    ensures IsRun(states, steps)
    ensures var p := states[|steps|];
            && p.staged == [FIRST, LATE, RETRIED, CACHED] && p.proven == {0, 2}
            && CACHED.input.slot == RETRIED.output.slot
            && !Settled(Roots(states[0]), p.staged, p.proven, CACHED.input)
  {
    var h := ProveRetried();
    var head := RETRIED.output;
    var sent := [B.Advance(head), B.StageTransitionProof(CACHED)];
    var o := h.s.b.observer.(current := head);
    h := BridgeGo(h, B.ReceiveEvent, h.s.b.(events := [], observer := o, commands := sent));
    h := AdvanceTo(h, head, [B.StageTransitionProof(CACHED)]);
    h := Stage(h, CACHED);
    states, steps := HistoryIsRun(h);
  }

  // ---- the head moves backward ----------------------------------------------------------------

  /** The detector, told of the advance and not yet of the staged windows. */
  function HalfInformed(): (d: D.System) {
    IdleDetector(D.InitialDetector(FIRST.output, None))
    .(emitted := Emissions(), epoch := 1, stageQueue := [FIRST.output, LATE.output])
  }

  /** It emits a window from the new head, ending before the late one does. */
  lemma EmitLagging() returns (h: Trace)
    ensures Happens(h) && FirstState(h) == Opening()
    ensures h.s == State(Emitted(HalfInformed(), Dual(LAGGING, None)),
                         Bridge(FIRST.output, 128, 2, map[2 := LATE], LATE, None), 2, [FIRST, LATE], {0})
  {
    h := StageLate();
    h := DetectorGo(h, D.ReceiveAdvance, HalfInformed());
    h := Emit(h, LAGGING, None);
  }

  /** The late window proves and the head is at slot 128. */
  lemma ProveLate() returns (h: Trace)
    ensures Happens(h) && FirstState(h) == Opening() && h.s.d.emitted == Emissions() + [LaggingEmission()]
    ensures h.s.b == Waiting(Bridge(LATE.output, 128, 2, map[], LATE, None)) && h.s.delivered == 2
  {
    h := EmitLagging();
    h := Prove(h, 2, LATE);
    h := AdvanceOnProof(h, LATE.output);
  }

  function LaggingEmission(): (e: D.Emission) {
    D.Emission(Dual(LAGGING, None), FIRST.output, None, 32, 1)
  }

  /** The lagging window is announced, staged and proven. */
  lemma ProveLagging() returns (h: Trace)
    ensures Happens(h) && h.s.b.head.current == LATE.output && h.s.b.observer.latestNext.None?
    ensures h.s.b.events == [B.ProofMessage(LAGGING.output)] && h.s.b.commands == []
  {
    h := ProveLate();
    h := Announce(h, Dual(LAGGING, None));
    h := Stage(h, LAGGING);
    h := Prove(h, 3, LAGGING);
  }

  /** The last step of this run takes the head from slot 128 back to slot 96. */
  lemma HeadMovesBack() returns (states: seq<State>, steps: seq<Step>)
    ensures IsRun(states, steps) && steps != [] && steps[|steps| - 1] == BridgeStep(B.ReceiveCommand)
    ensures states[|steps| - 1].b.head.current == LATE.output && states[|steps|].b.head.current == LAGGING.output
    ensures LATE.output.slot == 128 && LAGGING.output.slot == 96
  {
    var h := ProveLagging();
    var o := h.s.b.observer.(current := LAGGING.output, staging := true);
    h := BridgeGo(h, B.ReceiveEvent, h.s.b.(events := [], observer := o, commands := [B.Advance(LAGGING.output)]));
    h := Then(h, BridgeStep(B.ReceiveCommand), RunCommand(h.s));
    states, steps := HistoryIsRun(h);
  }
}
