/** What the detector's variables record, over every run: the messages received and the results accepted. */
module DetectorHistory {
  import opened ByteCodec
  import opened Windows
  import opened Detector

  // ---- the stale mark -------------------------------------------------------------------------

  predicate Message(step: Step) {
    step.ReceiveStage? || step.ReceiveAdvance?
  }

  predicate Succeeds(s: System, step: Step) {
    step.ReceiveResult? && s.results != [] && s.results[0].Ok?
  }

  /** At every step of every run: the mark is raised by a message received while a job is in flight, lowered
      by any successful result, and otherwise kept. */
  lemma StaleExactly(states: seq<System>, steps: seq<Step>, i: nat)
    requires IsRun(states, steps) && i < |steps|
    ensures states[i + 1].d.stale
       <==> !Succeeds(states[i], steps[i]) && (states[i].d.stale || (Message(steps[i]) && states[i].d.inFlight))
  {
    RunsKeepInvariant(states, steps, i);
    if Succeeds(states[i], steps[i]) && !states[i].d.stale {
      MismatchIsUnreachable(states[i]);
    }
  }

  lemma {:induction false} StaysFresh(states: seq<System>, steps: seq<Step>, i: nat, j: nat)
    requires IsRun(states, steps) && i <= j < |states| && !states[i].d.stale
    requires forall k | i <= k < j :: !Message(steps[k])
    ensures !states[j].d.stale
    decreases j
  {
    if i < j {
      StaysFresh(states, steps, i, j - 1);
      StaleExactly(states, steps, j - 1);
    }
  }

  /** In every run, after a successful result, stale or not, and with no message received since, the next
      successful result answers the inputs in force, and is accepted exactly when it ends beyond the slot
      accepted before: dropping a stale result delays by one result and no more. */
  lemma FreshAfterSuccess(states: seq<System>, steps: seq<Step>, i: nat, j: nat)
    requires IsRun(states, steps) && i < j < |steps| && Succeeds(states[i], steps[i]) && Succeeds(states[j], steps[j])
    requires forall k | i < k < j :: !Message(steps[k])
    ensures Answers(states[j].d.Job(), states[j].results[0])
    ensures var before, output := states[j].d.latestSlot, states[j].results[0].value.current.output.slot;
            states[j + 1].d.latestSlot == if output > before then output else before
  {
    StaleExactly(states, steps, i);
    StaysFresh(states, steps, i + 1, j);
    RunsAcceptExactly(states, steps, j);
    RunsKeepInvariant(states, steps, j);
    assert states[j].results[0] in states[j].results && states[j].d.inFlight;
  }

  // ---- the inputs in force and the next window ------------------------------------------------

  /** In every run the inputs in force, slot, store hash and cursor, are those of the last advance. */
  lemma {:induction false} InForceIsLastAdvance(states: seq<System>, steps: seq<Step>, i: nat, j: nat)
    requires IsRun(states, steps) && i < j < |states| && steps[i].ReceiveAdvance?
    requires forall k | i < k < j :: !steps[k].ReceiveAdvance?
    ensures states[j].d.InForce() == states[i].advanceQueue[0]
    decreases j
  {
    if i + 1 < j {
      InForceIsLastAdvance(states, steps, i, j - 1);
    }
  }

  lemma {:induction false} InForceIsInitial(states: seq<System>, steps: seq<Step>, j: nat)
    requires IsRun(states, steps) && j < |states| && forall k | 0 <= k < j :: !steps[k].ReceiveAdvance?
    ensures states[j].d.InForce() == states[0].d.InForce()
  {
    if j > 0 {
      InForceIsInitial(states, steps, j - 1);
    }
  }

  /** An advance that reaches the slot of the expected next window. */
  predicate Reaches(s: System, step: Step, slot: U64) {
    step.ReceiveAdvance? && s.advanceQueue != [] && s.advanceQueue[0].slot == slot
  }

  /** In every run the next window is expected to start where the last staging message said, until an
      advance reaches that slot; from then on there is none. */
  lemma {:induction false} NextIsLastStaged(states: seq<System>, steps: seq<Step>, i: nat, j: nat)
    requires IsRun(states, steps) && i < j < |states| && steps[i].ReceiveStage?
    requires forall k | i < k < j :: !steps[k].ReceiveStage?
    ensures var staged := states[i].stageQueue[0];
            if exists k | i < k < j :: Reaches(states[k], steps[k], staged.slot)
            then states[j].d.next == None
            else states[j].d.next == Some(staged)
    decreases j
  {
    if i + 1 < j {
      NextIsLastStaged(states, steps, i, j - 1);
    }
  }

  lemma {:induction false} NextIsInitial(states: seq<System>, steps: seq<Step>, j: nat)
    requires IsRun(states, steps) && j < |states| && forall k | 0 <= k < j :: !steps[k].ReceiveStage?
    ensures var initial := states[0].d.next;
            if initial.Some? && exists k | 0 <= k < j :: Reaches(states[k], steps[k], initial.value.slot)
            then states[j].d.next == None
            else states[j].d.next == initial
  {
    if j > 0 {
      NextIsInitial(states, steps, j - 1);
    }
  }

  // ---- the accepted slot and the jobs ---------------------------------------------------------

  /** In every run the accepted slot changes only when a result is accepted, and an advance resets it to the
      slot advanced to. */
  lemma AcceptedSlotExactly(states: seq<System>, steps: seq<Step>, i: nat)
    requires IsRun(states, steps) && i < |steps|
    ensures steps[i].ReceiveAdvance? ==> states[i + 1].d.latestSlot == states[i].advanceQueue[0].slot
    ensures !steps[i].ReceiveAdvance? && !Succeeds(states[i], steps[i]) ==>
              states[i + 1].d.latestSlot == states[i].d.latestSlot
  {
  }

  /** In every run a job is sent exactly by a tick that finds none in flight and by a stale success. It asks
      for the inputs in force, and for the expected next window unless that starts at their slot. */
  lemma JobsAskForInputsInForce(states: seq<System>, steps: seq<Step>, i: nat)
    requires IsRun(states, steps) && i < |steps|
    ensures var s, t := states[i], states[i + 1];
            var asked := ValidationJob(Start(s.d.slot, s.d.storeHash, s.d.cursor),
                                       if s.d.next.Some? && s.d.next.value.slot == s.d.slot then None else s.d.next);
            var sends := (steps[i].Tick? && !s.d.inFlight) || (Succeeds(s, steps[i]) && s.d.stale);
            && (sends ==> t.jobs == [asked] && t.d.inFlight)
            && (!sends && !steps[i].ActorTake? ==> t.jobs == s.jobs)
  {
    RunsKeepInvariant(states, steps, i);
  }
}
