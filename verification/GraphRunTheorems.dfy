/** Whole-run guarantees of the dispatch protocol. */
module GraphRunTheorems {
  import opened GraphRuns
  import opened GraphRunSafety

  lemma ReachableInv(events: seq<Event>)
    ensures Inv(Run(EmptyWorld, events))
  {
    RunKeepsInv(EmptyWorld, events);
  }

  // ---------------------------------------------------------------- decisions

  /** In every reachable world a RUNNING run carries exactly the latest accepted decision, and
      any worker that picks it up drives that decision, never a fresh start in its place. */
  lemma RunningCarriesLatestDecision(events: seq<Event>, runId: string)
    requires runId in Run(EmptyWorld, events).runs
    requires Run(EmptyWorld, events).runs[runId].status == RUNNING
    ensures var w := Run(EmptyWorld, events);
      && w.runs[runId].pending == LastDecision(w.log, runId)
      && InputFor(w.runs[runId], runId in w.checkpoints) ==
           match LastDecision(w.log, runId)
           case Some(approved) => ResumeWith(approved)
           case None =>
             if runId in w.checkpoints then Continue else Seed(w.runs[runId].startIcpProfileIds)
  {
    ReachableInv(events);
    assert RunOk(Run(EmptyWorld, events), runId);
  }

  /** An open pause is a pause with no decision after it. */
  lemma {:induction false} OpenPauseIsUnanswered(log: seq<Entry>, runId: string) returns (k: nat)
    requires PauseOpen(log, runId)
    ensures k < |log| && log[k].LeftRunning? && log[k].runId == runId && log[k].to == AWAITING_APPROVAL
    ensures forall i | k < i < |log| :: !(log[i].Decided? && log[i].runId == runId)
  {
    var last := |log| - 1;
    if log[last].runId == runId && log[last].LeftRunning? {
      k := last;
    } else {
      k := OpenPauseIsUnanswered(log[..last], runId);
    }
  }

  /** Two accepted decisions on one run always have a fresh pause between them, so no pause is
      ever both granted and denied. */
  lemma OneDecisionPerPause(events: seq<Event>, i: nat, j: nat) returns (k: nat)
    requires i < j < |Run(EmptyWorld, events).log|
    requires var log := Run(EmptyWorld, events).log;
      log[i].Decided? && log[j].Decided? && log[i].runId == log[j].runId
    ensures var log := Run(EmptyWorld, events).log;
      && i < k < j && log[k].LeftRunning? && log[k].runId == log[i].runId && log[k].to == AWAITING_APPROVAL
      && log[i].generation != log[j].generation
  {
    ReachableInv(events);
    var log := Run(EmptyWorld, events).log;
    k := OpenPauseIsUnanswered(log[..j], log[j].runId);
    assert !SameSlot(log[i], log[j]);
  }

  // ---------------------------------------------------------------- single flight and fencing

  lemma OneActiveRunPerOrganization(events: seq<Event>, r: string, s: string)
    requires var w := Run(EmptyWorld, events);
      && r in w.runs && s in w.runs && w.runs[r].orgId == w.runs[s].orgId
      && Active(w.runs[r].status) && Active(w.runs[s].status)
    ensures r == s
  {
    ReachableInv(events);
  }

  /** At most one transition out of RUNNING, and at most one recovery claim, commits per generation. */
  lemma OneCommitPerGeneration(events: seq<Event>, i: nat, j: nat)
    requires i < |Run(EmptyWorld, events).log| && j < |Run(EmptyWorld, events).log|
    requires var log := Run(EmptyWorld, events).log;
      && log[i].runId == log[j].runId && log[i].generation == log[j].generation
      && ((log[i].LeftRunning? && log[j].LeftRunning?) || (log[i].Claimed? && log[j].Claimed?))
    ensures i == j
  {
    ReachableInv(events);
    var log := Run(EmptyWorld, events).log;
    assert SameSlot(log[i], log[j]) && SameSlot(log[j], log[i]);
  }

  ghost predicate Terminal(status: Status) {
    status == COMPLETED || status == FAILED || status == CANCELLED
  }

  /** What no step undoes: rows, organizations, seeds, generations, terminal states, checkpoints. */
  ghost predicate Later(w: World, w': World) {
    && w.now <= w'.now
    && w.checkpoints <= w'.checkpoints
    && forall r | r in w.runs ::
         && r in w'.runs
         && w'.runs[r].orgId == w.runs[r].orgId
         && w'.runs[r].startIcpProfileIds == w.runs[r].startIcpProfileIds
         && w.runs[r].generation <= w'.runs[r].generation
         && (Terminal(w.runs[r].status) ==>
               w'.runs[r].status == w.runs[r].status && w'.runs[r].generation == w.runs[r].generation)
  }

  lemma LeaveIsLater(w: World, runId: string, generation: nat, to: Status)
    ensures Later(w, Leave(w, runId, generation, to))
  {
  }

  lemma StepIsLater(w: World, e: Event)
    ensures Later(w, Step(w, e))
  {
    match e
    case DriveEnded(worker, outcome) =>
      if IsDriving(w, worker) && outcome != Retryable {
        LeaveIsLater(w, w.workers[worker].runId, w.workers[worker].generation, Target(outcome));
      }
    case Exhausted(runId, generation) => LeaveIsLater(w, runId, generation, FAILED);
    case _ => PlainStepIsLater(w, e);
  }

  lemma PlainStepIsLater(w: World, e: Event)
    requires !e.DriveEnded? && !e.Exhausted?
    ensures Later(w, Step(w, e))
  {
  }

  /** Generations never decrease and COMPLETED, FAILED and CANCELLED absorb, over every run. */
  lemma {:induction false} RunIsLater(w: World, events: seq<Event>)
    ensures Later(w, Run(w, events))
    decreases |events|
  {
    if events != [] {
      StepIsLater(w, events[0]);
      RunIsLater(Step(w, events[0]), events[1..]);
    }
  }

  // ---------------------------------------------------------------- the drive's recheck

  lemma StepKeepsPending(w: World, e: Event, runId: string, generation: nat)
    requires Inv(w)
    requires Fenced(w, runId, generation) && Fenced(Step(w, e), runId, generation)
    ensures Step(w, e).runs[runId].pending == w.runs[runId].pending
  {
    if e.Cleared? && Step(w, e).runs[runId] != w.runs[runId] {
      ClearOnlyHitsStoppedRows(w, e.worker, runId);
    }
  }

  lemma StepKeepsPast(w: World, e: Event, runId: string, generation: nat)
    requires Past(w, runId, generation)
    ensures Past(Step(w, e), runId, generation)
  {
  }

  /** While a run stays RUNNING at one generation its pending decision does not change. */
  lemma {:induction false} PendingIsStablePerGeneration(w: World, events: seq<Event>, runId: string, generation: nat)
    requires Inv(w)
    requires Fenced(w, runId, generation) && Fenced(Run(w, events), runId, generation)
    ensures Run(w, events).runs[runId].pending == w.runs[runId].pending
    decreases |events|
  {
    if events != [] {
      var w1 := Step(w, events[0]);
      StepKeepsInv(w, events[0]);
      StepIsLater(w, events[0]);
      RunIsLater(w1, events[1..]);
      if !Fenced(w1, runId, generation) {
        StoppedNeedsNewGeneration(w1, events[1..], runId, generation);
      }
      StepKeepsPending(w, events[0], runId, generation);
      PendingIsStablePerGeneration(w1, events[1..], runId, generation);
    }
  }

  lemma {:induction false} StoppedNeedsNewGeneration(w: World, events: seq<Event>, runId: string, generation: nat)
    requires Past(w, runId, generation)
    ensures Past(Run(w, events), runId, generation)
    decreases |events|
  {
    if events != [] {
      StepKeepsPast(w, events[0], runId, generation);
      StoppedNeedsNewGeneration(Step(w, events[0]), events[1..], runId, generation);
    }
  }

  /** A null continuation handed to the drive finds its checkpoint again or finds itself
      superseded; the "decision without checkpoint" and "no seed" errors never occur. */
  lemma ContinuationRecheckAgrees(before: seq<Event>, between: seq<Event>, runId: string, generation: nat)
    requires Fenced(Run(EmptyWorld, before), runId, generation)
    requires var w := Run(EmptyWorld, before); InputFor(w.runs[runId], runId in w.checkpoints) == Continue
    ensures var w' := Run(Run(EmptyWorld, before), between);
      ResolveInput(w', runId, generation, Continue) ==
        if Fenced(w', runId, generation) then Invoke(Continue) else NotRunning
  {
    RunIsLater(Run(EmptyWorld, before), between);
  }

  /** Every RUNNING run can be driven: the worker never meets a row with nothing to drive from. */
  lemma RecoveredRunsAreDrivable(events: seq<Event>, runId: string)
    requires runId in Run(EmptyWorld, events).runs
    ensures var w := Run(EmptyWorld, events);
      InputFor(w.runs[runId], runId in w.checkpoints) != Unrecoverable
  {
    ReachableInv(events);
    assert RunOk(Run(EmptyWorld, events), runId);
  }
}
