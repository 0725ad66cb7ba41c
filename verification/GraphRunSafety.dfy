/** What every step of the dispatch protocol keeps, and what that means for whole runs. */
module GraphRunSafety {
  import opened Options
  import opened GraphRuns

  /** The latest decision accepted for a run. */
  function LastDecision(log: seq<Entry>, runId: string): Option<bool> {
    if log == [] then None
    else
      var e := log[|log| - 1];
      if e.Decided? && e.runId == runId then Some(e.approved) else LastDecision(log[..|log| - 1], runId)
  }

  /** Whether the latest pause of a run is still unanswered. */
  predicate PauseOpen(log: seq<Entry>, runId: string) {
    if log == [] then false
    else
      var e := log[|log| - 1];
      if e.runId == runId && e.Decided? then false
      else if e.runId == runId && e.LeftRunning? then e.to == AWAITING_APPROVAL
      else PauseOpen(log[..|log| - 1], runId)
  }

  // ---------------------------------------------------------------- invariant

  /** The row is past (generation): bumped beyond it, or no longer RUNNING at it. */
  predicate Past(w: World, runId: string, generation: nat) {
    && runId in w.runs
    && (w.runs[runId].generation > generation
        || (w.runs[runId].generation == generation && w.runs[runId].status != RUNNING))
  }

  predicate WorkerOk(w: World, x: Worker) {
    && x.runId in w.runs && x.generation <= w.runs[x.runId].generation
    && match x.phase
       case Driving(read) => Fenced(w, x.runId, x.generation) ==> w.runs[x.runId].pending == read
       case Clearing(_) => Past(w, x.runId, x.generation)
  }

  predicate RunOk(w: World, runId: string)
    requires runId in w.runs
  {
    var run := w.runs[runId];
    && (run.status == RUNNING ==> run.pending == LastDecision(w.log, runId))
    && (run.status == AWAITING_APPROVAL <==> PauseOpen(w.log, runId))
    && run.startIcpProfileIds != []
  }

  predicate EntryOk(w: World, e: Entry) {
    match e
    case Decided(r, g, _) => r in w.runs && g <= w.runs[r].generation
    case LeftRunning(r, g, _) => Past(w, r, g)
    case Claimed(r, g) => r in w.runs && w.runs[r].generation > g
  }

  /** Two entries that may not both commit: one exit, one claim, one decision per generation. */
  predicate SameSlot(e: Entry, f: Entry) {
    && e.runId == f.runId && e.generation == f.generation
    && ((e.LeftRunning? && f.LeftRunning?) || (e.Claimed? && f.Claimed?) || (e.Decided? && f.Decided?))
  }

  ghost predicate LogOk(log: seq<Entry>) {
    && (forall i, j | 0 <= i < j < |log| :: !SameSlot(log[i], log[j]))
    && (forall i | 0 <= i < |log| && log[i].Decided? :: PauseOpen(log[..i], log[i].runId))
  }

  ghost predicate OneActivePerOrg(w: World) {
    forall r, s {:trigger w.runs[r], w.runs[s]} | r in w.runs && s in w.runs && Active(w.runs[r].status)
      && Active(w.runs[s].status) && w.runs[r].orgId == w.runs[s].orgId :: r == s
  }

  ghost predicate Inv(w: World) {
    && (forall x | x in w.workers :: WorkerOk(w, w.workers[x]))
    && (forall r | r in w.runs :: RunOk(w, r))
    && (forall i | 0 <= i < |w.log| :: EntryOk(w, w.log[i]))
    && LogOk(w.log)
    && OneActivePerOrg(w)
  }

  // ---------------------------------------------------------------- steps keep it

  lemma AppendedLog(log: seq<Entry>, e: Entry, runId: string)
    ensures LastDecision(log + [e], runId) ==
              if e.Decided? && e.runId == runId then Some(e.approved) else LastDecision(log, runId)
    ensures PauseOpen(log + [e], runId) ==
              if e.runId == runId && e.Decided? then false
              else if e.runId == runId && e.LeftRunning? then e.to == AWAITING_APPROVAL
              else PauseOpen(log, runId)
  {
    assert (log + [e])[..|log|] == log;
  }

  lemma AppendKeepsLogOk(log: seq<Entry>, e: Entry)
    requires LogOk(log)
    requires forall i | 0 <= i < |log| :: !SameSlot(log[i], e)
    requires e.Decided? ==> PauseOpen(log, e.runId)
    ensures LogOk(log + [e])
  {
    var log' := log + [e];
    forall i | 0 <= i < |log'| && log'[i].Decided? ensures PauseOpen(log'[..i], log'[i].runId) {
      assert log'[..i] == log[..i];
      assert log[..|log|] == log;
    }
  }

  lemma UnloggedRowsStayOk(w: World, w': World, runId: string, e: Entry)
    requires w'.log == w.log + [e] && e.runId == runId
    requires forall r | r in w.runs && r != runId :: r in w'.runs && w'.runs[r] == w.runs[r]
    requires w'.runs.Keys == w.runs.Keys
    requires forall r | r in w.runs :: RunOk(w, r)
    ensures forall r | r in w'.runs && r != runId :: RunOk(w', r)
  {
    forall r | r in w'.runs && r != runId ensures RunOk(w', r) {
      AppendedLog(w.log, e, r);
      assert RunOk(w, r);
    }
  }

  lemma StartKeeps(w: World, runId: string, orgId: string, icpProfileIds: seq<string>, owned: set<string>)
    requires Inv(w)
    ensures Inv(Start(w, runId, orgId, icpProfileIds, owned))
  {
    var w' := Start(w, runId, orgId, icpProfileIds, owned);
    if w' != w {
      FreshRunHasNoHistory(w, runId);
    }
  }

  lemma {:induction false} NoEntriesNoHistory(log: seq<Entry>, runId: string)
    requires forall i | 0 <= i < |log| :: log[i].runId != runId
    ensures LastDecision(log, runId) == None && !PauseOpen(log, runId)
  {
    if log != [] { NoEntriesNoHistory(log[..|log| - 1], runId); }
  }

  lemma FreshRunHasNoHistory(w: World, runId: string)
    requires Inv(w) && runId !in w.runs
    ensures LastDecision(w.log, runId) == None && !PauseOpen(w.log, runId)
  {
    forall i | 0 <= i < |w.log| ensures w.log[i].runId != runId {
      assert EntryOk(w, w.log[i]);
    }
    NoEntriesNoHistory(w.log, runId);
  }

  /** No entry of the log holds the slot of the entry about to be written. */
  lemma SlotIsFree(w: World, e: Entry)
    requires Inv(w) && e.runId in w.runs
    requires e.Decided? ==> e.generation > w.runs[e.runId].generation
    requires !e.Decided? ==> Fenced(w, e.runId, e.generation)
    ensures forall i | 0 <= i < |w.log| :: !SameSlot(w.log[i], e)
  {
    forall i | 0 <= i < |w.log| ensures !SameSlot(w.log[i], e) { assert EntryOk(w, w.log[i]); }
  }

  /** A logged step moves one row past the generation it was at and keeps everything else. */
  lemma LoggedStepKeeps(w: World, w': World, e: Entry)
    requires Inv(w) && e.runId in w.runs
    requires w'.log == w.log + [e] && w'.workers == w.workers && w'.runs.Keys == w.runs.Keys
    requires forall r | r in w.runs && r != e.runId :: w'.runs[r] == w.runs[r]
    requires w'.runs[e.runId].orgId == w.runs[e.runId].orgId
    requires Active(w'.runs[e.runId].status) ==> Active(w.runs[e.runId].status)
    requires || w'.runs[e.runId].generation > w.runs[e.runId].generation
             || (w'.runs[e.runId].generation == w.runs[e.runId].generation && w'.runs[e.runId].status != RUNNING)
    requires RunOk(w', e.runId) && EntryOk(w', e)
    requires e.Decided? ==> PauseOpen(w.log, e.runId)
    requires forall i | 0 <= i < |w.log| :: !SameSlot(w.log[i], e)
    ensures Inv(w')
  {
    UnloggedRowsStayOk(w, w', e.runId, e);
    AppendKeepsLogOk(w.log, e);
    forall i | 0 <= i < |w'.log| ensures EntryOk(w', w'.log[i]) {
      if i < |w.log| { assert EntryOk(w, w.log[i]); }
    }
    forall x | x in w'.workers ensures WorkerOk(w', w'.workers[x]) { assert WorkerOk(w, w.workers[x]); }
  }

  lemma ResumeKeeps(w: World, runId: string, orgId: string, approved: bool)
    requires Inv(w)
    ensures Inv(Resume(w, runId, orgId, approved))
  {
    var w' := Resume(w, runId, orgId, approved);
    if w' != w {
      var e := Decided(runId, w.runs[runId].generation + 1, approved);
      AppendedLog(w.log, e, runId);
      assert RunOk(w, runId);
      SlotIsFree(w, e);
      LoggedStepKeeps(w, w', e);
    }
  }

  lemma LeaveKeeps(w: World, runId: string, generation: nat, to: Status)
    requires Inv(w) && to != RUNNING
    ensures Inv(Leave(w, runId, generation, to))
  {
    var w' := Leave(w, runId, generation, to);
    if w' != w {
      var e := LeftRunning(runId, generation, to);
      AppendedLog(w.log, e, runId);
      assert RunOk(w, runId);
      SlotIsFree(w, e);
      LoggedStepKeeps(w, w', e);
    }
  }

  lemma ClaimKeeps(w: World, runId: string, generation: nat, cutoff: int)
    requires Inv(w)
    ensures Inv(Claim(w, runId, generation, cutoff))
  {
    var w' := Claim(w, runId, generation, cutoff);
    if w' != w {
      var e := Claimed(runId, generation);
      AppendedLog(w.log, e, runId);
      assert RunOk(w, runId);
      SlotIsFree(w, e);
      LoggedStepKeeps(w, w', e);
    }
  }

  /** Steps that touch one row's clock or its cleared decision, or only workers, checkpoints and time. */
  lemma QuietStepKeeps(w: World, w': World)
    requires Inv(w)
    requires w'.log == w.log && w'.runs.Keys == w.runs.Keys
    requires forall r | r in w.runs ::
               && w'.runs[r].orgId == w.runs[r].orgId
               && w'.runs[r].status == w.runs[r].status
               && w'.runs[r].generation == w.runs[r].generation
               && w'.runs[r].startIcpProfileIds == w.runs[r].startIcpProfileIds
               && (w.runs[r].status == RUNNING ==> w'.runs[r].pending == w.runs[r].pending)
    requires forall x | x in w'.workers ::
               (x in w.workers && w'.workers[x] == w.workers[x]) || WorkerOk(w, w'.workers[x])
    ensures Inv(w')
  {
    forall x | x in w'.workers ensures WorkerOk(w', w'.workers[x]) { assert WorkerOk(w, w'.workers[x]); }
    forall r | r in w'.runs ensures RunOk(w', r) { assert RunOk(w, r); }
    forall i | 0 <= i < |w'.log| ensures EntryOk(w', w'.log[i]) { assert EntryOk(w, w.log[i]); }
  }

  /** Clearing never reaches a RUNNING row: the drive that precedes it moved the row past its
      generation, and only a newer generation makes it RUNNING again. */
  lemma ClearOnlyHitsStoppedRows(w: World, worker: nat, runId: string)
    requires Inv(w) && runId in w.runs
    requires ClearDecision(w, worker).runs[runId] != w.runs[runId]
    ensures w.runs[runId].status != RUNNING
  {
    assert WorkerOk(w, w.workers[worker]);
  }

  /** A worker goes on to clear once its row is past its generation. */
  lemma WorkerGoesOnToClear(w: World, worker: nat, decision: bool)
    requires Inv(w) && worker in w.workers
    requires Past(w, w.workers[worker].runId, w.workers[worker].generation)
    ensures Inv(w.(workers := w.workers[worker := w.workers[worker].(phase := Clearing(decision))]))
  {
    assert WorkerOk(w, w.workers[worker]);
    QuietStepKeeps(w, w.(workers := w.workers[worker := w.workers[worker].(phase := Clearing(decision))]));
  }

  lemma WorkerExitKeeps(w: World, worker: nat)
    requires Inv(w)
    ensures Inv(w.(workers := Without(w.workers, worker)))
  {
    QuietStepKeeps(w, w.(workers := Without(w.workers, worker)));
  }

  /** After the guarded write the row is past the worker's generation, whoever made the write. */
  lemma LeftRowIsPast(w: World, runId: string, generation: nat, to: Status)
    requires runId in w.runs && generation <= w.runs[runId].generation && to != RUNNING
    ensures Past(Leave(w, runId, generation, to), runId, generation)
  {
  }

  lemma EndDriveKeeps(w: World, worker: nat, outcome: DriveOutcome)
    requires Inv(w)
    ensures Inv(EndDrive(w, worker, outcome))
  {
    if IsDriving(w, worker) {
      var x := w.workers[worker];
      assert WorkerOk(w, x);
      if outcome == Retryable {
        WorkerExitKeeps(w, worker);
      } else {
        var left := Leave(w, x.runId, x.generation, Target(outcome));
        LeaveKeeps(w, x.runId, x.generation, Target(outcome));
        LeftRowIsPast(w, x.runId, x.generation, Target(outcome));
        if outcome == StageError || x.phase.read.None? { WorkerExitKeeps(left, worker); }
        else { WorkerGoesOnToClear(left, worker, x.phase.read.value); }
      }
    }
  }

  lemma ClearKeeps(w: World, worker: nat)
    requires Inv(w)
    ensures Inv(ClearDecision(w, worker))
  {
    forall r | r in w.runs && w.runs[r].status == RUNNING
      ensures ClearDecision(w, worker).runs[r].pending == w.runs[r].pending
    {
      if ClearDecision(w, worker).runs[r] != w.runs[r] { ClearOnlyHitsStoppedRows(w, worker, r); }
    }
    QuietStepKeeps(w, ClearDecision(w, worker));
  }

  lemma QuietEventKeeps(w: World, e: Event)
    requires Inv(w)
    requires e.Delivered? || e.Heartbeat? || e.Checkpointed? || e.Crashed? || e.Ticked?
    ensures Inv(Step(w, e))
  {
    if e.Delivered? {
      DeliveryIsQuiet(w, e);
    } else {
      QuietStepKeeps(w, Step(w, e));
    }
  }

  lemma DeliveryIsQuiet(w: World, e: Event)
    requires Inv(w) && e.Delivered?
    ensures Inv(Step(w, e))
  {
    QuietStepKeeps(w, Step(w, e));
  }

  lemma StepKeepsInv(w: World, e: Event)
    requires Inv(w)
    ensures Inv(Step(w, e))
  {
    match e
    case Started(runId, orgId, icpProfileIds, owned) => StartKeeps(w, runId, orgId, icpProfileIds, owned);
    case Reviewed(runId, orgId, approved) => ResumeKeeps(w, runId, orgId, approved);
    case DriveEnded(worker, outcome) => EndDriveKeeps(w, worker, outcome);
    case Cleared(worker) => ClearKeeps(w, worker);
    case ClaimTried(runId, generation, cutoff) => ClaimKeeps(w, runId, generation, cutoff);
    case Exhausted(runId, generation) => LeaveKeeps(w, runId, generation, FAILED);
    case _ => QuietEventKeeps(w, e);
  }

  lemma {:induction false} RunKeepsInv(w: World, events: seq<Event>)
    requires Inv(w)
    ensures Inv(Run(w, events))
    decreases |events|
  {
    if events != [] {
      StepKeepsInv(w, events[0]);
      RunKeepsInv(Step(w, events[0]), events[1..]);
    }
  }
}
