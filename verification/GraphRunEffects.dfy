/** What each step of the dispatch protocol writes, column by column: every value that changes,
    exactly when, and to what. */
module GraphRunEffects {
  import opened Options
  import opened GraphRuns

  // ---------------------------------------------------------------- what a step can be

  /** RUNNING at the generation a step was issued for. */
  ghost predicate RunsAt(w: World, r: string, generation: nat) {
    r in w.runs && w.runs[r].status == RUNNING && w.runs[r].generation == generation
  }

  /** The reviewer's organization owns the run, and the run waits for a decision. */
  ghost predicate DecisionWins(w: World, e: Event, r: string) {
    e.Reviewed? && e.runId == r && r in w.runs && w.runs[r].orgId == e.orgId && w.runs[r].status == AWAITING_APPROVAL
  }

  /** A drive of this run comes to its end at the run's own generation. */
  ghost predicate DriveCounts(w: World, e: Event, r: string) {
    && e.DriveEnded? && e.worker in w.workers && w.workers[e.worker].phase.Driving?
    && w.workers[e.worker].runId == r && RunsAt(w, r, w.workers[e.worker].generation)
  }

  ghost predicate ExhaustionCounts(w: World, e: Event, r: string) {
    e.Exhausted? && e.runId == r && RunsAt(w, r, e.generation)
  }

  ghost predicate ClaimWins(w: World, e: Event, r: string) {
    e.ClaimTried? && e.runId == r && RunsAt(w, r, e.generation) && w.runs[r].lastActivity < e.cutoff
  }

  ghost predicate BeatCounts(w: World, e: Event, r: string) {
    e.Heartbeat? && e.runId == r && RunsAt(w, r, e.generation)
  }

  /** The worker that drove the decision still pending at its generation clears it. */
  ghost predicate ClearCounts(w: World, e: Event, r: string) {
    && e.Cleared? && e.worker in w.workers && w.workers[e.worker].phase.Clearing? && w.workers[e.worker].runId == r
    && r in w.runs && w.runs[r].generation == w.workers[e.worker].generation
    && w.runs[r].pending == Some(w.workers[e.worker].phase.decision)
  }

  /** Where a drive takes its run: waiting for approval, done, failed; a retryable error nowhere. */
  ghost predicate GoesTo(outcome: DriveOutcome, status: Status) {
    && (outcome == Paused <==> status == AWAITING_APPROVAL)
    && (outcome == Finished <==> status == COMPLETED)
    && (outcome == StagesFailed || outcome == StageError <==> status == FAILED)
    && (outcome == Retryable <==> status == RUNNING)
  }

  // ---------------------------------------------------------------- the columns of a run

  lemma StatusColumn(w: World, e: Event, r: string)
    requires r in w.runs
    ensures r in Step(w, e).runs
    ensures var status := Step(w, e).runs[r].status;
      if DecisionWins(w, e, r) then status == RUNNING
      else if DriveCounts(w, e, r) then GoesTo(e.outcome, status)
      else if ExhaustionCounts(w, e, r) then status == FAILED
      else status == w.runs[r].status
  {
  }

  /** The generation moves by one, with an accepted decision or a won claim, and never otherwise. */
  lemma GenerationColumn(w: World, e: Event, r: string)
    requires r in w.runs
    ensures r in Step(w, e).runs
    ensures Step(w, e).runs[r].generation ==
      w.runs[r].generation + if DecisionWins(w, e, r) || ClaimWins(w, e, r) then 1 else 0
  {
  }

  lemma PendingColumn(w: World, e: Event, r: string)
    requires r in w.runs
    ensures r in Step(w, e).runs
    ensures Step(w, e).runs[r].pending ==
      if DecisionWins(w, e, r) then Some(e.approved) else if ClearCounts(w, e, r) then None else w.runs[r].pending
  {
  }

  lemma ActivityColumn(w: World, e: Event, r: string)
    requires r in w.runs
    ensures r in Step(w, e).runs
    ensures Step(w, e).runs[r].lastActivity ==
      if DecisionWins(w, e, r) || ClaimWins(w, e, r) || BeatCounts(w, e, r) then w.now else w.runs[r].lastActivity
  {
  }

  lemma IdentityColumns(w: World, e: Event, r: string)
    requires r in w.runs
    ensures r in Step(w, e).runs
    ensures Step(w, e).runs[r].orgId == w.runs[r].orgId
    ensures Step(w, e).runs[r].startIcpProfileIds == w.runs[r].startIcpProfileIds
  {
  }

  // ---------------------------------------------------------------- new runs

  /** Something to start from, all of it the organization's own, no run of it under way, a free id. */
  ghost predicate StartWins(w: World, e: Event) {
    && e.Started?
    && (exists id :: id in e.icpProfileIds && id != "")
    && (forall id | id in e.icpProfileIds && id != "" :: id in e.owned)
    && (forall r | r in w.runs && w.runs[r].orgId == e.orgId :: w.runs[r].status in {COMPLETED, FAILED, CANCELLED})
    && e.runId !in w.runs
  }

  /** The nonempty ids without repetition, each where it first stood. */
  ghost predicate FirstOccurrences(ids: seq<string>, seeds: seq<string>) {
    && (forall id :: id in seeds <==> id in ids && id != "")
    && (forall i, j | 0 <= i < j < |seeds| :: exists k :: 0 <= k < |ids| && ids[k] == seeds[i] && seeds[j] !in ids[..k + 1])
  }

  lemma {:induction false} CanonicalOrder(ids: seq<string>)
    ensures FirstOccurrences(ids, Canonical(ids))
  {
    if ids != [] {
      var n := |ids| - 1;
      var before, after := Canonical(ids[..n]), Canonical(ids);
      CanonicalOrder(ids[..n]);
      forall i, j | 0 <= i < j < |after|
        ensures exists k :: 0 <= k < |ids| && ids[k] == after[i] && after[j] !in ids[..k + 1]
      {
        if j < |before| {
          var k :| 0 <= k < n && ids[..n][k] == before[i] && before[j] !in ids[..n][..k + 1];
          assert ids[..n][..k + 1] == ids[..k + 1];
        } else {
          assert before[i] in before && after[j] == ids[n] && ids[n] !in before;
          var k :| 0 <= k < n && ids[..n][k] == before[i];
          assert ids[n] !in ids[..n] && ids[..k + 1] == ids[..n][..k + 1];
          assert ids[k] == after[i];
        }
      }
    }
  }

  /** A run appears only by a start that wins, as RUNNING at generation 0 with nothing pending. */
  lemma NewRuns(w: World, e: Event)
    ensures Step(w, e).runs.Keys == w.runs.Keys + if StartWins(w, e) then {e.runId} else {}
    ensures StartWins(w, e) ==>
      var run := Step(w, e).runs[e.runId];
      && run.orgId == e.orgId && run.status == RUNNING && run.generation == 0 && run.pending == None
      && run.lastActivity == w.now && FirstOccurrences(e.icpProfileIds, run.startIcpProfileIds)
  {
    if e.Started? {
      CanonicalOrder(e.icpProfileIds);
      var seeds := Canonical(e.icpProfileIds);
      assert seeds != [] ==> seeds[0] in seeds;
    }
  }

  // ---------------------------------------------------------------- everything else

  ghost predicate DeliveryWins(w: World, e: Event) {
    && e.Delivered? && e.worker !in w.workers && RunsAt(w, e.runId, e.generation) && w.runs[e.runId].orgId == e.orgId
    && (w.runs[e.runId].pending.Some? || e.runId in w.checkpoints || w.runs[e.runId].startIcpProfileIds != [])
  }

  /** A normal return of a drive that resumed a decision goes on to clear it. */
  ghost predicate GoesOnToClear(w: World, e: Event) {
    && e.DriveEnded? && e.worker in w.workers && w.workers[e.worker].phase.Driving?
    && w.workers[e.worker].phase.read.Some? && e.outcome in {Paused, Finished, StagesFailed}
  }

  /** What becomes of one worker. */
  lemma WorkerColumn(w: World, e: Event, x: nat)
    ensures Lookup(Step(w, e).workers, x) ==
      if DeliveryWins(w, e) && e.worker == x then Some(Worker(e.runId, e.generation, Driving(w.runs[e.runId].pending)))
      else if GoesOnToClear(w, e) && e.worker == x then
        Some(Worker(w.workers[x].runId, w.workers[x].generation, Clearing(w.workers[x].phase.read.value)))
      else if || (e.DriveEnded? && e.worker == x && x in w.workers && w.workers[x].phase.Driving?)
              || (e.Cleared? && e.worker == x && x in w.workers && w.workers[x].phase.Clearing?)
              || (e.Crashed? && e.worker == x)
      then None
      else Lookup(w.workers, x)
  {
  }

  lemma ClockAndCheckpoints(w: World, e: Event)
    ensures Step(w, e).now == w.now + if e.Ticked? then e.elapsed else 0
    ensures Step(w, e).checkpoints == w.checkpoints +
      if e.Checkpointed? && e.worker in w.workers && w.workers[e.worker].phase.Driving? then {w.workers[e.worker].runId} else {}
  {
  }

  ghost function LogOf(w: World, e: Event): seq<Entry> {
    match e
    case Reviewed(r, _, approved) => if DecisionWins(w, e, r) then [Decided(r, w.runs[r].generation + 1, approved)] else []
    case ClaimTried(r, g, _) => if ClaimWins(w, e, r) then [Claimed(r, g)] else []
    case Exhausted(r, g) => if ExhaustionCounts(w, e, r) then [LeftRunning(r, g, FAILED)] else []
    case DriveEnded(worker, outcome) =>
      if worker in w.workers && DriveCounts(w, e, w.workers[worker].runId) && outcome != Retryable
      then [LeftRunning(w.workers[worker].runId, w.workers[worker].generation, Step(w, e).runs[w.workers[worker].runId].status)]
      else []
    case _ => []
  }

  /** The history records every decision, every exit with the status it led to, every claim, no more. */
  lemma LogColumn(w: World, e: Event)
    ensures Step(w, e).log == w.log + LogOf(w, e)
  {
  }

  // ---------------------------------------------------------------- what a drive starts from

  /** A pending decision goes before a checkpoint, a checkpoint before the seeds. */
  lemma InputFollowsRow(run: GraphRun, hasCheckpoint: bool)
    ensures forall b :: InputFor(run, hasCheckpoint) == ResumeWith(b) <==> run.pending == Some(b)
    ensures InputFor(run, hasCheckpoint) == Continue <==> run.pending.None? && hasCheckpoint
    ensures InputFor(run, hasCheckpoint) == Unrecoverable <==> run.pending.None? && !hasCheckpoint && run.startIcpProfileIds == []
    ensures InputFor(run, hasCheckpoint).Seed? ==> InputFor(run, hasCheckpoint).icpProfileIds == run.startIcpProfileIds
  {
  }

  /** Only a continuation is looked at again, on the row and the checkpoints as they are by then. */
  lemma ResolutionFollowsRow(w: World, r: string, generation: nat, input: DriveInput)
    ensures input != Continue ==> ResolveInput(w, r, generation, input) == Invoke(input)
    ensures input == Continue && !RunsAt(w, r, generation) ==> ResolveInput(w, r, generation, input) == NotRunning
    ensures input == Continue && RunsAt(w, r, generation) ==>
      ResolveInput(w, r, generation, input) ==
        if r in w.checkpoints then Invoke(Continue)
        else if w.runs[r].pending.Some? then DecisionWithoutCheckpoint
        else if |w.runs[r].startIcpProfileIds| == 0 then NoSeed
        else Invoke(Seed(w.runs[r].startIcpProfileIds))
  {
  }

  // ---------------------------------------------------------------- a pause and its decision

  /** A drive ends: the run goes where the outcome says while its generation is the worker's, and
      stays as it is for a worker that was superseded; no other run is touched. */
  lemma DriveDecidesStatus(w: World, worker: nat, outcome: DriveOutcome)
    requires worker in w.workers && w.workers[worker].phase.Driving?
    ensures var x, w' := w.workers[worker], Step(w, DriveEnded(worker, outcome));
      && w'.runs.Keys == w.runs.Keys
      && (forall r | r in w.runs && r != x.runId :: w'.runs[r] == w.runs[r])
      && (x.runId in w.runs && !RunsAt(w, x.runId, x.generation) ==> w'.runs[x.runId] == w.runs[x.runId])
      && (RunsAt(w, x.runId, x.generation) ==>
            GoesTo(outcome, w'.runs[x.runId].status) && w'.runs[x.runId].(status := RUNNING) == w.runs[x.runId])
  {
  }

  ghost predicate NotReviewed(events: seq<Event>, r: string) {
    forall e | e in events :: !(e.Reviewed? && e.runId == r)
  }

  /** A run that waits for approval waits, at its generation, until its reviewer decides. */
  lemma {:induction false} PauseLasts(w: World, events: seq<Event>, r: string)
    requires r in w.runs && w.runs[r].status == AWAITING_APPROVAL && NotReviewed(events, r)
    ensures var w' := Run(w, events);
      r in w'.runs && w'.runs[r].status == AWAITING_APPROVAL && w'.runs[r].generation == w.runs[r].generation
      && w'.runs[r].orgId == w.runs[r].orgId
    decreases |events|
  {
    if events != [] {
      StatusColumn(w, events[0], r);
      GenerationColumn(w, events[0], r);
      IdentityColumns(w, events[0], r);
      PauseLasts(Step(w, events[0]), events[1..], r);
    }
  }

  /** From the pause to the next drive: whatever happens in between, the first decision of the run's
      own organization makes it RUNNING one generation later, and the next drive resumes with it. */
  lemma PauseIsResumed(w: World, worker: nat, events: seq<Event>, approved: bool, next: nat)
    requires worker in w.workers && w.workers[worker].phase.Driving?
    requires RunsAt(w, w.workers[worker].runId, w.workers[worker].generation)
    requires NotReviewed(events, w.workers[worker].runId)
    ensures var x := w.workers[worker];
      var r, org := x.runId, w.runs[x.runId].orgId;
      var paused := Run(Step(w, DriveEnded(worker, Paused)), events);
      var resumed := Step(paused, Reviewed(r, org, approved));
      && RunsAt(resumed, r, x.generation + 1) && resumed.runs[r].pending == Some(approved)
      && resumed.log == paused.log + [Decided(r, x.generation + 1, approved)]
      && (next !in resumed.workers ==>
            Step(resumed, Delivered(next, r, org, x.generation + 1)).workers[next] == Worker(r, x.generation + 1, Driving(Some(approved))))
  {
    var x := w.workers[worker];
    DriveDecidesStatus(w, worker, Paused);
    PauseLasts(Step(w, DriveEnded(worker, Paused)), events, x.runId);
  }
}
