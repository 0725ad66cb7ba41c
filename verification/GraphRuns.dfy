/** The GraphRun dispatch protocol as a state machine.

    Durable rows, the clock and the workers in flight make up a `World`; every database
    statement is one atomic step.  Jobs are at-least-once and may be stale, so a delivery
    step may carry any run and any generation at any time, and a worker may crash between
    any two of its steps.  The log records what the protocol promises about. */
module GraphRuns {
  import opened Options

  datatype Status = RUNNING | AWAITING_APPROVAL | COMPLETED | FAILED | CANCELLED

  datatype GraphRun = GraphRun(
    orgId: string,
    status: Status,
    generation: nat,
    pending: Option<bool>,
    lastActivity: int,
    startIcpProfileIds: seq<string>)

  /** A worker past its guards: inside the drive, or returned from it and about to clear. */
  datatype Phase = Driving(read: Option<bool>) | Clearing(decision: bool)

  datatype Worker = Worker(runId: string, generation: nat, phase: Phase)

  datatype Entry =
    | Decided(runId: string, generation: nat, approved: bool)
    | LeftRunning(runId: string, generation: nat, to: Status)
    | Claimed(runId: string, generation: nat)

  datatype World = World(
    runs: map<string, GraphRun>,
    checkpoints: set<string>,
    workers: map<nat, Worker>,
    now: int,
    log: seq<Entry>)

  // ---------------------------------------------------------------- start

  /** First occurrences of the nonempty ids, in order. */
  function Canonical(ids: seq<string>): (r: seq<string>)
    ensures forall id :: id in r <==> id in ids && id != ""
  {
    if ids == [] then []
    else
      var last := |ids| - 1;
      var rest := Canonical(ids[..last]);
      if ids[last] == "" || ids[last] in rest then rest else rest + [ids[last]]
  }

  predicate Active(status: Status) {
    status == RUNNING || status == AWAITING_APPROVAL
  }

  predicate OrgIsBusy(w: World, orgId: string) {
    exists r | r in w.runs :: w.runs[r].orgId == orgId && Active(w.runs[r].status)
  }

  /** The transaction inside runPipelineGraph, under the per-organization advisory lock. */
  function Start(w: World, runId: string, orgId: string, icpProfileIds: seq<string>, owned: set<string>): World {
    var seeds := Canonical(icpProfileIds);
    if seeds == [] || !(forall id | id in seeds :: id in owned) || OrgIsBusy(w, orgId) || runId in w.runs then w
    else w.(runs := w.runs[runId := GraphRun(orgId, RUNNING, 0, None, w.now, seeds)])
  }

  // ---------------------------------------------------------------- reviewer decisions

  function Resume(w: World, runId: string, orgId: string, approved: bool): World {
    if runId in w.runs && w.runs[runId].orgId == orgId && w.runs[runId].status == AWAITING_APPROVAL then
      var g := w.runs[runId].generation + 1;
      w.(runs := w.runs[runId := w.runs[runId].(
           status := RUNNING, lastActivity := w.now, pending := Some(approved), generation := g)],
         log := w.log + [Decided(runId, g, approved)])
    else w
  }

  // ---------------------------------------------------------------- worker

  predicate Fenced(w: World, runId: string, generation: nat) {
    runId in w.runs && w.runs[runId].status == RUNNING && w.runs[runId].generation == generation
  }

  datatype DriveInput = ResumeWith(approved: bool) | Continue | Seed(icpProfileIds: seq<string>) | Unrecoverable

  /** What the worker derives from the durable row: decision, else checkpoint, else start seed. */
  function InputFor(run: GraphRun, hasCheckpoint: bool): DriveInput {
    if run.pending.Some? then ResumeWith(run.pending.value)
    else if hasCheckpoint then Continue
    else if run.startIcpProfileIds == [] then Unrecoverable
    else Seed(run.startIcpProfileIds)
  }

  datatype Resolution = Invoke(input: DriveInput) | NotRunning | DecisionWithoutCheckpoint | NoSeed

  /** resolveInvocationInput: a null input is rechecked at the execution boundary. */
  function ResolveInput(w: World, runId: string, generation: nat, input: DriveInput): Resolution {
    if input != Continue then Invoke(input)
    else if !Fenced(w, runId, generation) then NotRunning
    else if runId in w.checkpoints then Invoke(Continue)
    else if w.runs[runId].pending.Some? then DecisionWithoutCheckpoint
    else if w.runs[runId].startIcpProfileIds == [] then NoSeed
    else Invoke(Seed(w.runs[runId].startIcpProfileIds))
  }

  function Deliver(w: World, worker: nat, runId: string, orgId: string, generation: nat): World {
    if || worker in w.workers
       || !Fenced(w, runId, generation)
       || w.runs[runId].orgId != orgId
       || InputFor(w.runs[runId], runId in w.checkpoints) == Unrecoverable
    then w
    else w.(workers := w.workers[worker := Worker(runId, generation, Driving(w.runs[runId].pending))])
  }

  function Touch(w: World, runId: string, generation: nat): World {
    if Fenced(w, runId, generation) then
      w.(runs := w.runs[runId := w.runs[runId].(lastActivity := w.now)])
    else w
  }

  /** Every write that takes a run out of RUNNING, guarded by status and generation. */
  function Leave(w: World, runId: string, generation: nat, to: Status): World {
    if Fenced(w, runId, generation) then
      w.(runs := w.runs[runId := w.runs[runId].(status := to)],
         log := w.log + [LeftRunning(runId, generation, to)])
    else w
  }

  datatype DriveOutcome = Paused | StagesFailed | Finished | StageError | Retryable

  function Target(outcome: DriveOutcome): Status
    requires outcome != Retryable
  {
    match outcome
    case Paused => AWAITING_APPROVAL
    case Finished => COMPLETED
    case _ => FAILED
  }

  function Without(workers: map<nat, Worker>, worker: nat): map<nat, Worker> {
    workers - {worker}
  }

  predicate IsDriving(w: World, worker: nat) {
    worker in w.workers && w.workers[worker].phase.Driving?
  }

  /** The drive returns or throws; only a normal return of a resumed drive goes on to clear. */
  function EndDrive(w: World, worker: nat, outcome: DriveOutcome): World {
    if !IsDriving(w, worker) then w
    else
      var x := w.workers[worker];
      var left := if outcome == Retryable then w else Leave(w, x.runId, x.generation, Target(outcome));
      if outcome == Retryable || outcome == StageError || x.phase.read.None? then
        left.(workers := Without(left.workers, worker))
      else
        left.(workers := left.workers[worker := x.(phase := Clearing(x.phase.read.value))])
  }

  function ClearDecision(w: World, worker: nat): World {
    if worker !in w.workers || w.workers[worker].phase.Driving? then w
    else
      var x := w.workers[worker];
      var cleared :=
        if && x.runId in w.runs
           && w.runs[x.runId].generation == x.generation
           && w.runs[x.runId].pending == Some(x.phase.decision)
        then w.(runs := w.runs[x.runId := w.runs[x.runId].(pending := None)])
        else w;
      cleared.(workers := Without(cleared.workers, worker))
  }

  // ---------------------------------------------------------------- recovery

  /** One claim of a sweep: `generation` and `cutoff` come from an earlier read. */
  function Claim(w: World, runId: string, generation: nat, cutoff: int): World {
    if Fenced(w, runId, generation) && w.runs[runId].lastActivity < cutoff then
      w.(runs := w.runs[runId := w.runs[runId].(lastActivity := w.now, generation := generation + 1)],
         log := w.log + [Claimed(runId, generation)])
    else w
  }

  // ---------------------------------------------------------------- steps

  datatype Event =
    | Started(runId: string, orgId: string, icpProfileIds: seq<string>, owned: set<string>)
    | Reviewed(runId: string, orgId: string, approved: bool)
    | Delivered(worker: nat, runId: string, orgId: string, generation: nat)
    | Heartbeat(runId: string, generation: nat)
    | Checkpointed(worker: nat)
    | DriveEnded(worker: nat, outcome: DriveOutcome)
    | Cleared(worker: nat)
    | Crashed(worker: nat)
    | ClaimTried(runId: string, generation: nat, cutoff: int)
    | Exhausted(runId: string, generation: nat)
    | Ticked(elapsed: nat)

  function Step(w: World, e: Event): World {
    match e
    case Started(runId, orgId, icpProfileIds, owned) => Start(w, runId, orgId, icpProfileIds, owned)
    case Reviewed(runId, orgId, approved) => Resume(w, runId, orgId, approved)
    case Delivered(worker, runId, orgId, generation) => Deliver(w, worker, runId, orgId, generation)
    case Heartbeat(runId, generation) => Touch(w, runId, generation)
    case Checkpointed(worker) =>
      if IsDriving(w, worker) then w.(checkpoints := w.checkpoints + {w.workers[worker].runId}) else w
    case DriveEnded(worker, outcome) => EndDrive(w, worker, outcome)
    case Cleared(worker) => ClearDecision(w, worker)
    case Crashed(worker) => w.(workers := Without(w.workers, worker))
    case ClaimTried(runId, generation, cutoff) => Claim(w, runId, generation, cutoff)
    case Exhausted(runId, generation) => Leave(w, runId, generation, FAILED)
    case Ticked(elapsed) => w.(now := w.now + elapsed)
  }

  function Run(w: World, events: seq<Event>): World
    decreases |events|
  {
    if events == [] then w else Run(Step(w, events[0]), events[1..])
  }

  const EmptyWorld := World(map[], {}, map[], 0, [])
}
