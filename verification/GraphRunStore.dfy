/** The dispatch protocol's services in their own form: conditional updates on the run rows,
    one statement after another.  Each method is proved to take the durable state where the
    corresponding protocol steps take it. */
module GraphRunServices {
  import opened Options
  import opened GraphRuns
  import GraphRunRecovery

  datatype StartReply = Accepted | NoIcpProfiles | ProfileNotFound | AlreadyActive | IdTaken

  datatype ReviewReply = Resuming(generation: nat) | RunNotFound | NotAwaitingApproval

  datatype JobReply = Skipped | Drive(input: DriveInput) | Failed

  datatype OrphanRow = OrphanRow(runId: string, orgId: string, generation: nat)

  /** The claims a sweep makes for the rows it read. */
  function Claims(orphans: seq<OrphanRow>, cutoff: int): seq<Event> {
    if orphans == [] then []
    else Claims(orphans[..|orphans| - 1], cutoff)
         + [ClaimTried(orphans[|orphans| - 1].runId, orphans[|orphans| - 1].generation, cutoff)]
  }

  datatype Job = Job(runId: string, orgId: string, generation: nat)

  function ClaimEntries(orphans: seq<OrphanRow>, won: seq<bool>): seq<Entry>
    requires |won| == |orphans|
  {
    if orphans == [] then []
    else
      var n := |orphans| - 1;
      ClaimEntries(orphans[..n], won[..n])
      + if won[n] then [Claimed(orphans[n].runId, orphans[n].generation)] else []
  }

  /** One job, at the generation the claim moved to, for each won claim that could be published. */
  function Published(orphans: seq<OrphanRow>, won: seq<bool>, publishes: seq<bool>): seq<Job>
    requires |won| == |orphans| == |publishes|
  {
    if orphans == [] then []
    else
      var n := |orphans| - 1;
      Published(orphans[..n], won[..n], publishes[..n])
      + if won[n] && publishes[n] then [Job(orphans[n].runId, orphans[n].orgId, orphans[n].generation + 1)] else []
  }

  lemma {:induction false} RunSnoc(w: World, events: seq<Event>, e: Event)
    ensures Run(w, events + [e]) == Step(Run(w, events), e)
    decreases |events|
  {
    if events == [] {
      assert Run(w, [e]) == Run(Step(w, e), []);
    } else {
      assert (events + [e])[1..] == events[1..] + [e];
      RunSnoc(Step(w, events[0]), events[1..], e);
    }
  }

  /** Where a sweep over these rows stands. */
  ghost predicate Swept(w0: World, w: World, orphans: seq<OrphanRow>, won: seq<bool>, cutoff: int) {
    && |won| == |orphans|
    && w == Run(w0, Claims(orphans, cutoff))
    && w.log == w0.log + ClaimEntries(orphans, won)
  }

  lemma SweptSnoc(w0: World, w: World, orphans: seq<OrphanRow>, won: seq<bool>, cutoff: int, row: OrphanRow, claimed: bool)
    requires Swept(w0, w, orphans, won, cutoff)
    requires Claim(w, row.runId, row.generation, cutoff).log
          == w.log + if claimed then [Claimed(row.runId, row.generation)] else []
    ensures Swept(w0, Claim(w, row.runId, row.generation, cutoff), orphans + [row], won + [claimed], cutoff)
  {
    var e := ClaimTried(row.runId, row.generation, cutoff);
    assert (orphans + [row])[..|orphans|] == orphans && (won + [claimed])[..|won|] == won;
    assert Claims(orphans + [row], cutoff) == Claims(orphans, cutoff) + [e];
    RunSnoc(w0, Claims(orphans, cutoff), e);
  }

  lemma PublishedUnfolds(orphans: seq<OrphanRow>, won: seq<bool>, publishes: seq<bool>,
                         rows: seq<OrphanRow>, flags: seq<bool>, attempts: seq<bool>)
    requires |won| == |orphans| == |publishes| && |flags| == |rows| == |attempts| == |orphans| + 1
    requires orphans == rows[..|orphans|] && won == flags[..|orphans|] && publishes == attempts[..|orphans|]
    ensures var n := |orphans|;
      Published(rows, flags, attempts) == Published(orphans, won, publishes)
        + if flags[n] && attempts[n] then [Job(rows[n].runId, rows[n].orgId, rows[n].generation + 1)] else []
  {
  }

  lemma PublishedSnoc(orphans: seq<OrphanRow>, won: seq<bool>, publishes: seq<bool>,
                      row: OrphanRow, claimed: bool, publish: bool)
    requires |won| == |orphans| == |publishes|
    ensures Published(orphans + [row], won + [claimed], publishes + [publish])
         == Published(orphans, won, publishes)
            + if claimed && publish then [Job(row.runId, row.orgId, row.generation + 1)] else []
  {
    var rows, flags, attempts := orphans + [row], won + [claimed], publishes + [publish];
    PublishedUnfolds(orphans, won, publishes, rows, flags, attempts);
    assert rows[|orphans|] == row && flags[|orphans|] == claimed && attempts[|orphans|] == publish;
  }

  /** Exactly the won claims that could be published are, at the generation they moved to, and
      exactly the won claims are entries of the history. */
  lemma {:induction false} PublishedAreTheWonClaims(orphans: seq<OrphanRow>, won: seq<bool>, publishes: seq<bool>)
    requires |won| == |orphans| == |publishes|
    ensures forall j :: j in Published(orphans, won, publishes) <==>
      exists i :: 0 <= i < |orphans| && won[i] && publishes[i]
        && j.runId == orphans[i].runId && j.orgId == orphans[i].orgId && j.generation == orphans[i].generation + 1
    ensures forall e :: e in ClaimEntries(orphans, won) <==>
      exists i :: 0 <= i < |orphans| && won[i] && e == Claimed(orphans[i].runId, orphans[i].generation)
  {
    if orphans != [] {
      var n := |orphans| - 1;
      PublishedAreTheWonClaims(orphans[..n], won[..n], publishes[..n]);
      assert forall i | 0 <= i < n :: orphans[..n][i] == orphans[i] && won[..n][i] == won[i] && publishes[..n][i] == publishes[i];
      forall j: Job ensures j in Published(orphans, won, publishes) <==>
        exists i :: 0 <= i < |orphans| && won[i] && publishes[i]
          && j.runId == orphans[i].runId && j.orgId == orphans[i].orgId && j.generation == orphans[i].generation + 1
      {
        assert j in Published(orphans, won, publishes) <==>
          j in Published(orphans[..n], won[..n], publishes[..n])
          || (won[n] && publishes[n] && j == Job(orphans[n].runId, orphans[n].orgId, orphans[n].generation + 1));
      }
    }
  }

  function RunIds(orphans: seq<OrphanRow>): set<string> {
    set o | o in orphans :: o.runId
  }

  /** What the sweep's query answers: the first stale rows, each with its generation. */
  ghost predicate ReadAtBoot(w: World, orphans: seq<OrphanRow>) {
    && GraphRunRecovery.IsBatch(w, w.now - GraphRunRecovery.BOOT_ORPHAN_AGE_MS, RunIds(orphans))
    && forall o | o in orphans :: o.runId in w.runs && w.runs[o.runId].generation == o.generation
  }

  lemma {:induction false} ClaimsTryEveryRow(orphans: seq<OrphanRow>, cutoff: int, o: OrphanRow)
    requires o in orphans
    ensures ClaimTried(o.runId, o.generation, cutoff) in Claims(orphans, cutoff)
  {
    if o != orphans[|orphans| - 1] { ClaimsTryEveryRow(orphans[..|orphans| - 1], cutoff, o); }
  }

  /** A claim loop that comes to its end, with anything in between its claims, is a sweep, so it
      takes a hundred runs off any backlog at least as old as its cutoff, or all of it. */
  lemma CompletedLoopIsASweep(w: World, orphans: seq<OrphanRow>, events: seq<Event>, older: int)
    requires ReadAtBoot(w, orphans)
    requires forall e | e in Claims(orphans, w.now - GraphRunRecovery.BOOT_ORPHAN_AGE_MS) :: e in events
    requires older <= w.now - GraphRunRecovery.BOOT_ORPHAN_AGE_MS
    ensures GraphRunRecovery.Sweep(w, events)
    ensures var before, left := |GraphRunRecovery.Stale(w, older)|, |GraphRunRecovery.Stale(Run(w, events), older)|;
      left <= if before <= GraphRunRecovery.BOOT_RECOVERY_LIMIT then 0 else before - GraphRunRecovery.BOOT_RECOVERY_LIMIT
  {
    var cutoff, batch := w.now - GraphRunRecovery.BOOT_ORPHAN_AGE_MS, RunIds(orphans);
    forall r | r in batch ensures r in w.runs && ClaimTried(r, w.runs[r].generation, cutoff) in events {
      var o :| o in orphans && o.runId == r;
      ClaimsTryEveryRow(orphans, cutoff, o);
    }
    assert GraphRunRecovery.TriesAll(w, events, cutoff, batch);
    GraphRunRecovery.SweepShrinksBacklog(w, events, older);
  }

  class GraphRunStore {
    var runs: map<string, GraphRun>
    var checkpoints: set<string>
    var now: int
    ghost var workers: map<nat, Worker>
    ghost var log: seq<Entry>

    ghost function State(): World
      reads this
    {
      World(runs, checkpoints, workers, now, log)
    }

    constructor ()
      ensures State() == EmptyWorld
    {
      runs, checkpoints, now := map[], {}, 0;
      workers, log := map[], [];
    }

    method RunPipelineGraph(runId: string, orgId: string, icpProfileIds: seq<string>, owned: set<string>)
      returns (reply: StartReply)
      modifies this`runs
      ensures State() == Start(old(State()), runId, orgId, icpProfileIds, owned)
      ensures reply == Accepted <==> runs != old(runs)
      ensures reply == NoIcpProfiles <==> Canonical(icpProfileIds) == []
      ensures reply == ProfileNotFound ==> exists id :: id in icpProfileIds && id != "" && id !in owned
      ensures reply == AlreadyActive ==> OrgIsBusy(old(State()), orgId)
    {
      var canonical: seq<string> := [];
      for i := 0 to |icpProfileIds|
        invariant canonical == Canonical(icpProfileIds[..i])
      {
        assert icpProfileIds[..i + 1][..i] == icpProfileIds[..i];
        if icpProfileIds[i] != "" && icpProfileIds[i] !in canonical {
          canonical := canonical + [icpProfileIds[i]];
        }
      }
      assert icpProfileIds[..|icpProfileIds|] == icpProfileIds;
      if canonical == [] { return NoIcpProfiles; }
      if exists id | id in canonical :: id !in owned { return ProfileNotFound; }
      if exists r | r in runs :: runs[r].orgId == orgId && Active(runs[r].status) { return AlreadyActive; }
      if runId in runs { return IdTaken; }
      runs := runs[runId := GraphRun(orgId, RUNNING, 0, None, now, canonical)];
      return Accepted;
    }

    method ResumePipelineGraph(runId: string, orgId: string, approved: bool) returns (reply: ReviewReply)
      modifies this`runs, this`log
      ensures State() == Resume(old(State()), runId, orgId, approved)
      ensures reply.Resuming? <==> log != old(log)
      ensures reply.Resuming? ==> log == old(log) + [Decided(runId, reply.generation, approved)]
      ensures reply == RunNotFound <==> !(runId in old(runs) && old(runs)[runId].orgId == orgId)
    {
      var won := false;
      if runId in runs && runs[runId].orgId == orgId && runs[runId].status == AWAITING_APPROVAL {
        var next := runs[runId].generation + 1;
        runs := runs[runId := runs[runId].(
          status := RUNNING, lastActivity := now, pending := Some(approved), generation := next)];
        log := log + [Decided(runId, next, approved)];
        won := true;
      }
      if !(runId in runs && runs[runId].orgId == orgId) { return RunNotFound; }
      if !won { return NotAwaitingApproval; }
      return Resuming(runs[runId].generation);
    }

    /** The worker's guards and its choice of input. */
    method AdmitJob(runId: string, orgId: string, generation: nat) returns (reply: JobReply)
      ensures reply.Skipped? <==> !(Fenced(State(), runId, generation) && runs[runId].orgId == orgId)
      ensures reply.Drive? ==> reply.input == InputFor(runs[runId], runId in checkpoints)
      ensures reply.Failed? ==> InputFor(runs[runId], runId in checkpoints) == Unrecoverable
    {
      if runId !in runs { return Skipped; }
      var run := runs[runId];
      if run.orgId != orgId { return Skipped; }
      if run.status != RUNNING { return Skipped; }
      if run.generation != generation { return Skipped; }
      if run.pending.Some? { return Drive(ResumeWith(run.pending.value)); }
      if runId in checkpoints { return Drive(Continue); }
      if run.startIcpProfileIds == [] { return Failed; }
      return Drive(Seed(run.startIcpProfileIds));
    }

    /** updateMany guarded by RUNNING and the generation; true when this writer won. */
    method TransitionOut(runId: string, generation: nat, to: Status) returns (won: bool)
      modifies this`runs, this`log
      ensures State() == Leave(old(State()), runId, generation, to)
      ensures won == Fenced(old(State()), runId, generation)
    {
      won := runId in runs && runs[runId].status == RUNNING && runs[runId].generation == generation;
      if won {
        runs := runs[runId := runs[runId].(status := to)];
        log := log + [LeftRunning(runId, generation, to)];
      }
    }

    method MarkTerminalFailure(runId: string, generation: nat)
      modifies this`runs, this`log
      ensures State() == Step(old(State()), Exhausted(runId, generation))
    {
      var _ := TransitionOut(runId, generation, FAILED);
    }

    method TouchActivity(runId: string, generation: nat)
      modifies this`runs
      ensures State() == Step(old(State()), Heartbeat(runId, generation))
    {
      if runId in runs && runs[runId].status == RUNNING && runs[runId].generation == generation {
        runs := runs[runId := runs[runId].(lastActivity := now)];
      }
    }

    /** updateMany guarded by RUNNING, the generation read and the cutoff; true for the one winner. */
    method TryClaim(run: OrphanRow, cutoff: int) returns (won: bool)
      modifies this`runs, this`log
      ensures State() == Claim(old(State()), run.runId, run.generation, cutoff)
      ensures log == old(log) + if won then [Claimed(run.runId, run.generation)] else []
    {
      won := && run.runId in runs
             && runs[run.runId].status == RUNNING
             && runs[run.runId].lastActivity < cutoff
             && runs[run.runId].generation == run.generation;
      if won {
        runs := runs[run.runId := runs[run.runId].(lastActivity := now, generation := run.generation + 1)];
        log := log + [Claimed(run.runId, run.generation)];
      }
    }

    /** The claim loop of the sweep.  Publication may fail for any row; the claim stands, and
        exactly the won claims whose publication succeeded are published and counted. */
    method RecoverOrphanedRuns(orphans: seq<OrphanRow>, cutoff: int, publishes: seq<bool>)
      returns (count: nat, published: seq<Job>, ghost won: seq<bool>)
      requires |publishes| == |orphans|
      modifies this`runs, this`log
      ensures State() == Run(old(State()), Claims(orphans, cutoff))
      ensures |won| == |orphans| && log == old(log) + ClaimEntries(orphans, won)
      ensures published == Published(orphans, won, publishes) && count == |published|
    {
      count, published, won := 0, [], [];
      ghost var w0 := State();
      ghost var w, rows, flags := w0, orphans[..0], publishes[..0];
      for i := 0 to |orphans|
        invariant State() == w && rows == orphans[..i] && flags == publishes[..i]
        invariant Swept(w0, w, rows, won, cutoff)
        invariant published == Published(rows, won, flags) && count == |published|
      {
        var row := orphans[i];
        var claimed := TryClaim(row, cutoff);
        SweptSnoc(w0, w, rows, won, cutoff, row, claimed);
        PublishedSnoc(rows, won, flags, row, claimed, publishes[i]);
        w := Claim(w, row.runId, row.generation, cutoff);
        rows, flags, won := rows + [row], flags + [publishes[i]], won + [claimed];
        if claimed && publishes[i] {
          published := published + [Job(row.runId, row.orgId, row.generation + 1)];
          count := count + 1;
        }
      }
      assert rows == orphans && flags == publishes;
    }
  }
}
