/** Pausing and resuming the production queues under a fence, against an environment in which
    every call may fail before or after it takes effect.

    A failing call is a nondeterministic choice, so each contract below holds for every choice of
    which calls fail and how.  Ghost fields watch the calls: a queue or fence mutation demands
    that the caller's guard has just passed, a resume or a release that the fence was read as
    ours right before that.  Every mutation is traced, and every failure, refusal and rival is
    counted, so that what happens when nothing goes wrong can be told as well. */
module BootstrapQuiescence {
  import opened Options

  datatype Queue = AgentRuns | GraphRuns | OutreachSend

  const ALL_QUEUES: set<Queue> := {AgentRuns, GraphRuns, OutreachSend}
  const PAUSE_ORDER: seq<Queue> := [OutreachSend, GraphRuns, AgentRuns]
  const RESUME_ORDER: seq<Queue> := [GraphRuns, OutreachSend]
  const MAX_SAFE_INTEGER: int := 9007199254740991

  datatype Snapshot = Snapshot(paused: set<Queue>, active: map<Queue, nat>)

  datatype Result<T> = Ok(value: T) | Threw

  datatype ResumeOutcome =
    | Resumed
    | OriginalError
    | CompensationFailed(queues: seq<Queue>)

  /** A call that may change something, with the fence's holder as it was read right before. */
  datatype Mutation = FenceSet(id: string) | Paused(queue: Queue, seen: Option<string>)
                    | Restarted(queue: Queue, seen: Option<string>) | FenceDeleted(id: string)

  /** The send queue stops first and starts last; agent-runs is never restarted. */
  ghost function PausesUnder(id: string): seq<Mutation> {
    [Paused(OutreachSend, Some(id)), Paused(GraphRuns, Some(id)), Paused(AgentRuns, Some(id))]
  }

  ghost function RestartsUnder(id: string): seq<Mutation> {
    [Restarted(GraphRuns, Some(id)), Restarted(OutreachSend, Some(id))]
  }

  /** What was called: perhaps the fence was set, then the first n pauses were made, in order and
      each with the fence just read as ours. */
  ghost predicate PausedInOrder(before: seq<Mutation>, after: seq<Mutation>, id: string, n: nat) {
    n <= 3 && (after == before + PausesUnder(id)[..n] || after == before + [FenceSet(id)] + PausesUnder(id)[..n])
  }

  /** What was called: the first n restarts, in order and each with the fence just read as ours;
      after both of them perhaps the release. */
  ghost predicate RestartedInOrder(before: seq<Mutation>, after: seq<Mutation>, id: string, n: nat, released: bool) {
    n <= 2 && (released ==> n == 2) && after == before + RestartsUnder(id)[..n] + if released then [FenceDeleted(id)] else []
  }

  /** Only pauses were called, in pause order, of the first n queues. */
  ghost predicate OnlyPauses(before: seq<Mutation>, after: seq<Mutation>, n: nat) {
    && before <= after
    && (forall i | |before| <= i < |after| :: after[i].Paused? && Rank(after[i].queue) < n)
    && forall i, j | |before| <= i < j < |after| :: Rank(after[i].queue) < Rank(after[j].queue)
  }

  /** The pause of this queue was called. */
  ghost predicate Called(before: seq<Mutation>, after: seq<Mutation>, q: Queue) {
    exists i :: |before| <= i < |after| && after[i].Paused? && after[i].queue == q
  }

  lemma CalledLater(before: seq<Mutation>, earlier: seq<Mutation>, later: seq<Mutation>)
    requires before <= earlier <= later
    ensures forall q | Called(before, earlier, q) :: Called(before, later, q)
    ensures forall q, seen | later == earlier + [Paused(q, seen)] :: Called(before, later, q)
  {
    forall q | Called(before, earlier, q) ensures Called(before, later, q) {
      var i :| |before| <= i < |earlier| && earlier[i].Paused? && earlier[i].queue == q;
      assert later[i] == earlier[i];
    }
    forall q, seen | later == earlier + [Paused(q, seen)] ensures Called(before, later, q) {
      assert later[|earlier|] == Paused(q, seen);
    }
  }

  /** The first n queues in pause order were tried: only their pauses were called, and the failures
      are those not read back as paused; every other pause was called. */
  ghost predicate Tried(before: seq<Mutation>, after: seq<Mutation>, failures: seq<Queue>, readBack: map<Queue, bool>, n: nat) {
    && OnlyPauses(before, after, n)
    && (forall q | q in readBack || q in failures :: Rank(q) < n)
    && (forall q | Rank(q) < n :: q in failures <==> !(q in readBack && readBack[q]))
    && (forall q | Rank(q) < n && q !in failures :: Called(before, after, q))
    && (forall i, j | 0 <= i < j < |failures| :: Rank(failures[i]) < Rank(failures[j]))
  }

  lemma TriedStep(before: seq<Mutation>, earlier: seq<Mutation>, later: seq<Mutation>, failures: seq<Queue>,
                  read: map<Queue, bool>, readBack: map<Queue, bool>, q: Queue, confirmed: bool)
    requires Tried(before, earlier, failures, read, Rank(q))
    requires readBack - {q} == read && (confirmed <==> q in readBack && readBack[q])
    requires later == earlier || exists seen :: later == earlier + [Paused(q, seen)]
    requires confirmed ==> later != earlier
    ensures Tried(before, later, if confirmed then failures else failures + [q], readBack, Rank(q) + 1)
  {
    CalledLater(before, earlier, later);
    assert forall other | Rank(other) == Rank(q) :: other == q;
    forall other | other != q ensures other in readBack <==> other in read {
      assert other in readBack - {q} <==> other in read;
    }
    forall other | other in read ensures other in readBack && readBack[other] == read[other] {
      assert (readBack - {q})[other] == read[other];
    }
    OnlyPausesGrow(before, earlier, later, q);
  }

  lemma OnlyPausesGrow(before: seq<Mutation>, earlier: seq<Mutation>, later: seq<Mutation>, q: Queue)
    requires OnlyPauses(before, earlier, Rank(q))
    requires later == earlier || exists seen :: later == earlier + [Paused(q, seen)]
    ensures OnlyPauses(before, later, Rank(q) + 1)
  {
  }

  /** 32 lowercase hexadecimal characters. */
  predicate ValidAttemptId(id: string) {
    |id| == 32 && forall c | c in id :: '0' <= c <= '9' || 'a' <= c <= 'f'
  }

  /** Every queue was read as paused and without an active job. */
  predicate Idle(s: Snapshot) {
    s.paused == ALL_QUEUES && forall q | q in ALL_QUEUES :: q in s.active && s.active[q] == 0
  }

  lemma AttemptIdMeans(id: string)
    ensures ValidAttemptId(id) <==> |id| == 32 && forall c | c in id :: c as int in {48, 49, 50, 51, 52, 53, 54, 55, 56, 57, 97, 98, 99, 100, 101, 102}
  {
    assert '0' as int == 48 && '9' as int == 57 && 'a' as int == 97 && 'f' as int == 102;
  }

  lemma IdleMeans(s: Snapshot)
    ensures Idle(s) <==>
      && s.paused == {AgentRuns, GraphRuns, OutreachSend}
      && AgentRuns in s.active && s.active[AgentRuns] == 0 && GraphRuns in s.active && s.active[GraphRuns] == 0
      && OutreachSend in s.active && s.active[OutreachSend] == 0
  {
  }

  /** Position in the pause order. */
  function Rank(q: Queue): nat {
    match q case OutreachSend => 0 case GraphRuns => 1 case AgentRuns => 2
  }

  class BootstrapRuntime {
    var fence: Option<string>
    var paused: set<Queue>

    /** The guard passed, and nothing was called since. */
    ghost var guarded: bool
    /** The fence was read to hold this id, and nothing but the guard was called since. */
    ghost var seenHeldBy: Option<string>
    /** What isPaused said of a queue after the last call that could have changed it, as far back
        as the current try or catch block. */
    ghost var readBack: map<Queue, bool>
    /** Queues on which resume was ever called. */
    ghost var resumed: set<Queue>
    /** What had been read back when the fence release was last called. */
    ghost var readBackAtRelease: Option<map<Queue, bool>>
    ghost var polls: nat
    ghost var lastPoll: Option<Snapshot>
    ghost var trace: seq<Mutation>
    /** Failed calls, refusals of the guard and rivals so far. */
    ghost var faults: nat

    constructor (fence: Option<string>, paused: set<Queue>)
      ensures this.fence == fence && this.paused == paused
    {
      this.fence, this.paused := fence, paused;
      guarded, seenHeldBy, readBack, resumed := false, None, map[], {};
      readBackAtRelease, polls, lastPoll, trace, faults := None, 0, None, [], 0;
    }

    // -------------------------------------------------------------- single calls

    method GetFence() returns (r: Result<Option<string>>)
      modifies this`guarded, this`seenHeldBy, this`faults
      ensures !guarded && faults >= old(faults)
      ensures r.Ok? ==> r.value == fence && seenHeldBy == fence
      ensures r.Threw? ==> seenHeldBy == None && faults > old(faults)
    {
      guarded, seenHeldBy := false, None;
      var works: bool := *;
      if !works {
        faults := faults + 1;
        return Threw;
      }
      seenHeldBy := fence;
      return Ok(fence);
    }

    /** The caller's guard, which may refuse. */
    method BeforeMutation() returns (ok: bool)
      modifies this`guarded, this`faults
      ensures ok == guarded && faults >= old(faults) && (!ok ==> faults > old(faults))
    {
      ok := *;
      guarded := ok;
      if !ok { faults := faults + 1; }
    }

    /** SET NX, with a rival attempt free to take the fence first. */
    method SetFenceIfAbsent(id: string) returns (r: Result<bool>)
      requires guarded
      modifies this`fence, this`guarded, this`seenHeldBy, this`trace, this`faults
      ensures !guarded && seenHeldBy == None && trace == old(trace) + [FenceSet(id)] && faults >= old(faults)
      ensures r == Ok(true) ==> old(fence).None? && fence == Some(id)
      ensures old(fence).Some? ==> fence == old(fence)
      ensures r != Ok(true) && old(fence).None? ==> faults > old(faults)
    {
      guarded, seenHeldBy, trace := false, None, trace + [FenceSet(id)];
      var rival: Option<string> := *;
      if fence.None? && rival.Some? { fence, faults := rival, faults + 1; }
      var before: bool, after: bool := *, *;
      if before || after { faults := faults + 1; }
      if before { return Threw; }
      var free := fence.None?;
      if free { fence := Some(id); }
      return if after then Threw else Ok(free);
    }

    /** Compare and delete. */
    method DeleteFence(id: string) returns (r: Result<nat>)
      requires guarded && seenHeldBy == Some(id)
      modifies this`fence, this`guarded, this`seenHeldBy, this`readBackAtRelease, this`trace, this`faults
      ensures !guarded && seenHeldBy == None && readBackAtRelease == Some(readBack)
      ensures trace == old(trace) + [FenceDeleted(id)] && faults >= old(faults)
      ensures r == Ok(1) ==> old(fence) == Some(id) && fence == None
      ensures fence == old(fence) || (old(fence) == Some(id) && fence == None)
      ensures r != Ok(1) && old(fence) == Some(id) ==> faults > old(faults)
    {
      guarded, seenHeldBy, readBackAtRelease, trace := false, None, Some(readBack), trace + [FenceDeleted(id)];
      var before: bool, after: bool := *, *;
      if before || after { faults := faults + 1; }
      if before { return Threw; }
      var deleted := if fence == Some(id) then 1 else 0;
      if deleted == 1 { fence := None; }
      return if after then Threw else Ok(deleted);
    }

    method Pause(q: Queue) returns (ok: bool)
      requires guarded
      modifies this`paused, this`guarded, this`seenHeldBy, this`readBack, this`trace, this`faults
      ensures !guarded && seenHeldBy == None && readBack == old(readBack) - {q}
      ensures paused == old(paused) + {q} || (!ok && paused == old(paused))
      ensures trace == old(trace) + [Paused(q, old(seenHeldBy))]
      ensures faults >= old(faults) && (!ok ==> faults > old(faults))
    {
      trace := trace + [Paused(q, seenHeldBy)];
      guarded, seenHeldBy, readBack := false, None, readBack - {q};
      var before: bool, after: bool := *, *;
      if before || after { faults := faults + 1; }
      if before { return false; }
      paused := paused + {q};
      return !after;
    }

    method Resume(q: Queue, ghost id: string) returns (ok: bool)
      requires guarded && seenHeldBy == Some(id)
      modifies this`paused, this`guarded, this`seenHeldBy, this`readBack, this`resumed, this`trace, this`faults
      ensures !guarded && seenHeldBy == None && readBack == old(readBack) - {q} && resumed == old(resumed) + {q}
      ensures paused == old(paused) - {q} || (!ok && paused == old(paused))
      ensures trace == old(trace) + [Restarted(q, Some(id))]
      ensures faults >= old(faults) && (!ok ==> faults > old(faults))
    {
      trace := trace + [Restarted(q, seenHeldBy)];
      guarded, seenHeldBy, readBack, resumed := false, None, readBack - {q}, resumed + {q};
      var before: bool, after: bool := *, *;
      if before || after { faults := faults + 1; }
      if before { return false; }
      paused := paused - {q};
      return !after;
    }

    method IsPaused(q: Queue) returns (r: Result<bool>)
      modifies this`guarded, this`seenHeldBy, this`readBack, this`faults
      ensures !guarded && seenHeldBy == None && faults >= old(faults)
      ensures r.Ok? ==> r.value == (q in paused) && readBack == old(readBack)[q := r.value]
      ensures r.Threw? ==> readBack == old(readBack) && faults > old(faults)
    {
      guarded, seenHeldBy := false, None;
      var works: bool := *;
      if !works {
        faults := faults + 1;
        return Threw;
      }
      readBack := readBack[q := q in paused];
      return Ok(q in paused);
    }

    /** Jobs run and end as they like, so the counts read are arbitrary. */
    method SnapshotQueues() returns (r: Result<Snapshot>)
      modifies this`guarded, this`seenHeldBy, this`polls, this`lastPoll, this`faults
      ensures !guarded && seenHeldBy == None && polls == old(polls) + 1 && faults >= old(faults)
      ensures r.Ok? ==> r.value.paused == paused && lastPoll == Some(r.value)
      ensures r.Threw? ==> lastPoll == None && faults > old(faults)
    {
      guarded, seenHeldBy, polls, lastPoll := false, None, polls + 1, None;
      var works: bool, active: map<Queue, nat> := *, *;
      if !works {
        faults := faults + 1;
        return Threw;
      }
      lastPoll := Some(Snapshot(paused, active));
      return Ok(Snapshot(paused, active));
    }

    // -------------------------------------------------------------- the fence protocol

    /** Passes exactly when the fence holds this attempt, unless the read itself fails. */
    method VerifyFence(id: string) returns (ok: bool)
      modifies this`guarded, this`seenHeldBy, this`faults
      ensures faults >= old(faults)
      ensures !ok && faults == old(faults) ==> !ValidAttemptId(id) || fence != Some(id)
      ensures ok ==> ValidAttemptId(id) && fence == Some(id) && seenHeldBy == Some(id)
    {
      if !ValidAttemptId(id) { return false; }
      var current := GetFence();
      return current == Ok(Some(id));
    }

    /** Takes a free fence or keeps its own; never another attempt's. */
    method AcquireFence(id: string) returns (ok: bool)
      modifies this`fence, this`guarded, this`seenHeldBy, this`trace, this`faults
      ensures ok ==> ValidAttemptId(id) && fence == Some(id)
      ensures old(fence).Some? ==> fence == old(fence) && trace == old(trace)
      ensures trace == old(trace) || trace == old(trace) + [FenceSet(id)]
      ensures faults >= old(faults)
      ensures !ok && faults == old(faults) ==> !ValidAttemptId(id) || old(fence) !in {None, Some(id)}
    {
      if !ValidAttemptId(id) { return false; }
      var current := GetFence();
      if current.Threw? { return false; }
      if current.value == Some(id) { return true; }
      if current.value.Some? { return false; }
      var allowed := BeforeMutation();
      if !allowed { return false; }
      var acquired := SetFenceIfAbsent(id);
      return acquired == Ok(true);
    }

    method ReleaseFence(id: string) returns (ok: bool)
      modifies this`fence, this`guarded, this`seenHeldBy, this`readBackAtRelease, this`trace, this`faults
      ensures faults >= old(faults)
      ensures !ok && faults == old(faults) ==> !ValidAttemptId(id) || old(fence) != Some(id)
      ensures trace == old(trace) || trace == old(trace) + [FenceDeleted(id)]
      ensures ok ==> trace == old(trace) + [FenceDeleted(id)]
      ensures ok ==> old(fence) == Some(id) && fence == None && readBackAtRelease == Some(readBack)
      ensures fence == old(fence) || (old(fence) == Some(id) && fence == None && readBackAtRelease == Some(readBack))
      ensures readBackAtRelease == old(readBackAtRelease) || readBackAtRelease == Some(readBack)
    {
      var verified := VerifyFence(id);
      if !verified { return false; }
      var allowed := BeforeMutation();
      if !allowed { return false; }
      var deleted := DeleteFence(id);
      return deleted == Ok(1);
    }

    // -------------------------------------------------------------- pausing

    /** The loop over the queues: ends with every queue paused and read back, or with the first n
        pauses made when something failed. */
    method PauseInOrder(id: string) returns (ok: bool, ghost n: nat)
      requires ValidAttemptId(id) && fence == Some(id)
      modifies this`paused, this`guarded, this`seenHeldBy, this`readBack, this`trace, this`faults
      ensures n <= 3 && trace == old(trace) + PausesUnder(id)[..n] && (ok ==> n == 3)
      ensures faults >= old(faults) && (!ok ==> faults > old(faults))
      ensures old(paused) <= paused
      ensures ok ==> ALL_QUEUES <= paused && forall q | q in ALL_QUEUES :: q in readBack && readBack[q]
    {
      n := 0;
      for k := 0 to |PAUSE_ORDER|
        invariant n == k && trace == old(trace) + PausesUnder(id)[..n]
        invariant old(paused) <= paused && faults >= old(faults)
        invariant forall q | Rank(q) < k :: q in paused && q in readBack && readBack[q]
      {
        var q := PAUSE_ORDER[k];
        assert Rank(q) == k;
        assert PausesUnder(id)[..k + 1] == PausesUnder(id)[..k] + [Paused(q, Some(id))];
        var verified := VerifyFence(id);
        if !verified { return false, n; }
        var allowed := BeforeMutation();
        if !allowed { return false, n; }
        var called := Pause(q);
        n := k + 1;
        if !called { return false, n; }
        var isPaused := IsPaused(q);
        if isPaused != Ok(true) { return false, n; }
      }
      assert forall q :: Rank(q) < 3;
      ok := true;
    }

    /** The polls: every one of them under the fence, until all queues are idle. */
    method PollUntilIdle(id: string, maxPolls: int) returns (r: Result<Snapshot>)
      requires ValidAttemptId(id) && fence == Some(id) && maxPolls >= 1
      modifies this`guarded, this`seenHeldBy, this`polls, this`lastPoll, this`faults
      ensures r.Ok? ==> r.value.paused == paused && Idle(r.value) && lastPoll == Some(r.value)
      ensures faults >= old(faults) && old(polls) <= polls <= old(polls) + maxPolls
      ensures r.Threw? && faults == old(faults) ==>
        polls == old(polls) + maxPolls && lastPoll.Some? && !Idle(lastPoll.value)
    {
      for poll := 0 to maxPolls
        invariant faults >= old(faults) && polls == old(polls) + poll
        invariant faults == old(faults) && poll > 0 ==> lastPoll.Some? && !Idle(lastPoll.value)
      {
        var verified := VerifyFence(id);
        if !verified { return Threw; }
        var snapshot := SnapshotQueues();
        if snapshot.Threw? || Idle(snapshot.value) { return snapshot; }
        var slept: bool := *;
        if !slept {
          faults := faults + 1;
          return Threw;
        }
      }
      return Threw;
    }

    /** Returns only with every queue paused and read idle under the held fence, after at most
        maxPolls snapshots; resumes nothing and releases nothing, whichever way it ends.  When
        nothing fails, it ends otherwise only for bad arguments, for another attempt's fence, or
        because the queues were not idle in the last of maxPolls snapshots. */
    method PauseProductionBootstrapQueues(id: string, maxPolls: int, pollIntervalMs: int)
      returns (r: Result<Snapshot>, ghost n: nat)
      modifies this
      ensures r.Ok? ==>
        && fence == Some(id) && (old(fence).Some? ==> old(fence) == Some(id))
        && ALL_QUEUES <= paused && r.value.paused == paused
        && Idle(r.value) && lastPoll == Some(r.value)
        && (forall q | q in ALL_QUEUES :: q in readBack && readBack[q])
      ensures PausedInOrder(old(trace), trace, id, n) && (r.Ok? ==> n == 3)
      ensures faults >= old(faults)
      ensures r.Threw? && faults == old(faults) ==>
        || maxPolls < 1 || maxPolls > MAX_SAFE_INTEGER || pollIntervalMs < 0 || pollIntervalMs > MAX_SAFE_INTEGER
        || !ValidAttemptId(id) || old(fence) !in {None, Some(id)}
        || (polls == old(polls) + maxPolls && lastPoll.Some? && !Idle(lastPoll.value))
      ensures polls <= old(polls) + if maxPolls < 0 then 0 else maxPolls
      ensures old(paused) <= paused && resumed == old(resumed) && readBackAtRelease == old(readBackAtRelease)
      ensures old(fence).Some? ==> fence == old(fence)
    {
      n := 0;
      if !(1 <= maxPolls <= MAX_SAFE_INTEGER) || !(0 <= pollIntervalMs <= MAX_SAFE_INTEGER) { return Threw, n; }
      var acquired := AcquireFence(id);
      if !acquired { return Threw, n; }
      var stopped;
      stopped, n := PauseInOrder(id);
      if !stopped { return Threw, n; }
      r := PollUntilIdle(id, maxPolls);
    }

    // -------------------------------------------------------------- resuming

    /** What is done between the preflight check and a failure: agent-runs stays out of it, and
        the fence is released only once both resumed queues were read back running. */
    twostate predicate OnlyResumesTwo()
      reads this
    {
      && resumed <= old(resumed) + {GraphRuns, OutreachSend}
      && (|| readBackAtRelease == old(readBackAtRelease)
          || readBackAtRelease == Some(map[GraphRuns := false, OutreachSend := false]))
    }

    /** The loop of the try block: both queues restarted and read back running, or the first n
        restarts called when something failed. */
    method RestartInOrder(id: string) returns (ok: bool, ghost n: nat)
      requires paused == ALL_QUEUES && readBack == map[]
      modifies this`paused, this`guarded, this`seenHeldBy, this`readBack, this`resumed, this`trace, this`faults
      ensures n <= 2 && trace == old(trace) + RestartsUnder(id)[..n] && (ok ==> n == 2)
      ensures faults >= old(faults) && (!ok && faults == old(faults) ==> !ValidAttemptId(id) || fence != Some(id))
      ensures resumed <= old(resumed) + {GraphRuns, OutreachSend}
      ensures AgentRuns in paused && paused <= ALL_QUEUES
      ensures ok ==> paused == {AgentRuns} && readBack == map[GraphRuns := false, OutreachSend := false]
    {
      n := 0;
      for k := 0 to |RESUME_ORDER|
        invariant n == k && trace == old(trace) + RestartsUnder(id)[..n] && faults >= old(faults)
        invariant paused <= ALL_QUEUES && AgentRuns in paused
        invariant resumed <= old(resumed) + {GraphRuns, OutreachSend}
        invariant k >= 1 ==> GraphRuns !in paused
        invariant k >= 2 ==> OutreachSend !in paused
        invariant readBack == if k == 0 then map[] else if k == 1 then map[GraphRuns := false]
                              else map[GraphRuns := false, OutreachSend := false]
      {
        var q := RESUME_ORDER[k];
        assert RestartsUnder(id)[..k + 1] == RestartsUnder(id)[..k] + [Restarted(q, Some(id))];
        var verified := VerifyFence(id);
        if !verified { return false, n; }
        var allowed := BeforeMutation();
        if !allowed { return false, n; }
        var called := Resume(q, id);
        n := k + 1;
        if !called { return false, n; }
        var isPaused := IsPaused(q);
        if isPaused != Ok(false) { return false, n; }
      }
      assert paused == {AgentRuns};
      ok := true;
    }

    /** The try block. */
    method ResumeAndRelease(id: string) returns (ok: bool, ghost n: nat, ghost released: bool)
      requires paused == ALL_QUEUES
      modifies this
      ensures OnlyResumesTwo()
      ensures faults >= old(faults) && (!ok && faults == old(faults) ==> !ValidAttemptId(id) || old(fence) != Some(id))
      ensures RestartedInOrder(old(trace), trace, id, n, released) && (ok ==> released)
      ensures AgentRuns in paused && paused <= ALL_QUEUES
      ensures ok ==> paused == {AgentRuns} && old(fence) == Some(id) && fence == None
      ensures ok ==> readBackAtRelease == Some(map[GraphRuns := false, OutreachSend := false])
      ensures fence != old(fence) ==>
        old(fence) == Some(id) && fence == None && readBackAtRelease == Some(map[GraphRuns := false, OutreachSend := false])
    {
      readBack := map[];
      released := false;
      ok, n := RestartInOrder(id);
      if !ok { return; }
      ghost var restarted := trace;
      ok := ReleaseFence(id);
      released := trace != restarted;
    }

    /** One queue of the catch block: confirmed only if its pause was called, did not fail, and was
        read back. */
    method PauseAgain(q: Queue) returns (confirmed: bool)
      requires q !in readBack
      modifies this`paused, this`guarded, this`seenHeldBy, this`readBack, this`trace, this`faults
      ensures paused == old(paused) || paused == old(paused) + {q}
      ensures confirmed <==> q in readBack && readBack[q]
      ensures readBack - {q} == old(readBack)
      ensures confirmed ==> q in paused
      ensures trace == old(trace) || exists seen :: trace == old(trace) + [Paused(q, seen)]
      ensures confirmed ==> trace != old(trace)
      ensures faults >= old(faults) && (!confirmed ==> faults > old(faults))
    {
      var allowed := BeforeMutation();
      if !allowed { return false; }
      var called := Pause(q);
      if !called { return false; }
      var isPaused := IsPaused(q);
      return isPaused == Ok(true);
    }

    /** The catch block: pause and read back every queue; what cannot be confirmed is reported. */
    method Compensate() returns (failures: seq<Queue>)
      requires AgentRuns in paused && paused <= ALL_QUEUES
      modifies this`paused, this`guarded, this`seenHeldBy, this`readBack, this`trace, this`faults
      ensures faults >= old(faults) && (faults == old(faults) ==> failures == [])
      ensures OnlyPauses(old(trace), trace, 3) && (faults == old(faults) ==> |trace| == |old(trace)| + 3)
      ensures forall q | q !in failures :: Called(old(trace), trace, q)
      ensures old(paused) <= paused <= ALL_QUEUES
      ensures forall q :: q in failures <==> !(q in readBack && readBack[q])
      ensures forall q | q !in failures :: q in paused
      ensures forall i, j | 0 <= i < j < |failures| :: Rank(failures[i]) < Rank(failures[j])
    {
      failures, readBack := [], map[];
      for n := 0 to |PAUSE_ORDER|
        invariant Tried(old(trace), trace, failures, readBack, n)
        invariant faults >= old(faults) && (faults == old(faults) ==> failures == [] && |trace| == |old(trace)| + n)
        invariant old(paused) <= paused <= ALL_QUEUES
        invariant forall q | Rank(q) < n && q !in failures :: q in paused
      {
        var q := PAUSE_ORDER[n];
        assert Rank(q) == n && forall other | Rank(other) == n :: other == q;
        ghost var earlier, read := trace, readBack;
        var confirmed := PauseAgain(q);
        TriedStep(old(trace), earlier, trace, failures, read, readBack, q, confirmed);
        if !confirmed { failures := failures + [q]; }
      }
      assert forall q :: Rank(q) < 3;
    }

    /** A normal return leaves exactly agent-runs paused and the fence released, after both other
        queues were read back running.  A compensation error names exactly the queues not
        confirmed paused after the failure.  The original error leaves every queue paused
        exactly when every queue was paused before the call: the check ahead of the try
        block throws it too, having changed nothing. */
    method ResumeProductionBootstrapQueues(id: string) returns (outcome: ResumeOutcome)
      modifies this
      ensures OnlyResumesTwo()
      ensures faults >= old(faults)
      ensures outcome != Resumed && faults == old(faults) ==>
        || !ValidAttemptId(id) || old(fence) != Some(id) || (lastPoll.Some? && !Idle(lastPoll.value))
      ensures outcome == Resumed ==> trace == old(trace) + RestartsUnder(id) + [FenceDeleted(id)]
      ensures outcome.CompensationFailed? ==> faults > old(faults)
      ensures exists mid, n: nat, released ::
        RestartedInOrder(old(trace), mid, id, n, released) && OnlyPauses(mid, trace, 3)
      ensures outcome == Resumed ==>
        && old(fence) == Some(id) && fence == None
        && old(paused) == ALL_QUEUES && paused == {AgentRuns}
        && readBackAtRelease == Some(map[GraphRuns := false, OutreachSend := false])
      ensures outcome.CompensationFailed? ==>
        && outcome.queues != []
        && (forall q :: q in outcome.queues <==> !(q in readBack && readBack[q]))
        && (forall q | q !in outcome.queues :: q in paused)
        && (forall i, j | 0 <= i < j < |outcome.queues| :: Rank(outcome.queues[i]) < Rank(outcome.queues[j]))
      ensures outcome == OriginalError ==>
        || (paused == ALL_QUEUES && forall q :: q in readBack && readBack[q])
        || (paused == old(paused) && fence == old(fence) && resumed == old(resumed))
      ensures outcome == OriginalError ==> (paused == ALL_QUEUES <==> old(paused) == ALL_QUEUES)
      ensures old(fence) != Some(id) || old(paused) != ALL_QUEUES ==>
        outcome == OriginalError && paused == old(paused) && fence == old(fence) && resumed == old(resumed)
      ensures fence != old(fence) ==>
        fence == None && readBackAtRelease == Some(map[GraphRuns := false, OutreachSend := false])
    {
      forall q: Queue ensures q in ALL_QUEUES { match q case AgentRuns => case GraphRuns => case OutreachSend => }
      assert RestartedInOrder(old(trace), old(trace), id, 0, false);
      // verifyProductionBootstrapQueues stands outside the try block.
      var verified := VerifyFence(id);
      if !verified { return OriginalError; }
      var snapshot := SnapshotQueues();
      if snapshot.Threw? || !Idle(snapshot.value) { return OriginalError; }
      verified := VerifyFence(id);
      if !verified { return OriginalError; }
      ghost var n, released;
      var ok;
      ok, n, released := ResumeAndRelease(id);
      if ok { return Resumed; }
      var failures := Compensate();
      if failures != [] { return CompensationFailed(failures); }
      return OriginalError;
    }
  }

  /** The original error can leave queues running: it does whenever a queue was not paused
      beforehand, and every queue that was running is then still running. */
  method RefusedResumeLeavesQueuesRunning(id: string) returns (runtime: BootstrapRuntime, outcome: ResumeOutcome)
    ensures outcome == OriginalError && GraphRuns !in runtime.paused && OutreachSend !in runtime.paused
  {
    runtime := new BootstrapRuntime(Some(id), {AgentRuns});
    outcome := runtime.ResumeProductionBootstrapQueues(id);
  }
}
