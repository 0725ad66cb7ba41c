/** The circuit breaker under overlapping calls.  A call is two steps: its admission, and its end
    at any later time. */
module CircuitBreakers {

  datatype CircuitState = CLOSED | OPEN | HALF_OPEN

  datatype Options = Options(failureThreshold: int, windowMs: int, openDurationMs: int)

  datatype Breaker = Breaker(state: CircuitState, failures: seq<int>, openedAt: int, halfOpenInFlight: bool)

  datatype Admission = Closed | Probe | Refused(retryAt: int)

  datatype Entry =
    | Started(time: int, probe: bool)
    | Failure(time: int)
    | ProbeFailed(time: int)
    | Success(probe: bool)
    | Opened(time: int)

  datatype World = World(breaker: Breaker, clock: int, closedCalls: nat, probes: nat, log: seq<Entry>)

  datatype Event =
    | CallStarts(time: int)
    | ClosedCallEnds(time: int, ok: bool)
    | ProbeEnds(time: int, ok: bool)
    | StateRead(time: int)

  const NEW: Breaker := Breaker(CLOSED, [], 0, false)

  // ---------------------------------------------------------------- the breaker

  function MaybeTransitionFromOpen(b: Breaker, now: int, o: Options): Breaker {
    if b.state == OPEN && now - b.openedAt >= o.openDurationMs then b.(state := HALF_OPEN) else b
  }

  function Admit(b: Breaker, now: int, o: Options): (Breaker, Admission) {
    var b' := MaybeTransitionFromOpen(b, now, o);
    if b'.state == OPEN || (b'.state == HALF_OPEN && b'.halfOpenInFlight)
    then (b', Refused(b'.openedAt + o.openDurationMs))
    else if b'.state == HALF_OPEN then (b'.(halfOpenInFlight := true), Probe)
    else (b', Closed)
  }

  function Prune(failures: seq<int>, cutoff: int): seq<int> {
    if failures != [] && failures[0] < cutoff then Prune(failures[1..], cutoff) else failures
  }

  function RecordFailure(b: Breaker, t: int, o: Options): Breaker {
    var failures := Prune(b.failures + [t], t - o.windowMs);
    if |failures| >= o.failureThreshold then b.(failures := failures, state := OPEN, openedAt := t)
    else b.(failures := failures)
  }

  function EndClosed(b: Breaker, t: int, ok: bool, o: Options): Breaker {
    if ok then b.(failures := []) else RecordFailure(b, t, o)
  }

  function EndProbe(b: Breaker, t: int, ok: bool): Breaker {
    if ok then b.(state := CLOSED, failures := [], halfOpenInFlight := false)
    else b.(state := OPEN, openedAt := t, halfOpenInFlight := false)
  }

  // ---------------------------------------------------------------- all interleavings

  function Time(w: World, e: Event): int { if e.time < w.clock then w.clock else e.time }

  function Step(w: World, e: Event, o: Options): World {
    var now := Time(w, e);
    match e
    case CallStarts(_) =>
      var (b, a) := Admit(w.breaker, now, o);
      (match a
       case Refused(_) => World(b, now, w.closedCalls, w.probes, w.log)
       case Closed => World(b, now, w.closedCalls + 1, w.probes, w.log + [Started(now, false)])
       case Probe => World(b, now, w.closedCalls, w.probes + 1, w.log + [Started(now, true)]))
    case ClosedCallEnds(_, ok) =>
      if w.closedCalls == 0 then w
      else
        var b := EndClosed(w.breaker, now, ok, o);
        var opens := !ok && |b.failures| >= o.failureThreshold;
        World(b, now, w.closedCalls - 1, w.probes,
          w.log + if ok then [Success(false)] else if opens then [Failure(now), Opened(now)] else [Failure(now)])
    case ProbeEnds(_, ok) =>
      if w.probes == 0 then w
      else World(EndProbe(w.breaker, now, ok), now, w.closedCalls, w.probes - 1,
                 w.log + if ok then [Success(true)] else [ProbeFailed(now), Opened(now)])
    case StateRead(_) => World(MaybeTransitionFromOpen(w.breaker, now, o), now, w.closedCalls, w.probes, w.log)
  }

  function Run(w: World, events: seq<Event>, o: Options): World
    decreases |events|
  {
    if events == [] then w else Run(Step(w, events[0], o), events[1..], o)
  }

  const START: World := World(NEW, 0, 0, 0, [])

  // ---------------------------------------------------------------- histories, independent of the breaker

  /** Times of the failed ordinary calls since the last success of any call. */
  function SinceSuccess(log: seq<Entry>): seq<int> {
    if log == [] then []
    else
      var before := SinceSuccess(log[..|log| - 1]);
      match log[|log| - 1]
      case Success(_) => []
      case Failure(t) => before + [t]
      case _ => before
  }

  function Within(times: seq<int>, cutoff: int): seq<int> {
    if times == [] then []
    else
      var before := Within(times[..|times| - 1], cutoff);
      if times[|times| - 1] >= cutoff then before + [times[|times| - 1]] else before
  }

  /** Of these, the ones within the window that ends at the latest of them. */
  function Retained(log: seq<Entry>, windowMs: int): seq<int> {
    var times := SinceSuccess(log);
    if times == [] then [] else Within(times, times[|times| - 1] - windowMs)
  }

  datatype Circuit = Shut | Tripped(time: int)

  /** The latest opening that no successful probe has ended. */
  function Latest(log: seq<Entry>): Circuit {
    if log == [] then Shut
    else
      match log[|log| - 1]
      case Success(probe) => if probe then Shut else Latest(log[..|log| - 1])
      case Opened(t) => Tripped(t)
      case _ => Latest(log[..|log| - 1])
  }

  // ---------------------------------------------------------------- windows of sorted times

  ghost predicate Sorted(times: seq<int>) {
    forall i, j | 0 <= i < j < |times| :: times[i] <= times[j]
  }

  lemma SortedSnoc(times: seq<int>, t: int)
    requires Sorted(times) && forall x | x in times :: x <= t
    ensures Sorted(times + [t])
  {
    forall i, j | 0 <= i < j < |times + [t]| ensures (times + [t])[i] <= (times + [t])[j] {
      assert i < |times| && times[i] in times;
    }
  }

  lemma {:induction false} PruneIsWithin(times: seq<int>, cutoff: int)
    requires Sorted(times)
    ensures Prune(times, cutoff) == Within(times, cutoff)
  {
    if times != [] {
      PruneIsWithin(times[1..], cutoff);
      WithinHead(times, cutoff);
      if times[0] >= cutoff { WithinAll(times, cutoff); }
    }
  }

  lemma {:induction false} WithinAll(times: seq<int>, cutoff: int)
    requires forall i | 0 <= i < |times| :: times[i] >= cutoff
    ensures Within(times, cutoff) == times
  {
    if times != [] {
      WithinAll(times[..|times| - 1], cutoff);
      assert times == times[..|times| - 1] + [times[|times| - 1]];
    }
  }

  lemma {:induction false} WithinHead(times: seq<int>, cutoff: int)
    requires times != []
    ensures times[0] < cutoff ==> Within(times, cutoff) == Within(times[1..], cutoff)
  {
    if |times| > 1 {
      WithinHead(times[..|times| - 1], cutoff);
      assert times[..|times| - 1][1..] == times[1..][..|times[1..]| - 1];
    } else {
      assert times[1..] == [] && times[..0] == [];
    }
  }

  /** Dropping at an earlier cutoff first makes no difference. */
  lemma {:induction false} WithinTwice(times: seq<int>, early: int, late: int)
    requires early <= late
    ensures Within(Within(times, early), late) == Within(times, late)
  {
    if times != [] {
      var n := |times| - 1;
      WithinTwice(times[..n], early, late);
      if times[n] >= early {
        assert Within(times, early)[..|Within(times, early)| - 1] == Within(times[..n], early);
      }
    }
  }

  lemma {:induction false} WithinIsSorted(times: seq<int>, cutoff: int)
    requires Sorted(times)
    ensures Sorted(Within(times, cutoff))
    ensures forall t | t in Within(times, cutoff) :: t in times
  {
    if times != [] {
      var n := |times| - 1;
      WithinIsSorted(times[..n], cutoff);
      forall x | x in Within(times[..n], cutoff) ensures x <= times[n] {
        var i :| 0 <= i < n && times[..n][i] == x;
      }
      if times[n] >= cutoff { SortedSnoc(Within(times[..n], cutoff), times[n]); }
    }
  }

  lemma WithinSnoc(times: seq<int>, t: int, cutoff: int)
    ensures Within(times + [t], cutoff) == if t >= cutoff then Within(times, cutoff) + [t] else Within(times, cutoff)
  {
    assert (times + [t])[..|times|] == times;
  }

  /** What recording keeps of a failure list is what the history says to keep. */
  lemma RecordingRetains(log: seq<Entry>, t: int, windowMs: int)
    requires windowMs >= 0
    requires Sorted(SinceSuccess(log)) && forall x | x in SinceSuccess(log) :: x <= t
    ensures Prune(Retained(log, windowMs) + [t], t - windowMs) == Retained(log + [Failure(t)], windowMs)
  {
    var times, kept := SinceSuccess(log), Retained(log, windowMs);
    assert (log + [Failure(t)])[..|log|] == log;
    assert SinceSuccess(log + [Failure(t)]) == times + [t];
    PruneKept(times, kept, t, windowMs);
    assert (times + [t])[|times|] == t;
  }

  lemma PruneKept(times: seq<int>, kept: seq<int>, t: int, windowMs: int)
    requires windowMs >= 0
    requires Sorted(times) && forall x | x in times :: x <= t
    requires kept == if times == [] then [] else Within(times, times[|times| - 1] - windowMs)
    ensures Prune(kept + [t], t - windowMs) == Within(times + [t], t - windowMs)
  {
    KeptAgain(times, kept, t, windowMs);
    PruneIsWithin(kept + [t], t - windowMs);
    WithinSnoc(kept, t, t - windowMs);
    WithinSnoc(times, t, t - windowMs);
  }

  lemma KeptAgain(times: seq<int>, kept: seq<int>, t: int, windowMs: int)
    requires Sorted(times) && forall x | x in times :: x <= t
    requires kept == if times == [] then [] else Within(times, times[|times| - 1] - windowMs)
    ensures Within(kept, t - windowMs) == Within(times, t - windowMs)
    ensures Sorted(kept + [t])
  {
    if times != [] {
      assert times[|times| - 1] in times;
      WithinIsSorted(times, times[|times| - 1] - windowMs);
      WithinTwice(times, times[|times| - 1] - windowMs, t - windowMs);
    }
    SortedSnoc(kept, t);
  }

  // ---------------------------------------------------------------- invariant

  /** A call only starts while the circuit is shut, or as a probe late enough after the opening. */
  ghost predicate StartsAllowed(log: seq<Entry>, i: nat, o: Options)
    requires i < |log|
  {
    match log[i]
    case Started(t, probe) =>
      (match Latest(log[..i])
       case Shut => !probe
       case Tripped(since) => probe && t - since >= o.openDurationMs)
    case _ => true
  }

  /** An opening follows a failed probe, or a failure that fills the window; and such a failure
      is always followed by an opening. */
  ghost predicate OpeningsEarned(log: seq<Entry>, i: nat, o: Options)
    requires i < |log|
  {
    match log[i]
    case Opened(t) =>
      && i > 0
      && (log[i - 1] == ProbeFailed(t)
          || (log[i - 1] == Failure(t) && |Retained(log[..i], o.windowMs)| >= o.failureThreshold))
    case Failure(t) =>
      |Retained(log[..i + 1], o.windowMs)| >= o.failureThreshold ==> i + 1 < |log| && log[i + 1] == Opened(t)
    case ProbeFailed(t) => i + 1 < |log| && log[i + 1] == Opened(t)
    case _ => true
  }

  ghost predicate Ordered(log: seq<Entry>, clock: int) {
    Sorted(SinceSuccess(log)) && forall t | t in SinceSuccess(log) :: t <= clock
  }

  ghost predicate Lawful(log: seq<Entry>, o: Options) {
    forall i | 0 <= i < |log| :: StartsAllowed(log, i, o) && OpeningsEarned(log, i, o)
  }

  ghost predicate History(log: seq<Entry>, clock: int, o: Options) {
    Ordered(log, clock) && Lawful(log, o)
  }

  ghost predicate Inv(w: World, o: Options) {
    && w.probes <= 1
    && (w.breaker.halfOpenInFlight <==> w.probes == 1)
    && (w.breaker.state == CLOSED ==> w.probes == 0 && |w.breaker.failures| < o.failureThreshold)
    && w.breaker.failures == Retained(w.log, o.windowMs)
    && (match Latest(w.log) case Shut => w.breaker.state == CLOSED
                            case Tripped(t) => w.breaker.state != CLOSED && w.breaker.openedAt == t)
    && (w.breaker.state == HALF_OPEN ==> w.clock - w.breaker.openedAt >= o.openDurationMs)
    && History(w.log, w.clock, o)
  }

  lemma StartIsSound(o: Options)
    requires o.failureThreshold >= 1
    ensures Inv(START, o)
  {
  }

  // ---------------------------------------------------------------- one entry more

  /** Appending entries leaves the verdict on earlier ones alone, except that a failure at the end
      may now be followed by its opening. */
  lemma EarlierEntriesStand(log: seq<Entry>, more: seq<Entry>, o: Options)
    requires Lawful(log, o)
    ensures forall i | 0 <= i < |log| :: StartsAllowed(log + more, i, o) && OpeningsEarned(log + more, i, o)
  {
    forall i | 0 <= i < |log| ensures StartsAllowed(log + more, i, o) && OpeningsEarned(log + more, i, o) {
      assert (log + more)[..i] == log[..i] && (log + more)[..i + 1] == log[..i + 1];
      assert StartsAllowed(log, i, o) && OpeningsEarned(log, i, o);
    }
  }

  lemma StartKeepsHistory(log: seq<Entry>, clock: int, now: int, probe: bool, o: Options)
    requires History(log, clock, o) && clock <= now
    requires match Latest(log) case Shut => !probe case Tripped(since) => probe && now - since >= o.openDurationMs
    ensures History(log + [Started(now, probe)], now, o)
    ensures Latest(log + [Started(now, probe)]) == Latest(log)
    ensures Retained(log + [Started(now, probe)], o.windowMs) == Retained(log, o.windowMs)
  {
    EarlierEntriesStand(log, [Started(now, probe)], o);
    assert (log + [Started(now, probe)])[..|log|] == log;
  }

  lemma SuccessKeepsHistory(log: seq<Entry>, clock: int, now: int, probe: bool, o: Options)
    requires History(log, clock, o) && clock <= now
    ensures History(log + [Success(probe)], now, o)
    ensures Latest(log + [Success(probe)]) == if probe then Shut else Latest(log)
    ensures Retained(log + [Success(probe)], o.windowMs) == []
  {
    EarlierEntriesStand(log, [Success(probe)], o);
    assert (log + [Success(probe)])[..|log|] == log;
  }

  lemma FailureIsOrdered(log: seq<Entry>, clock: int, now: int)
    requires Ordered(log, clock) && clock <= now
    ensures Ordered(log + [Failure(now)], now)
    ensures SinceSuccess(log + [Failure(now)]) == SinceSuccess(log) + [now]
    ensures Latest(log + [Failure(now)]) == Latest(log)
  {
    assert (log + [Failure(now)])[..|log|] == log;
    SortedSnoc(SinceSuccess(log), now);
  }

  lemma FailureKeepsHistory(log: seq<Entry>, clock: int, now: int, o: Options)
    requires History(log, clock, o) && clock <= now
    requires |Retained(log + [Failure(now)], o.windowMs)| < o.failureThreshold
    ensures History(log + [Failure(now)], now, o)
    ensures Latest(log + [Failure(now)]) == Latest(log)
  {
    var log' := log + [Failure(now)];
    FailureIsOrdered(log, clock, now);
    EarlierEntriesStand(log, [Failure(now)], o);
    assert log'[..|log| + 1] == log';
  }

  lemma TripIsLawful(log: seq<Entry>, now: int, o: Options)
    requires Lawful(log, o)
    requires |Retained(log + [Failure(now)], o.windowMs)| >= o.failureThreshold
    ensures Lawful(log + [Failure(now), Opened(now)], o)
  {
    var log' := log + [Failure(now), Opened(now)];
    EarlierEntriesStand(log, [Failure(now), Opened(now)], o);
    assert log'[..|log| + 1] == log + [Failure(now)];
    assert log'[|log|] == Failure(now) && log'[|log| + 1] == Opened(now);
  }

  lemma OpeningIsOrdered(log: seq<Entry>, now: int, windowMs: int)
    requires Ordered(log, now)
    ensures Ordered(log + [Opened(now)], now)
    ensures Latest(log + [Opened(now)]) == Tripped(now)
    ensures Retained(log + [Opened(now)], windowMs) == Retained(log, windowMs)
  {
    assert (log + [Opened(now)])[..|log|] == log;
  }

  lemma TripKeepsHistory(log: seq<Entry>, clock: int, now: int, o: Options)
    requires History(log, clock, o) && clock <= now
    requires |Retained(log + [Failure(now)], o.windowMs)| >= o.failureThreshold
    ensures History(log + [Failure(now), Opened(now)], now, o)
    ensures Latest(log + [Failure(now), Opened(now)]) == Tripped(now)
    ensures Retained(log + [Failure(now), Opened(now)], o.windowMs) == Retained(log + [Failure(now)], o.windowMs)
  {
    TripIsLawful(log, now, o);
    FailureIsOrdered(log, clock, now);
    OpeningIsOrdered(log + [Failure(now)], now, o.windowMs);
    assert log + [Failure(now), Opened(now)] == log + [Failure(now)] + [Opened(now)];
  }

  lemma ProbeFailureIsLawful(log: seq<Entry>, now: int, o: Options)
    requires Lawful(log, o)
    ensures Lawful(log + [ProbeFailed(now), Opened(now)], o)
  {
    var log' := log + [ProbeFailed(now), Opened(now)];
    EarlierEntriesStand(log, [ProbeFailed(now), Opened(now)], o);
    assert log'[|log|] == ProbeFailed(now) && log'[|log| + 1] == Opened(now);
  }

  lemma ProbeFailureIsOrdered(log: seq<Entry>, clock: int, now: int, windowMs: int)
    requires Ordered(log, clock) && clock <= now
    ensures Ordered(log + [ProbeFailed(now)], now)
    ensures Retained(log + [ProbeFailed(now)], windowMs) == Retained(log, windowMs)
  {
    assert (log + [ProbeFailed(now)])[..|log|] == log;
  }

  lemma ProbeFailureKeepsHistory(log: seq<Entry>, clock: int, now: int, o: Options)
    requires History(log, clock, o) && clock <= now
    ensures History(log + [ProbeFailed(now), Opened(now)], now, o)
    ensures Latest(log + [ProbeFailed(now), Opened(now)]) == Tripped(now)
    ensures Retained(log + [ProbeFailed(now), Opened(now)], o.windowMs) == Retained(log, o.windowMs)
  {
    ProbeFailureIsLawful(log, now, o);
    ProbeFailureIsOrdered(log, clock, now, o.windowMs);
    OpeningIsOrdered(log + [ProbeFailed(now)], now, o.windowMs);
    assert log + [ProbeFailed(now), Opened(now)] == log + [ProbeFailed(now)] + [Opened(now)];
  }

  // ---------------------------------------------------------------- every step, every run

  lemma StepKeepsInv(w: World, e: Event, o: Options)
    requires Inv(w, o) && o.failureThreshold >= 1 && o.windowMs >= 0
    ensures Inv(Step(w, e, o), o)
  {
    var now := Time(w, e);
    match e
    case CallStarts(_) => CallStartKeepsInv(w, e, o);
    case ClosedCallEnds(_, ok) => if w.closedCalls > 0 { ClosedEndKeepsInv(w, e, o); }
    case ProbeEnds(_, ok) =>
      if w.probes > 0 {
        if ok { SuccessKeepsHistory(w.log, w.clock, now, true, o); }
        else { ProbeFailureKeepsHistory(w.log, w.clock, now, o); }
      }
    case StateRead(_) =>
  }

  lemma CallStartKeepsInv(w: World, e: Event, o: Options)
    requires Inv(w, o) && e.CallStarts?
    ensures Inv(Step(w, e, o), o)
  {
    var now := Time(w, e);
    var a := Admit(w.breaker, now, o).1;
    if !a.Refused? {
      StartKeepsHistory(w.log, w.clock, now, a.Probe?, o);
    }
  }

  lemma ClosedEndKeepsInv(w: World, e: Event, o: Options)
    requires Inv(w, o) && e.ClosedCallEnds? && w.closedCalls > 0 && o.failureThreshold >= 1 && o.windowMs >= 0
    ensures Inv(Step(w, e, o), o)
  {
    if e.ok {
      SuccessKeepsHistory(w.log, w.clock, Time(w, e), false, o);
    } else {
      ClosedFailureKeepsInv(w, e, o);
    }
  }

  lemma ClosedFailureKeepsInv(w: World, e: Event, o: Options)
    requires Inv(w, o) && e.ClosedCallEnds? && !e.ok && w.closedCalls > 0 && o.failureThreshold >= 1 && o.windowMs >= 0
    ensures Inv(Step(w, e, o), o)
  {
    var now := Time(w, e);
    RecordingRetains(w.log, now, o.windowMs);
    var kept := Retained(w.log + [Failure(now)], o.windowMs);
    assert RecordFailure(w.breaker, now, o).failures == kept;
    if |kept| >= o.failureThreshold {
      TripKeepsHistory(w.log, w.clock, now, o);
    } else {
      FailureKeepsHistory(w.log, w.clock, now, o);
    }
  }

  lemma {:induction false} RunKeepsInv(w: World, events: seq<Event>, o: Options)
    requires Inv(w, o) && o.failureThreshold >= 1 && o.windowMs >= 0
    ensures Inv(Run(w, events, o), o)
    decreases |events|
  {
    if events != [] {
      StepKeepsInv(w, events[0], o);
      RunKeepsInv(Step(w, events[0], o), events[1..], o);
    }
  }

  /** Who is let in, told from the history alone: everyone while the circuit is shut; once it has
      tripped, one probe at a time from openDurationMs after the trip on; anyone else is told when. */
  lemma CallsStartExactlyWhenDue(w: World, e: Event, o: Options)
    requires Inv(w, o) && e.CallStarts?
    ensures var now, w' := if e.time > w.clock then e.time else w.clock, Step(w, e, o);
      && w'.clock == now
      && match Latest(w.log)
         case Shut =>
           w' == w.(clock := now, closedCalls := w.closedCalls + 1, log := w.log + [Started(now, false)])
         case Tripped(since) =>
           if now >= since + o.openDurationMs && w.probes == 0 then
             w' == w.(breaker := w'.breaker, clock := now, probes := 1, log := w.log + [Started(now, true)])
           else
             w' == w.(breaker := w'.breaker, clock := now) && Admit(w.breaker, now, o).1 == Refused(since + o.openDurationMs)
  {
  }

  /** What the end of a call adds to the history; an end without a call under way is nothing. */
  lemma CallsEndOnce(w: World, e: Event, o: Options)
    requires Inv(w, o) && (e.ClosedCallEnds? || e.ProbeEnds?) && o.failureThreshold >= 1 && o.windowMs >= 0
    ensures var now, w' := if e.time > w.clock then e.time else w.clock, Step(w, e, o);
      if e.ClosedCallEnds? && w.closedCalls > 0 then
        && w'.clock == now && w'.closedCalls == w.closedCalls - 1 && w'.probes == w.probes
        && w'.log == w.log + if e.ok then [Success(false)]
             else if |Retained(w.log + [Failure(now)], o.windowMs)| >= o.failureThreshold then [Failure(now), Opened(now)]
             else [Failure(now)]
      else if e.ProbeEnds? && w.probes > 0 then
        && w'.clock == now && w'.closedCalls == w.closedCalls && w'.probes == 0
        && w'.log == w.log + if e.ok then [Success(true)] else [ProbeFailed(now), Opened(now)]
      else w' == w
  {
    if e.ClosedCallEnds? && !e.ok { RecordingRetains(w.log, Time(w, e), o.windowMs); }
  }

  /** Whatever overlaps: one probe at most, none while the circuit is closed, and a closed circuit
      remembers fewer failures than it takes to open. */
  lemma OneProbeAtMost(events: seq<Event>, o: Options)
    requires o.failureThreshold >= 1 && o.windowMs >= 0
    ensures var w := Run(START, events, o);
      && w.probes <= 1
      && (w.breaker.state == CLOSED ==> w.probes == 0 && |w.breaker.failures| < o.failureThreshold)
  {
    StartIsSound(o);
    RunKeepsInv(START, events, o);
  }

  /** No call starts between an opening and openDurationMs after it, and until a probe succeeds
      only probes start. */
  lemma NoStartWhileOpen(events: seq<Event>, o: Options, i: nat)
    requires o.failureThreshold >= 1 && o.windowMs >= 0
    requires i < |Run(START, events, o).log| && Run(START, events, o).log[i].Started?
    ensures var log := Run(START, events, o).log;
      match Latest(log[..i])
      case Shut => !log[i].probe
      case Tripped(since) => log[i].probe && log[i].time >= since + o.openDurationMs
  {
    StartIsSound(o);
    RunKeepsInv(START, events, o);
    assert StartsAllowed(Run(START, events, o).log, i, o);
  }

  /** The circuit opens exactly when a probe fails or when a failing call is at least the
      threshold-th within the window with no success in between. */
  lemma OpensExactlyAtThreshold(events: seq<Event>, o: Options, i: nat)
    requires o.failureThreshold >= 1 && o.windowMs >= 0
    requires i < |Run(START, events, o).log|
    ensures var log := Run(START, events, o).log;
      && (log[i].Opened? ==> i > 0 && log[i - 1] in {Failure(log[i].time), ProbeFailed(log[i].time)})
      && (log[i].Failure? ==>
            (i + 1 < |log| && log[i + 1] == Opened(log[i].time)
             <==> |Retained(log[..i + 1], o.windowMs)| >= o.failureThreshold))
      && (log[i].ProbeFailed? ==> i + 1 < |log| && log[i + 1] == Opened(log[i].time))
  {
    StartIsSound(o);
    RunKeepsInv(START, events, o);
    var log := Run(START, events, o).log;
    assert OpeningsEarned(log, i, o);
    if i + 1 < |log| { assert OpeningsEarned(log, i + 1, o); }
  }

  // ---------------------------------------------------------------- the object

  class CircuitBreaker {
    const options: Options
    var state: CircuitState
    var failures: seq<int>
    var openedAt: int
    var halfOpenInFlight: bool

    function State(): Breaker
      reads this
    {
      Breaker(state, failures, openedAt, halfOpenInFlight)
    }

    constructor (options: Options)
      ensures State() == NEW && this.options == options
    {
      this.options := options;
      state, failures, openedAt, halfOpenInFlight := CLOSED, [], 0, false;
    }

    method Transition(next: CircuitState)
      modifies this`state
      ensures state == next
    {
      if state == next { return; }
      state := next;
    }

    method TransitionFromOpenIfDue(now: int)
      modifies this`state
      ensures State() == MaybeTransitionFromOpen(old(State()), now, options)
    {
      if state != OPEN { return; }
      if now - openedAt >= options.openDurationMs { Transition(HALF_OPEN); }
    }

    /** execute up to the call of the wrapped function. */
    method Begin(now: int) returns (admission: Admission)
      modifies this
      ensures (State(), admission) == Admit(old(State()), now, options)
    {
      TransitionFromOpenIfDue(now);
      if state == OPEN { return Refused(openedAt + options.openDurationMs); }
      if state == HALF_OPEN {
        if halfOpenInFlight { return Refused(openedAt + options.openDurationMs); }
        halfOpenInFlight := true;
        return Probe;
      }
      return Closed;
    }

    method Record(t: int)
      modifies this
      ensures State() == RecordFailure(old(State()), t, options)
    {
      failures := failures + [t];
      var cutoff := t - options.windowMs;
      while |failures| > 0 && failures[0] < cutoff
        invariant Prune(failures, cutoff) == Prune(old(failures) + [t], cutoff)
        invariant state == old(state) && openedAt == old(openedAt) && halfOpenInFlight == old(halfOpenInFlight)
      {
        failures := failures[1..];
      }
      if |failures| >= options.failureThreshold {
        Transition(OPEN);
        openedAt := t;
      }
    }

    /** execute after the wrapped function came back, for a call admitted while closed. */
    method FinishClosed(now: int, ok: bool)
      modifies this
      ensures State() == EndClosed(old(State()), now, ok, options)
    {
      if ok { failures := []; } else { Record(now); }
    }

    /** execute after the probe came back. */
    method FinishProbe(now: int, ok: bool)
      modifies this
      ensures State() == EndProbe(old(State()), now, ok)
    {
      if ok {
        Transition(CLOSED);
        failures := [];
      } else {
        Transition(OPEN);
        openedAt := now;
      }
      halfOpenInFlight := false;
    }
  }
}
