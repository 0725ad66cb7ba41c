/** The orphan sweep makes progress: whatever else runs in between, each completed sweep
    settles the oldest stale runs, so a finite backlog drains. */
module GraphRunRecovery {
  import opened Decimals
  import opened Ordering
  import opened Sets
  import opened GraphRuns
  import opened GraphRunTheorems

  const BOOT_ORPHAN_AGE_MS := 600000
  const BOOT_RECOVERY_LIMIT := 100

  predicate IsStale(run: GraphRun, cutoff: int) {
    run.status == RUNNING && run.lastActivity < cutoff
  }

  function Stale(w: World, cutoff: int): set<string> {
    set r | r in w.runs && IsStale(w.runs[r], cutoff)
  }

  /** orderBy lastActivityAt, then id. */
  predicate Earlier(w: World, r: string, s: string)
    requires r in w.runs && s in w.runs
  {
    || w.runs[r].lastActivity < w.runs[s].lastActivity
    || (w.runs[r].lastActivity == w.runs[s].lastActivity && TextBefore(r, s))
  }

  /** The rows the sweep reads: the first BOOT_RECOVERY_LIMIT stale rows in that order. */
  ghost predicate IsBatch(w: World, cutoff: int, batch: set<string>) {
    && batch <= Stale(w, cutoff)
    && |batch| == (if |Stale(w, cutoff)| < BOOT_RECOVERY_LIMIT then |Stale(w, cutoff)| else BOOT_RECOVERY_LIMIT)
    && forall r, s | r in batch && s in Stale(w, cutoff) - batch :: !Earlier(w, s, r)
  }

  lemma EarlierIsTotal(w: World, r: string, s: string)
    requires r in w.runs && s in w.runs
    ensures !(Earlier(w, r, s) && Earlier(w, s, r))
    ensures r != s ==> Earlier(w, r, s) || Earlier(w, s, r)
    ensures Earlier(w, r, s) ==> w.runs[r].lastActivity <= w.runs[s].lastActivity
    ensures r != s && w.runs[r].lastActivity == w.runs[s].lastActivity ==> (Earlier(w, r, s) <==> TextBefore(r, s))
  {
    TextOrderIsTotal(r, s);
  }

  /** The rows a sweep reads are determined by the table. */
  lemma BatchIsDetermined(w: World, cutoff: int, a: set<string>, b: set<string>)
    requires IsBatch(w, cutoff, a) && IsBatch(w, cutoff, b)
    ensures a == b
  {
    if a != b {
      var r, s := SomeOnlyIn(a, b), SomeOnlyIn(b, a);
      assert r in Stale(w, cutoff) - b && s in Stale(w, cutoff) - a;
      EarlierIsTotal(w, r, s);
      assert false;
    }
  }

  ghost function SomeOnlyIn(a: set<string>, b: set<string>): (x: string)
    requires |a| == |b| && a != b
    ensures x in a && x !in b
  {
    if forall x | x in a :: x in b then
      SubsetOfSameSize(a, b);
      assert false;
      ""
    else
      var x :| x in a && x !in b;
      x
  }

  /** A sweep interleaved with anything: the batch is read at `w`, and by the end of `events`
      every row of it has been tried once with the generation and cutoff read at `w`. */
  ghost predicate Sweep(w: World, events: seq<Event>) {
    var cutoff := w.now - BOOT_ORPHAN_AGE_MS;
    exists batch :: IsBatch(w, cutoff, batch) && TriesAll(w, events, cutoff, batch)
  }

  ghost predicate TriesAll(w: World, events: seq<Event>, cutoff: int, batch: set<string>) {
    forall r | r in batch :: r in w.runs && ClaimTried(r, w.runs[r].generation, cutoff) in events
  }

  /** A step never makes a run stale at a past cutoff, and one that stays stale was not claimed. */
  lemma StepNeverAges(w: World, e: Event, cutoff: int, r: string)
    requires cutoff <= w.now
    requires r in Stale(Step(w, e), cutoff)
    ensures r in Stale(w, cutoff) && Step(w, e).runs[r].generation == w.runs[r].generation
  {
  }

  lemma {:induction false} RunNeverAges(w: World, events: seq<Event>, cutoff: int, r: string)
    requires cutoff <= w.now
    requires r in Stale(Run(w, events), cutoff)
    ensures r in Stale(w, cutoff) && Run(w, events).runs[r].generation == w.runs[r].generation
    decreases |events|
  {
    if events != [] {
      StepIsLater(w, events[0]);
      RunNeverAges(Step(w, events[0]), events[1..], cutoff, r);
      StepNeverAges(w, events[0], cutoff, r);
    }
  }

  /** A tried claim settles its run: claimed by this sweep, or already moved on. */
  lemma {:induction false} TriedClaimSettles(w: World, events: seq<Event>, cutoff: int, older: int, r: string, generation: nat)
    requires older <= cutoff && older <= w.now
    requires r in w.runs && (r in Stale(w, older) ==> w.runs[r].generation == generation)
    requires ClaimTried(r, generation, cutoff) in events
    ensures r !in Stale(Run(w, events), older)
    decreases |events|
  {
    var e, w1 := events[0], Step(w, events[0]);
    StepIsLater(w, e);
    if e == ClaimTried(r, generation, cutoff) {
      if r in Stale(w1, older) { StepNeverAges(w, e, older, r); }
      if r in Stale(Run(w1, events[1..]), older) { RunNeverAges(w1, events[1..], older, r); }
    } else {
      if r in Stale(w1, older) { StepNeverAges(w, e, older, r); }
      TriedClaimSettles(w1, events[1..], cutoff, older, r, generation);
    }
  }

  /** The batch holds the first hundred runs of any older backlog, or all of it. */
  lemma BatchCoversOldest(w: World, cutoff: int, older: int, batch: set<string>)
    requires older <= cutoff && IsBatch(w, cutoff, batch)
    ensures Stale(w, older) <= batch || |batch * Stale(w, older)| == BOOT_RECOVERY_LIMIT
  {
    var backlog := Stale(w, older);
    assert backlog <= Stale(w, cutoff);
    if s :| s in backlog && s !in batch {
      assert s in Stale(w, cutoff) - batch;
      forall r | r in batch ensures r in backlog { assert !Earlier(w, s, r); }
      assert batch * backlog == batch;
      if |Stale(w, cutoff)| < BOOT_RECOVERY_LIMIT {
        assert batch == Stale(w, cutoff) by { SubsetOfSameSize(batch, Stale(w, cutoff)); }
      }
    }
  }

  lemma SubsetOfSameSize<T>(a: set<T>, b: set<T>)
    requires a <= b && |a| == |b|
    ensures a == b
  {
    assert |b - a| == 0;
  }

  /** One completed sweep removes a hundred runs from any backlog at least as old as its cutoff,
      or all that are left, no matter what else happens meanwhile. */
  lemma SweepShrinksBacklog(w: World, events: seq<Event>, older: int)
    requires Sweep(w, events)
    requires older <= w.now - BOOT_ORPHAN_AGE_MS
    ensures Stale(Run(w, events), older) <= Stale(w, older)
    ensures |Stale(Run(w, events), older)| <=
              (if |Stale(w, older)| <= BOOT_RECOVERY_LIMIT then 0 else |Stale(w, older)| - BOOT_RECOVERY_LIMIT)
  {
    var cutoff := w.now - BOOT_ORPHAN_AGE_MS;
    var batch :| IsBatch(w, cutoff, batch) && TriesAll(w, events, cutoff, batch);
    var backlog, left := Stale(w, older), Stale(Run(w, events), older);
    forall r | r in left ensures r in backlog && r !in batch {
      RunNeverAges(w, events, older, r);
      if r in batch { TriedClaimSettles(w, events, cutoff, older, r, w.runs[r].generation); }
    }
    BatchCoversOldest(w, cutoff, older, batch);
    BatchLeavesRest(backlog, left, batch);
  }

  lemma BatchLeavesRest(backlog: set<string>, left: set<string>, batch: set<string>)
    requires left <= backlog && left !! batch
    requires backlog <= batch || |batch * backlog| == BOOT_RECOVERY_LIMIT
    ensures |left| <= if |backlog| <= BOOT_RECOVERY_LIMIT then 0 else |backlog| - BOOT_RECOVERY_LIMIT
  {
    var covered := batch * backlog;
    SmallerSet(left, backlog - covered);
    assert |backlog - covered| == |backlog| - |covered| by { assert backlog == covered + (backlog - covered); }
    if backlog <= batch { assert covered == backlog && left == {}; }
    SmallerSet(covered, backlog);
  }

  /** Consecutive sweeps, each interleaved with anything. */
  ghost predicate Sweeps(w: World, traces: seq<seq<Event>>)
    decreases |traces|
  {
    traces == [] || (Sweep(w, traces[0]) && Sweeps(Run(w, traces[0]), traces[1..]))
  }

  ghost function RunAll(w: World, traces: seq<seq<Event>>): World
    decreases |traces|
  {
    if traces == [] then w else RunAll(Run(w, traces[0]), traces[1..])
  }

  lemma {:induction false} SweepsShrinkBacklog(w: World, traces: seq<seq<Event>>, older: int)
    requires Sweeps(w, traces)
    requires older <= w.now - BOOT_ORPHAN_AGE_MS
    ensures |Stale(RunAll(w, traces), older)| <=
              (if |Stale(w, older)| <= BOOT_RECOVERY_LIMIT * |traces| then 0
               else |Stale(w, older)| - BOOT_RECOVERY_LIMIT * |traces|)
    decreases |traces|
  {
    if traces != [] {
      SweepShrinksBacklog(w, traces[0], older);
      RunIsLater(w, traces[0]);
      SweepsShrinkBacklog(Run(w, traces[0]), traces[1..], older);
    }
  }

  /** n runs stale at a cutoff are all claimed or moved on after ceil(n / 100) sweeps. */
  lemma BacklogDrains(w: World, traces: seq<seq<Event>>, older: int)
    requires Sweeps(w, traces)
    requires older <= w.now - 600000
    requires |traces| == (|Stale(w, older)| + 99) / 100
    ensures Stale(RunAll(w, traces), older) == {}
  {
    SweepsShrinkBacklog(w, traces, older);
  }

  // ---------------------------------------------------------------- job ids

  function Decimal(n: nat): string {
    seq(|Digits(n)|, i requires 0 <= i < |Digits(n)| => Digits(n)[i] as char)
  }

  lemma DecimalIsInjective(m: nat, n: nat)
    requires Decimal(m) == Decimal(n)
    ensures m == n
  {
    assert forall i | 0 <= i < |Digits(m)| :: Decimal(m)[i] as int == Digits(m)[i] && Decimal(n)[i] as int == Digits(n)[i];
    assert Digits(m) == Digits(n);
    DigitsAreInjective(m, n);
  }

  function DispatchJobId(runId: string, generation: nat): string {
    runId + "-dispatch-" + Decimal(generation)
  }

  /** The last hyphen of a text splits it in one way only. */
  lemma LastHyphenSplits(p: string, d: string, q: string, e: string)
    requires '-' !in d && '-' !in e
    requires p + "-" + d == q + "-" + e
    ensures p == q && d == e
  {
    var s := p + "-" + d;
    assert s[|p|] == '-' && s[|q|] == '-';
    assert forall i | |p| < i < |s| :: s[i] == d[i - |p| - 1];
    assert forall i | |q| < i < |s| :: s[i] == e[i - |q| - 1];
    assert p == s[..|p|] && q == s[..|q|];
    assert d == s[|p| + 1..] && e == s[|q| + 1..];
  }

  /** Distinct dispatches never share a job id, whatever characters the run ids contain. */
  lemma JobIdsAreInjective(r: string, g: nat, s: string, h: nat)
    requires DispatchJobId(r, g) == DispatchJobId(s, h)
    ensures r == s && g == h
  {
    var p, q := r + "-dispatch", s + "-dispatch";
    assert p + "-" + Decimal(g) == DispatchJobId(r, g);
    assert q + "-" + Decimal(h) == DispatchJobId(s, h);
    LastHyphenSplits(p, Decimal(g), q, Decimal(h));
    assert r == p[..|p| - 9] && s == q[..|q| - 9];
    DecimalIsInjective(g, h);
  }
}
