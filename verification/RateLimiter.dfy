/** The fixed-window rate limiter: a bounded store of windows, swept of expired ones. */
module RateLimiter {
  import opened Sets

  /** A key's current window: requests admitted in it and the time it ends. */
  datatype Window = Window(count: int, resetAt: int)

  datatype Limits = Limits(windowMs: int, limit: int, maxEntries: nat)

  datatype Limiter = Limiter(store: map<string, Window>, nextSweepAt: int)

  datatype Decision = Admitted | OverLimit | AtCapacity

  /** What was admitted: `start` is when the window it counts in began. */
  datatype Entry = Entry(key: string, time: int, start: int)

  datatype World = World(limiter: Limiter, clock: int, log: seq<Entry>)

  datatype Request = Request(key: string, time: int)

  function Sweep(s: Limiter, now: int, windowMs: int): Limiter {
    if now < s.nextSweepAt then s
    else Limiter(map k | k in s.store && now < s.store[k].resetAt :: s.store[k], now + windowMs)
  }

  function Consume(s: Limiter, key: string, now: int, c: Limits): (Limiter, Decision) {
    var swept := Sweep(s, now, c.windowMs);
    if key !in swept.store || now >= swept.store[key].resetAt then
      if key !in swept.store && |swept.store| >= c.maxEntries then (swept, AtCapacity)
      else (swept.(store := swept.store[key := Window(1, now + c.windowMs)]), Admitted)
    else if swept.store[key].count >= c.limit then (swept, OverLimit)
    else
      (swept.(store := swept.store[key := swept.store[key].(count := swept.store[key].count + 1)]), Admitted)
  }

  /** One request; the clock does not run backwards. */
  function Step(w: World, r: Request, c: Limits): World {
    var now := if r.time < w.clock then w.clock else r.time;
    var (s, decision) := Consume(w.limiter, r.key, now, c);
    World(s, now,
      if decision == Admitted && r.key in s.store
      then w.log + [Entry(r.key, now, s.store[r.key].resetAt - c.windowMs)] else w.log)
  }

  function Run(w: World, requests: seq<Request>, c: Limits): World
    decreases |requests|
  {
    if requests == [] then w else Run(Step(w, requests[0], c), requests[1..], c)
  }

  const FRESH: World := World(Limiter(map[], 0), 0, [])

  // ---------------------------------------------------------------- counting admissions

  predicate Inside(e: Entry, key: string, from: int, windowMs: int) {
    e.key == key && from <= e.time < from + windowMs
  }

  /** Admissions of a key in the half-open interval of one window's length. */
  function CountInside(log: seq<Entry>, key: string, from: int, windowMs: int): nat {
    if log == [] then 0
    else CountInside(log[..|log| - 1], key, from, windowMs) + if Inside(log[|log| - 1], key, from, windowMs) then 1 else 0
  }

  function CountStarted(log: seq<Entry>, key: string, start: int): nat {
    if log == [] then 0
    else
      var last := log[|log| - 1];
      CountStarted(log[..|log| - 1], key, start) + if last.key == key && last.start == start then 1 else 0
  }

  function PerWindow(c: Limits): int { if c.limit < 1 then 1 else c.limit }

  // ---------------------------------------------------------------- invariant

  ghost predicate WellTimed(e: Entry, c: Limits) { e.start <= e.time < e.start + c.windowMs }

  /** Two windows of one key do not overlap. */
  ghost predicate Apart(e: Entry, f: Entry, c: Limits) {
    e.key == f.key && e.start < f.start ==> e.start + c.windowMs <= f.start
  }

  /** Every window opened with an admission at its very start. */
  ghost predicate Opened(log: seq<Entry>, key: string, start: int) { Entry(key, start, start) in log }

  ghost predicate Tracks(w: World, key: string, c: Limits) {
    if key in w.limiter.store then
      var current := w.limiter.store[key];
      && current.count == CountStarted(w.log, key, current.resetAt - c.windowMs)
      && 1 <= current.count <= PerWindow(c)
      && (forall e | e in w.log && e.key == key ::
            e.start == current.resetAt - c.windowMs || e.start + 2 * c.windowMs <= current.resetAt)
    else forall e | e in w.log && e.key == key :: e.start + c.windowMs <= w.clock
  }

  ghost predicate Inv(w: World, c: Limits) {
    && |w.limiter.store| <= c.maxEntries
    && (forall e | e in w.log :: WellTimed(e, c) && Opened(w.log, e.key, e.start))
    && (forall e, f | e in w.log && f in w.log :: Apart(e, f, c))
    && (forall key, start :: CountStarted(w.log, key, start) <= PerWindow(c))
    && (forall key :: Tracks(w, key, c))
  }

  lemma {:induction false} NotStarted(log: seq<Entry>, key: string, start: int)
    requires forall e | e in log && e.key == key :: e.start != start
    ensures CountStarted(log, key, start) == 0
  {
    if log != [] { NotStarted(log[..|log| - 1], key, start); }
  }

  lemma SweepKeeps(w: World, now: int, c: Limits)
    requires Inv(w, c) && w.clock <= now
    ensures Inv(World(Sweep(w.limiter, now, c.windowMs), now, w.log), c)
  {
    var w' := World(Sweep(w.limiter, now, c.windowMs), now, w.log);
    var kept := w'.limiter.store;
    assert kept.Keys <= w.limiter.store.Keys;
    SmallerSet(kept.Keys, w.limiter.store.Keys);
    assert |kept| == |kept.Keys| && |w.limiter.store| == |w.limiter.store.Keys|;
    forall key ensures Tracks(w', key, c) {
      assert Tracks(w, key, c);
    }
  }

  lemma CountSnoc(log: seq<Entry>, e: Entry, key: string, start: int)
    ensures CountStarted(log + [e], key, start)
         == CountStarted(log, key, start) + if e.key == key && e.start == start then 1 else 0
  {
    assert (log + [e])[..|log|] == log;
  }

  /** A key whose window is over, or that has none, has no admission in a current window. */
  lemma WindowIsOver(w: World, key: string, c: Limits)
    requires Inv(w, c) && c.windowMs > 0
    requires key !in w.limiter.store || w.limiter.store[key].resetAt <= w.clock
    ensures forall e | e in w.log && e.key == key :: e.start + c.windowMs <= w.clock
    ensures CountStarted(w.log, key, w.clock) == 0
  {
    assert Tracks(w, key, c);
    NotStarted(w.log, key, w.clock);
  }

  lemma OpenWindowTracks(w: World, key: string, c: Limits)
    requires c.windowMs > 0 && CountStarted(w.log, key, w.clock) == 0
    requires forall e | e in w.log && e.key == key :: e.start + c.windowMs <= w.clock
    requires forall k :: Tracks(w, k, c)
    requires forall k, start :: CountStarted(w.log, k, start) <= PerWindow(c)
    ensures forall k :: Tracks(OpenWindow(w, key, c), k, c)
    ensures forall k, start :: CountStarted(OpenWindow(w, key, c).log, k, start) <= PerWindow(c)
  {
    var e := Entry(key, w.clock, w.clock);
    var w' := OpenWindow(w, key, c);
    forall k ensures Tracks(w', k, c) {
      assert Tracks(w, k, c);
      if k in w'.limiter.store { CountSnoc(w.log, e, k, w'.limiter.store[k].resetAt - c.windowMs); }
    }
    forall k, start ensures CountStarted(w'.log, k, start) <= PerWindow(c) {
      CountSnoc(w.log, e, k, start);
    }
  }

  lemma OpenWindowKeepsLog(w: World, key: string, c: Limits)
    requires Inv(w, c) && c.windowMs > 0
    requires forall e | e in w.log && e.key == key :: e.start + c.windowMs <= w.clock
    ensures var log := OpenWindow(w, key, c).log;
      && (forall e | e in log :: WellTimed(e, c) && Opened(log, e.key, e.start))
      && (forall e, f | e in log && f in log :: Apart(e, f, c))
  {
    var e := Entry(key, w.clock, w.clock);
    var log := OpenWindow(w, key, c).log;
    assert e in log;
    forall f | f in log ensures WellTimed(f, c) && Opened(log, f.key, f.start) {
      assert f == e || (f in w.log && Opened(w.log, f.key, f.start));
    }
    forall f, g | f in log && g in log ensures Apart(f, g, c) {
      if f in w.log && g in w.log { assert Apart(f, g, c); }
    }
  }

  lemma OpenWindowKeeps(w: World, key: string, c: Limits)
    requires Inv(w, c) && c.windowMs > 0
    requires key !in w.limiter.store || w.limiter.store[key].resetAt <= w.clock
    requires key in w.limiter.store || |w.limiter.store| < c.maxEntries
    ensures Inv(OpenWindow(w, key, c), c)
  {
    WindowIsOver(w, key, c);
    OpenWindowTracks(w, key, c);
    OpenWindowKeepsLog(w, key, c);
    var store, store' := w.limiter.store, OpenWindow(w, key, c).limiter.store;
    assert store'.Keys == store.Keys + {key} && |store'| == |store'.Keys| && |store| == |store.Keys|;
    if key in store { assert store'.Keys == store.Keys; }
  }

  function CountUp(w: World, key: string, c: Limits): World
    requires key in w.limiter.store
  {
    var current := w.limiter.store[key];
    World(w.limiter.(store := w.limiter.store[key := current.(count := current.count + 1)]), w.clock,
      w.log + [Entry(key, w.clock, current.resetAt - c.windowMs)])
  }

  lemma CountUpTracks(w: World, key: string, c: Limits)
    requires key in w.limiter.store && w.limiter.store[key].count < c.limit && c.windowMs > 0
    requires forall k :: Tracks(w, k, c)
    requires forall k, start :: CountStarted(w.log, k, start) <= PerWindow(c)
    ensures forall k :: Tracks(CountUp(w, key, c), k, c)
    ensures forall k, start :: CountStarted(CountUp(w, key, c).log, k, start) <= PerWindow(c)
  {
    var w' := CountUp(w, key, c);
    var e := w'.log[|w.log|];
    assert w'.log == w.log + [e];
    assert Tracks(w, key, c);
    forall k ensures Tracks(w', k, c) {
      assert Tracks(w, k, c);
      if k in w'.limiter.store { CountSnoc(w.log, e, k, w'.limiter.store[k].resetAt - c.windowMs); }
    }
    forall k, start ensures CountStarted(w'.log, k, start) <= PerWindow(c) {
      CountSnoc(w.log, e, k, start);
    }
  }

  lemma CountUpKeepsLog(w: World, key: string, c: Limits)
    requires Inv(w, c) && Timely(w) && c.windowMs > 0
    requires key in w.limiter.store && w.clock < w.limiter.store[key].resetAt
    ensures var log := CountUp(w, key, c).log;
      && (forall e | e in log :: WellTimed(e, c) && Opened(log, e.key, e.start))
      && (forall e, f | e in log && f in log :: Apart(e, f, c))
  {
    var log := CountUp(w, key, c).log;
    var e := log[|w.log|];
    assert Tracks(w, key, c);
    var opening := StartedEntry(w.log, key, e.start);
    assert WellTimed(opening, c) && Opened(w.log, key, e.start);
    forall f | f in log ensures WellTimed(f, c) && Opened(log, f.key, f.start) {
      assert f == e || (f in w.log && Opened(w.log, f.key, f.start));
    }
    forall f, g | f in log && g in log ensures Apart(f, g, c) {
      assert Apart(if f == e then opening else f, if g == e then opening else g, c);
    }
  }

  lemma CountUpKeeps(w: World, key: string, c: Limits)
    requires Inv(w, c) && Timely(w) && c.windowMs > 0
    requires key in w.limiter.store && w.clock < w.limiter.store[key].resetAt && w.limiter.store[key].count < c.limit
    ensures Inv(CountUp(w, key, c), c)
  {
    CountUpTracks(w, key, c);
    CountUpKeepsLog(w, key, c);
    var store, store' := w.limiter.store, CountUp(w, key, c).limiter.store;
    assert store'.Keys == store.Keys && |store'| == |store'.Keys| && |store| == |store.Keys|;
  }

  lemma {:induction false} StartedEntry(log: seq<Entry>, key: string, start: int) returns (e: Entry)
    requires CountStarted(log, key, start) >= 1
    ensures e in log && e.key == key && e.start == start
  {
    var last := log[|log| - 1];
    if last.key == key && last.start == start { e := last; }
    else { e := StartedEntry(log[..|log| - 1], key, start); }
  }

  ghost predicate Timely(w: World) { forall e | e in w.log :: e.time <= w.clock }

  function OpenWindow(w: World, key: string, c: Limits): World {
    World(w.limiter.(store := w.limiter.store[key := Window(1, w.clock + c.windowMs)]), w.clock,
      w.log + [Entry(key, w.clock, w.clock)])
  }

  function Advance(w: World, r: Request): int { if r.time < w.clock then w.clock else r.time }

  function Swept(w: World, now: int, c: Limits): World {
    World(Sweep(w.limiter, now, c.windowMs), now, w.log)
  }

  lemma StepCases(w: World, r: Request, c: Limits)
    ensures var swept := Swept(w, Advance(w, r), c);
      var store := swept.limiter.store;
      Step(w, r, c) ==
        if r.key !in store || swept.clock >= store[r.key].resetAt then
          if r.key !in store && |store| >= c.maxEntries then swept else OpenWindow(swept, r.key, c)
        else if store[r.key].count >= c.limit then swept
        else CountUp(swept, r.key, c)
  {
  }

  lemma StepKeepsInv(w: World, r: Request, c: Limits)
    requires Inv(w, c) && Timely(w) && c.windowMs > 0
    ensures Inv(Step(w, r, c), c) && Timely(Step(w, r, c))
  {
    var swept := Swept(w, Advance(w, r), c);
    SweepKeeps(w, Advance(w, r), c);
    StepCases(w, r, c);
    var store := swept.limiter.store;
    if r.key !in store || swept.clock >= store[r.key].resetAt {
      if r.key in store || |store| < c.maxEntries { OpenWindowKeeps(swept, r.key, c); }
    } else if store[r.key].count < c.limit {
      CountUpKeeps(swept, r.key, c);
    }
  }

  lemma {:induction false} RunKeepsInv(w: World, requests: seq<Request>, c: Limits)
    requires Inv(w, c) && Timely(w) && c.windowMs > 0
    ensures Inv(Run(w, requests, c), c) && Timely(Run(w, requests, c))
    decreases |requests|
  {
    if requests != [] {
      StepKeepsInv(w, requests[0], c);
      RunKeepsInv(Step(w, requests[0], c), requests[1..], c);
    }
  }

  lemma FreshIsSound(c: Limits)
    ensures Inv(FRESH, c) && Timely(FRESH)
  {
  }

  // ---------------------------------------------------------------- the sliding bound

  /** Index of the first admission inside the interval. */
  lemma {:induction false} FirstInside(log: seq<Entry>, key: string, from: int, windowMs: int) returns (i: nat)
    requires CountInside(log, key, from, windowMs) > 0
    ensures i < |log| && Inside(log[i], key, from, windowMs)
    ensures forall j | 0 <= j < |log| && Inside(log[j], key, from, windowMs) :: log[i].start <= log[j].start
  {
    var n := |log| - 1;
    if CountInside(log[..n], key, from, windowMs) == 0 {
      i := n;
      NoneInside(log[..n], key, from, windowMs);
      assert forall j | 0 <= j < n :: log[..n][j] == log[j];
    } else {
      i := FirstInside(log[..n], key, from, windowMs);
      if Inside(log[n], key, from, windowMs) && log[n].start < log[i].start { i := n; }
      forall j | 0 <= j < |log| && Inside(log[j], key, from, windowMs) ensures log[i].start <= log[j].start {
        assert j < n ==> log[..n][j] == log[j];
      }
    }
  }

  lemma {:induction false} NoneInside(log: seq<Entry>, key: string, from: int, windowMs: int)
    requires CountInside(log, key, from, windowMs) == 0
    ensures forall j | 0 <= j < |log| :: !Inside(log[j], key, from, windowMs)
  {
    if log != [] {
      NoneInside(log[..|log| - 1], key, from, windowMs);
      forall j | 0 <= j < |log| ensures !Inside(log[j], key, from, windowMs) {
        assert j < |log| - 1 ==> log[..|log| - 1][j] == log[j];
      }
    }
  }

  /** Admissions inside the interval that belong to windows x and y only. */
  lemma {:induction false} InsideIsStarted(log: seq<Entry>, key: string, from: int, windowMs: int, x: int, y: int)
    requires forall e | e in log && Inside(e, key, from, windowMs) :: e.start == x || e.start == y
    ensures x != y ==> CountInside(log, key, from, windowMs) <= CountStarted(log, key, x) + CountStarted(log, key, y)
    ensures x == y ==> CountInside(log, key, from, windowMs) <= CountStarted(log, key, x)
    ensures x != y && x < from && Entry(key, x, x) in log ==>
      CountInside(log, key, from, windowMs) <= CountStarted(log, key, x) - 1 + CountStarted(log, key, y)
  {
    if log != [] {
      var n := |log| - 1;
      assert forall e | e in log[..n] :: e in log;
      assert forall e | e in log :: e in log[..n] || e == log[n];
      InsideIsStarted(log[..n], key, from, windowMs, x, y);
    }
  }

  /** In any half-open interval of one window's length at most 2 * limit - 1 requests of a key are
      admitted, for a limit of at least one; a limit below one still admits one per window. */
  lemma SlidingBound(requests: seq<Request>, c: Limits, key: string, from: int)
    requires c.windowMs > 0
    ensures CountInside(Run(FRESH, requests, c).log, key, from, c.windowMs) <= 2 * PerWindow(c) - 1
  {
    FreshIsSound(c);
    RunKeepsInv(FRESH, requests, c);
    BoundFromInv(Run(FRESH, requests, c), c, key, from);
  }

  lemma BoundFromInv(w: World, c: Limits, key: string, from: int)
    requires Inv(w, c) && c.windowMs > 0
    ensures CountInside(w.log, key, from, c.windowMs) <= 2 * PerWindow(c) - 1
  {
    var log := w.log;
    if CountInside(log, key, from, c.windowMs) > 0 {
      var i := FirstInside(log, key, from, c.windowMs);
      var x := log[i].start;
      if forall e | e in log && Inside(e, key, from, c.windowMs) :: e.start == x {
        InsideIsStarted(log, key, from, c.windowMs, x, x);
      } else {
        var f :| f in log && Inside(f, key, from, c.windowMs) && f.start != x;
        var y := f.start;
        assert WellTimed(log[i], c) && WellTimed(f, c) && Apart(log[i], f, c);
        forall e | e in log && Inside(e, key, from, c.windowMs) ensures e.start == x || e.start == y {
          assert WellTimed(e, c) && Apart(log[i], e, c) && Apart(e, f, c) && Apart(f, e, c);
          var j :| 0 <= j < |log| && log[j] == e;
        }
        assert Opened(log, key, x);
        InsideIsStarted(log, key, from, c.windowMs, x, y);
      }
    }
  }

  /** The store never outgrows its bound. */
  lemma StoreIsBounded(requests: seq<Request>, c: Limits)
    requires c.windowMs > 0
    ensures |Run(FRESH, requests, c).limiter.store| <= c.maxEntries
  {
    FreshIsSound(c);
    RunKeepsInv(FRESH, requests, c);
  }

  // ---------------------------------------------------------------- against an unswept limiter

  /** The plain fixed-window limiter: it never sweeps and has room for every key. */
  function ConsumeUnswept(store: map<string, Window>, key: string, now: int, c: Limits): (map<string, Window>, Decision) {
    if key !in store || now >= store[key].resetAt then (store[key := Window(1, now + c.windowMs)], Admitted)
    else if store[key].count >= c.limit then (store, OverLimit)
    else (store[key := store[key].(count := store[key].count + 1)], Admitted)
  }

  function Decisions(s: Limiter, clock: int, requests: seq<Request>, c: Limits): seq<Decision>
    decreases |requests|
  {
    if requests == [] then []
    else
      var now := if requests[0].time < clock then clock else requests[0].time;
      var (s', d) := Consume(s, requests[0].key, now, c);
      [d] + Decisions(s', now, requests[1..], c)
  }

  function DecisionsUnswept(store: map<string, Window>, clock: int, requests: seq<Request>, c: Limits): seq<Decision>
    decreases |requests|
  {
    if requests == [] then []
    else
      var now := if requests[0].time < clock then clock else requests[0].time;
      var (store', d) := ConsumeUnswept(store, requests[0].key, now, c);
      [d] + DecisionsUnswept(store', now, requests[1..], c)
  }

  /** Sweeping only drops windows that are over. */
  ghost predicate Agrees(s: Limiter, store: map<string, Window>, clock: int) {
    && (forall k | k in s.store :: k in store && store[k] == s.store[k])
    && (forall k | k in store && k !in s.store :: store[k].resetAt <= clock)
  }

  lemma ConsumeAgrees(s: Limiter, store: map<string, Window>, clock: int, key: string, now: int, c: Limits)
    requires Agrees(s, store, clock) && clock <= now
    ensures var (s', d) := Consume(s, key, now, c);
      d != AtCapacity ==> d == ConsumeUnswept(store, key, now, c).1 && Agrees(s', ConsumeUnswept(store, key, now, c).0, now)
  {
    var swept := Sweep(s, now, c.windowMs);
    assert Agrees(swept, store, now);
  }

  /** As long as capacity turns nobody away, sweeping changes no decision. */
  lemma {:induction false} SweepingIsInvisible(s: Limiter, store: map<string, Window>, clock: int,
                                               requests: seq<Request>, c: Limits)
    requires Agrees(s, store, clock)
    requires AtCapacity !in Decisions(s, clock, requests, c)
    ensures Decisions(s, clock, requests, c) == DecisionsUnswept(store, clock, requests, c)
    decreases |requests|
  {
    if requests != [] {
      var now := if requests[0].time < clock then clock else requests[0].time;
      var (s', d) := Consume(s, requests[0].key, now, c);
      var rest := Decisions(s', now, requests[1..], c);
      var all := Decisions(s, clock, requests, c);
      assert all == [d] + rest && all[0] == d;
      assert forall x | x in rest :: x in all;
      ConsumeAgrees(s, store, clock, requests[0].key, now, c);
      SweepingIsInvisible(s', ConsumeUnswept(store, requests[0].key, now, c).0, now, requests[1..], c);
    }
  }

  /** Keys that fit into the store can never fill it: a bound known before the requests are made. */
  lemma {:induction false} FewKeysAreNeverRefused(s: Limiter, clock: int, requests: seq<Request>, c: Limits, keys: set<string>)
    requires s.store.Keys <= keys && |keys| <= c.maxEntries
    requires forall i | 0 <= i < |requests| :: requests[i].key in keys
    ensures AtCapacity !in Decisions(s, clock, requests, c)
    decreases |requests|
  {
    if requests != [] {
      var now := if requests[0].time < clock then clock else requests[0].time;
      var (s', d) := Consume(s, requests[0].key, now, c);
      RoomForKey(s, requests[0].key, now, c, keys);
      FewKeysAreNeverRefused(s', now, requests[1..], c, keys);
    }
  }

  lemma RoomForKey(s: Limiter, key: string, now: int, c: Limits, keys: set<string>)
    requires s.store.Keys <= keys && |keys| <= c.maxEntries && key in keys
    ensures var (s', d) := Consume(s, key, now, c); d != AtCapacity && s'.store.Keys <= keys
  {
    var swept := Sweep(s, now, c.windowMs).store;
    assert swept.Keys <= s.store.Keys;
    if key !in swept {
      SmallerSet(swept.Keys, keys);
      assert |swept| == |swept.Keys|;
    }
  }

  /** Sweeping changes no decision for requests that come from at most maxEntries keys. */
  lemma SweepingIsInvisibleToFewKeys(requests: seq<Request>, c: Limits, keys: set<string>)
    requires |keys| <= c.maxEntries && forall i | 0 <= i < |requests| :: requests[i].key in keys
    ensures Decisions(FRESH.limiter, 0, requests, c) == DecisionsUnswept(map[], 0, requests, c)
  {
    FewKeysAreNeverRefused(FRESH.limiter, 0, requests, c, keys);
    SweepingIsInvisible(FRESH.limiter, map[], 0, requests, c);
  }

  /** A limit of zero, or below, admits what a limit of one does: the request that opens a window. */
  lemma LimitBelowOneAdmitsOne(key: string, c: Limits)
    requires c.limit <= 1 && c.windowMs > 0 && c.maxEntries > 0
    ensures Decisions(FRESH.limiter, 0, [Request(key, 0), Request(key, 0)], c) == [Admitted, OverLimit]
  {
    var r := Request(key, 0);
    var opened_ := Limiter(map[key := Window(1, c.windowMs)], c.windowMs);
    assert Consume(FRESH.limiter, key, 0, c) == (opened_, Admitted);
    assert Consume(opened_, key, 0, c) == (opened_, OverLimit);
    assert [r, r][1..] == [r] && [r][1..] == [];
    assert Decisions(opened_, 0, [], c) == [];
    assert Decisions(opened_, 0, [r], c) == [OverLimit];
  }

  // ---------------------------------------------------------------- the bound is reached

  function Repeat(r: Request, n: nat): seq<Request> {
    if n == 0 then [] else [r] + Repeat(r, n - 1)
  }

  lemma {:induction false} RunConcat(w: World, a: seq<Request>, b: seq<Request>, c: Limits)
    ensures Run(w, a + b, c) == Run(Run(w, a, c), b, c)
    decreases |a|
  {
    if a == [] {
      assert a + b == b;
    } else {
      assert (a + b)[1..] == a[1..] + b && (a + b)[0] == a[0];
      RunConcat(Step(w, a[0], c), a[1..], b, c);
    }
  }

  lemma InsideSnoc(log: seq<Entry>, e: Entry, key: string, from: int, windowMs: int)
    ensures CountInside(log + [e], key, from, windowMs)
         == CountInside(log, key, from, windowMs) + if Inside(e, key, from, windowMs) then 1 else 0
  {
    assert (log + [e])[..|log|] == log;
  }

  /** An open window with this much used, in a store that is not due to be swept. */
  ghost predicate InWindow(w: World, key: string, time: int, used: int, c: Limits) {
    && key in w.limiter.store && w.limiter.store[key].count == used
    && w.clock <= time < w.limiter.store[key].resetAt && time < w.limiter.nextSweepAt
  }

  /** Requests within the limit, all at one time inside the interval, are all admitted. */
  lemma {:induction false} Burst(w: World, key: string, time: int, used: int, n: nat, from: int, c: Limits)
    requires InWindow(w, key, time, used, c) && used + n <= c.limit && from <= time < from + c.windowMs
    ensures var w' := Run(w, Repeat(Request(key, time), n), c);
      && InWindow(w', key, time, used + n, c)
      && w'.limiter.nextSweepAt == w.limiter.nextSweepAt && w'.limiter.store.Keys == w.limiter.store.Keys
      && w'.limiter.store[key].resetAt == w.limiter.store[key].resetAt
      && CountInside(w'.log, key, from, c.windowMs) == CountInside(w.log, key, from, c.windowMs) + n
    decreases n
  {
    if n > 0 {
      var r := Request(key, time);
      StepCases(w, r, c);
      var next := Step(w, r, c);
      assert next == CountUp(World(w.limiter, time, w.log), key, c);
      InsideSnoc(w.log, Entry(key, time, w.limiter.store[key].resetAt - c.windowMs), key, from, c.windowMs);
      Burst(next, key, time, used + 1, n - 1, from, c);
      assert Repeat(r, n)[1..] == Repeat(r, n - 1);
    }
  }

  lemma BurstAfter(w0: World, a: seq<Request>, w: World, key: string, time: int, used: int, n: nat, from: int, c: Limits)
    requires w == Run(w0, a, c)
    requires InWindow(w, key, time, used, c) && used + n <= c.limit && from <= time < from + c.windowMs
    ensures var w' := Run(w0, a + Repeat(Request(key, time), n), c);
      && InWindow(w', key, time, used + n, c)
      && w'.limiter.nextSweepAt == w.limiter.nextSweepAt && w'.limiter.store.Keys == w.limiter.store.Keys
      && w'.limiter.store[key].resetAt == w.limiter.store[key].resetAt
      && CountInside(w'.log, key, from, c.windowMs) == CountInside(w.log, key, from, c.windowMs) + n
  {
    Burst(w, key, time, used, n, from, c);
    RunConcat(w0, a, Repeat(Request(key, time), n), c);
  }

  lemma RunOne(w: World, r: Request, c: Limits)
    ensures Run(w, [r], c) == Step(w, r, c)
  {
    assert [r][1..] == [];
  }

  lemma FirstRequest(key: string, c: Limits)
    requires c.windowMs >= 2 && c.maxEntries >= 1
    ensures var w := Run(FRESH, [Request(key, 0)], c);
      && InWindow(w, key, c.windowMs - 1, 1, c)
      && w.limiter.nextSweepAt == c.windowMs && w.limiter.store.Keys == {key}
      && w.limiter.store[key].resetAt == c.windowMs && CountInside(w.log, key, 1, c.windowMs) == 0
  {
    var r := Request(key, 0);
    StepCases(FRESH, r, c);
    var w := OpenWindow(Swept(FRESH, 0, c), key, c);
    RunOne(FRESH, r, c);
    InsideSnoc([], Entry(key, 0, 0), key, 1, c.windowMs);
    assert w.log == [] + [Entry(key, 0, 0)];
  }

  /** The opening request at the very start, the rest of its window at its end. */
  lemma FirstWindowFills(key: string, c: Limits)
    requires c.limit >= 1 && c.windowMs >= 2 && c.maxEntries >= 1
    ensures var w := Run(FRESH, [Request(key, 0)] + Repeat(Request(key, c.windowMs - 1), c.limit - 1), c);
      && w.limiter.nextSweepAt == c.windowMs && w.clock < c.windowMs
      && w.limiter.store.Keys == {key} && w.limiter.store[key].resetAt == c.windowMs
      && CountInside(w.log, key, 1, c.windowMs) == c.limit - 1
  {
    FirstRequest(key, c);
    BurstAfter(FRESH, [Request(key, 0)], Run(FRESH, [Request(key, 0)], c), key, c.windowMs - 1, 1, c.limit - 1, 1, c);
  }

  lemma NextWindowOpens(w: World, key: string, c: Limits)
    requires c.windowMs >= 2 && c.maxEntries >= 1
    requires w.limiter.nextSweepAt == c.windowMs && w.clock < c.windowMs
    requires w.limiter.store.Keys == {key} && w.limiter.store[key].resetAt == c.windowMs
    ensures var w' := Run(w, [Request(key, c.windowMs)], c);
      && InWindow(w', key, c.windowMs, 1, c)
      && CountInside(w'.log, key, 1, c.windowMs) == CountInside(w.log, key, 1, c.windowMs) + 1
  {
    RunOne(w, Request(key, c.windowMs), c);
    InsideSnoc(w.log, Entry(key, c.windowMs, c.windowMs), key, 1, c.windowMs);
    StepCases(w, Request(key, c.windowMs), c);
    assert key !in Swept(w, c.windowMs, c).limiter.store;
    assert Swept(w, c.windowMs, c).limiter.store.Keys == {};
  }

  lemma RestOfWindow(w: World, a: seq<Request>, key: string, c: Limits)
    requires c.limit >= 1 && c.windowMs >= 2 && InWindow(Run(w, a, c), key, c.windowMs, 1, c)
    ensures CountInside(Run(w, a + Repeat(Request(key, c.windowMs), c.limit - 1), c).log, key, 1, c.windowMs)
         == CountInside(Run(w, a, c).log, key, 1, c.windowMs) + c.limit - 1
  {
    BurstAfter(w, a, Run(w, a, c), key, c.windowMs, 1, c.limit - 1, 1, c);
  }

  /** A whole window's worth of requests at the moment the next window begins. */
  lemma SecondWindowFills(w: World, key: string, c: Limits)
    requires c.limit >= 1 && c.windowMs >= 2 && c.maxEntries >= 1
    requires w.limiter.nextSweepAt == c.windowMs && w.clock < c.windowMs
    requires w.limiter.store.Keys == {key} && w.limiter.store[key].resetAt == c.windowMs
    ensures var r := Request(key, c.windowMs);
      CountInside(Run(w, [r] + Repeat(r, c.limit - 1), c).log, key, 1, c.windowMs) == CountInside(w.log, key, 1, c.windowMs) + c.limit
  {
    NextWindowOpens(w, key, c);
    RestOfWindow(w, [Request(key, c.windowMs)], key, c);
  }

  /** For every limit and window the sliding bound is attained: the end of one window and all of
      the next. */
  lemma BoundIsReached(key: string, c: Limits) returns (requests: seq<Request>)
    requires c.limit >= 1 && c.windowMs >= 2 && c.maxEntries >= 1
    ensures CountInside(Run(FRESH, requests, c).log, key, 1, c.windowMs) == 2 * PerWindow(c) - 1
  {
    var first := [Request(key, 0)] + Repeat(Request(key, c.windowMs - 1), c.limit - 1);
    var second := [Request(key, c.windowMs)] + Repeat(Request(key, c.windowMs), c.limit - 1);
    FirstWindowFills(key, c);
    SecondWindowFills(Run(FRESH, first, c), key, c);
    RunConcat(FRESH, first, second, c);
    requests := first + second;
  }

  // ---------------------------------------------------------------- the guard

  class RateLimitGuard {
    var store: map<string, Window>
    var nextSweepAt: int
    const windowMs: int
    const maxEntries: nat

    function State(): Limiter
      reads this
    {
      Limiter(store, nextSweepAt)
    }

    constructor (windowMs: int, maxEntries: nat)
      ensures State() == FRESH.limiter && this.windowMs == windowMs && this.maxEntries == maxEntries
    {
      this.windowMs, this.maxEntries := windowMs, maxEntries;
      store, nextSweepAt := map[], 0;
    }

    method SweepExpired(now: int)
      modifies this
      ensures State() == Sweep(old(State()), now, windowMs)
    {
      if now < nextSweepAt { return; }
      var keys := store.Keys;
      while keys != {}
        invariant keys <= old(store).Keys && nextSweepAt == old(nextSweepAt)
        invariant forall k | k in old(store) ::
          if k in keys || now < old(store)[k].resetAt then k in store && store[k] == old(store)[k] else k !in store
        invariant store.Keys <= old(store).Keys
        decreases keys
      {
        var key :| key in keys;
        keys := keys - {key};
        if now >= store[key].resetAt { store := store - {key}; }
      }
      nextSweepAt := now + windowMs;
    }

    method ConsumeOne(key: string, limit: int, now: int) returns (decision: Decision)
      modifies this
      ensures (State(), decision) == Consume(old(State()), key, now, Limits(windowMs, limit, maxEntries))
    {
      SweepExpired(now);
      if key !in store || now >= store[key].resetAt {
        if key !in store && |store| >= maxEntries { return AtCapacity; }
        store := store[key := Window(1, now + windowMs)];
        return Admitted;
      }
      if store[key].count >= limit { return OverLimit; }
      store := store[key := store[key].(count := store[key].count + 1)];
      return Admitted;
    }
  }
}
