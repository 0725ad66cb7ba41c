/** When the ordered advisory locks exclude deadlock.

    A transaction takes the locks of its plan in order and keeps them until it ends.  The order is
    on keys; what is locked is a hash of the key, so keys that collide share a lock. */
module IdentityDeadlock {
  import opened Options
  import opened Identity
  import opened IdentityLocks

  datatype Txn = Txn(plan: seq<Key>, held: nat, ended: bool)

  type LockTable = map<nat, Txn>

  ghost predicate Running(s: LockTable, x: nat) {
    x in s && !s[x].ended
  }

  ghost predicate Waiting(s: LockTable, x: nat) {
    Running(s, x) && s[x].held < |s[x].plan|
  }

  ghost function Next(s: LockTable, x: nat): Key
    requires Waiting(s, x)
  {
    s[x].plan[s[x].held]
  }

  ghost predicate HoldsHash(s: LockTable, hash: Key -> int, x: nat, h: int) {
    && Running(s, x) && s[x].held <= |s[x].plan|
    && exists i :: 0 <= i < s[x].held && hash(s[x].plan[i]) == h
  }

  /** Plans are ascending, and no two running transactions hold one lock. */
  ghost predicate ValidTable(s: LockTable, hash: Key -> int) {
    && (forall x | x in s :: s[x].held <= |s[x].plan| && Ascending(s[x].plan))
    && (forall x, y, h | HoldsHash(s, hash, x, h) && HoldsHash(s, hash, y, h) :: x == y)
  }

  /** A running transaction can end, or take its next lock unless someone else holds it. */
  ghost predicate CanStep(s: LockTable, hash: Key -> int, x: nat) {
    && Running(s, x)
    && (Waiting(s, x) ==> forall y | HoldsHash(s, hash, y, hash(Next(s, x))) :: y == x)
  }

  ghost function Step(s: LockTable, hash: Key -> int, x: nat): LockTable
    requires CanStep(s, hash, x)
  {
    if Waiting(s, x) then s[x := s[x].(held := s[x].held + 1)] else s[x := s[x].(ended := true)]
  }

  ghost predicate Deadlocked(s: LockTable, hash: Key -> int) {
    (exists x :: Running(s, x)) && forall x :: !CanStep(s, hash, x)
  }

  lemma StepKeepsValid(s: LockTable, hash: Key -> int, x: nat)
    requires ValidTable(s, hash) && CanStep(s, hash, x)
    ensures ValidTable(Step(s, hash, x), hash)
  {
    var s' := Step(s, hash, x);
    forall y, h | HoldsHash(s', hash, y, h)
      ensures HoldsHash(s, hash, y, h) || (y == x && Waiting(s, x) && h == hash(Next(s, x)))
    {
      var i :| 0 <= i < s'[y].held && hash(s'[y].plan[i]) == h;
      if y != x || i < s[x].held { assert hash(s[y].plan[i]) == h; }
    }
  }

  // ---------------------------------------------------------------- schedules

  /** The transactions of the schedule can take their steps one after the other. */
  ghost predicate CanRun(s: LockTable, hash: Key -> int, schedule: seq<nat>)
    decreases |schedule|, 0
  {
    schedule == []
    || (var n := |schedule| - 1;
        CanRun(s, hash, schedule[..n]) && CanStep(RunSteps(s, hash, schedule[..n]), hash, schedule[n]))
  }

  ghost function RunSteps(s: LockTable, hash: Key -> int, schedule: seq<nat>): LockTable
    requires CanRun(s, hash, schedule)
    decreases |schedule|, 1
  {
    if schedule == [] then s
    else
      var n := |schedule| - 1;
      Step(RunSteps(s, hash, schedule[..n]), hash, schedule[n])
  }

  lemma RunSnoc(s: LockTable, hash: Key -> int, schedule: seq<nat>, x: nat)
    requires CanRun(s, hash, schedule) && CanStep(RunSteps(s, hash, schedule), hash, x)
    ensures CanRun(s, hash, schedule + [x])
    ensures RunSteps(s, hash, schedule + [x]) == Step(RunSteps(s, hash, schedule), hash, x)
  {
    assert (schedule + [x])[..|schedule|] == schedule;
  }

  // ---------------------------------------------------------------- no deadlock without crossing

  /** A key some transaction can hold while it waits for another. */
  ghost predicate Inner(s: LockTable, k: Key) {
    exists x, i :: x in s && 0 <= i < |s[x].plan| - 1 && s[x].plan[i] == k
  }

  ghost predicate InPlay(s: LockTable, k: Key) {
    exists x, i :: x in s && 0 <= i < |s[x].plan| && s[x].plan[i] == k
  }

  /** No key that can be held stands between two keys of one other lock, the first of which can be held. */
  ghost predicate Uncrossed(s: LockTable, hash: Key -> int) {
    forall a, c, b | Inner(s, a) && Inner(s, c) && InPlay(s, b) && Before(a, c) && Before(c, b) && hash(a) == hash(b) ::
      hash(c) == hash(a)
  }

  ghost predicate Holder(s: LockTable, x: nat) {
    Waiting(s, x) && s[x].held > 0
  }

  ghost function Last(s: LockTable, x: nat): Key
    requires Holder(s, x)
  {
    s[x].plan[s[x].held - 1]
  }

  lemma {:induction false} LatestHolder(s: LockTable, holders: set<nat>) returns (x: nat)
    requires holders != {} && forall h | h in holders :: Holder(s, h)
    ensures x in holders && forall h | h in holders :: !Before(Last(s, x), Last(s, h))
    decreases |holders|
  {
    var first :| first in holders;
    var rest := holders - {first};
    OrderIsTotal(Last(s, first), Last(s, first));
    if rest == {} {
      x := first;
      assert holders == {first};
    } else {
      var y := LatestHolder(s, rest);
      x := if Before(Last(s, y), Last(s, first)) then first else y;
      forall h | h in holders ensures !Before(Last(s, x), Last(s, h)) {
        assert h == first || h in rest;
        if x == first && h in rest && Before(Last(s, first), Last(s, h)) {
          OrderIsTransitive(Last(s, y), Last(s, first), Last(s, h));
        }
      }
    }
  }

  /** In a deadlock every running transaction waits for a lock that another waiting one holds. */
  lemma BlockedBy(s: LockTable, hash: Key -> int, x: nat) returns (y: nat, i: nat)
    requires ValidTable(s, hash) && Deadlocked(s, hash) && Running(s, x)
    ensures Waiting(s, x) && Holder(s, y) && y != x
    ensures i < s[y].held && hash(s[y].plan[i]) == hash(Next(s, x))
  {
    assert !CanStep(s, hash, x);
    y :| HoldsHash(s, hash, y, hash(Next(s, x))) && y != x;
    i :| 0 <= i < s[y].held && hash(s[y].plan[i]) == hash(Next(s, x));
    assert !CanStep(s, hash, y);
  }

  /** Waiting for a lock leads to a transaction whose latest lock is later in the order. */
  lemma WaitsForLater(s: LockTable, hash: Key -> int, y: nat, z: nat, i: nat)
    requires ValidTable(s, hash) && Uncrossed(s, hash)
    requires Holder(s, y) && Holder(s, z) && y != z
    requires i < s[z].held && hash(s[z].plan[i]) == hash(Next(s, y))
    ensures Before(Last(s, y), Last(s, z))
  {
    var a, c, b := s[z].plan[i], Last(s, y), Next(s, y);
    assert HoldsHash(s, hash, z, hash(a));
    assert HoldsHash(s, hash, y, hash(c)) by { assert hash(s[y].plan[s[y].held - 1]) == hash(c); }
    assert Inner(s, a) && Inner(s, c) && InPlay(s, b) && Before(c, b);
    OrderIsTotal(a, c);
    if a != Last(s, z) { OrderIsTransitive(c, a, Last(s, z)); }
  }

  /** Whatever the plans are: without a crossing among the keys in them there is no deadlock. */
  lemma UncrossedNeverDeadlocks(s: LockTable, hash: Key -> int)
    requires ValidTable(s, hash) && Uncrossed(s, hash)
    ensures !Deadlocked(s, hash)
  {
    if Deadlocked(s, hash) {
      var r :| Running(s, r);
      var first, _ := BlockedBy(s, hash, r);
      var holders := set x | x in s && Holder(s, x);
      assert first in holders;
      var y := LatestHolder(s, holders);
      var z, i := BlockedBy(s, hash, y);
      assert z in holders;
      WaitsForLater(s, hash, y, z, i);
      assert false;
    }
  }

  // ---------------------------------------------------------------- the plans of the handlers

  /** The plan of some handler, with all its keys among these. */
  ghost predicate HandlerPlan(plan: seq<Key>, keys: set<Key>) {
    (exists e: Event :: plan == LockPlan(LockKeys(e))) && forall k | k in plan :: k in keys
  }

  ghost predicate HandlerTable(s: LockTable, keys: set<Key>) {
    forall x | x in s :: HandlerPlan(s[x].plan, keys)
  }

  /** A handler that takes more than one lock takes an organization first, a user, and its one
      membership last. */
  lemma PlanShape(plan: seq<Key>, keys: set<Key>)
    requires HandlerPlan(plan, keys) && |plan| > 1
    ensures Ascending(plan) && plan[0].kind == OrgLock
    ensures |plan| >= 3 && plan[|plan| - 1].kind == MembershipLock && exists i :: 0 < i < |plan| - 1 && plan[i].kind == UserLock
    ensures forall i | 0 <= i < |plan| - 1 :: plan[i].kind != MembershipLock
    ensures exists o, u, m :: Key(OrgLock, o) in keys && Key(UserLock, u) in keys && Key(MembershipLock, m) in keys
  {
    var e: Event :| plan == LockPlan(LockKeys(e));
    if !e.MembershipDelivered? {
      SingleKey(plan, LockKeys(e));
    }
    MembershipPlanShape(plan, e);
    assert Key(OrgLock, e.data.orgId) in keys && Key(UserLock, e.data.userId) in keys && Key(MembershipLock, e.data.id) in keys;
    OrgThenUserThenMembership(plan, Key(UserLock, e.data.userId), Key(MembershipLock, e.data.id));
  }

  lemma OrgThenUserThenMembership(plan: seq<Key>, u: Key, m: Key)
    requires |plan| > 0 && plan[0].kind == OrgLock && u in plan && m in plan
    requires u.kind == UserLock && m.kind == MembershipLock
    requires forall i | 0 <= i < |plan| - 1 :: plan[i].kind != MembershipLock
    ensures |plan| >= 3 && plan[|plan| - 1].kind == MembershipLock && exists i :: 0 < i < |plan| - 1 && plan[i].kind == UserLock
  {
    var i :| 0 <= i < |plan| && plan[i] == m;
    var j :| 0 <= j < |plan| && plan[j] == u;
    assert i == |plan| - 1 && 0 < j < |plan| - 1;
  }

  lemma SingleKey(plan: seq<Key>, named: seq<Key>)
    requires |named| <= 1 && plan == LockPlan(named)
    ensures |plan| <= 1
  {
    if named != [] { assert named[1..] == []; }
  }

  lemma MembershipPlanShape(plan: seq<Key>, e: Event)
    requires e.MembershipDelivered? && plan == LockPlan(LockKeys(e))
    ensures |plan| > 0 && plan[0].kind == OrgLock
    ensures forall i | 0 <= i < |plan| - 1 :: plan[i].kind != MembershipLock
    ensures Key(OrgLock, e.data.orgId) in plan && Key(UserLock, e.data.userId) in plan && Key(MembershipLock, e.data.id) in plan
  {
    DeliveryKeys(e);
    AscendingShape(plan, Key(OrgLock, e.data.orgId), Key(MembershipLock, e.data.id));
  }

  lemma DeliveryKeys(e: Event)
    requires e.MembershipDelivered?
    ensures var keys := LockKeys(e);
      && Key(OrgLock, e.data.orgId) in keys && Key(UserLock, e.data.userId) in keys && Key(MembershipLock, e.data.id) in keys
      && forall k | k in keys && k.kind == MembershipLock :: k == Key(MembershipLock, e.data.id)
  {
    var keys := LockKeys(e);
    assert keys[0] == Key(OrgLock, e.data.orgId) && keys[1] == Key(UserLock, e.data.userId) && keys[2] == Key(MembershipLock, e.data.id);
  }

  lemma AscendingShape(plan: seq<Key>, org: Key, m: Key)
    requires Ascending(plan) && org in plan && org.kind == OrgLock
    requires forall k | k in plan && k.kind == MembershipLock :: k == m
    ensures |plan| > 0 && plan[0].kind == OrgLock
    ensures forall i | 0 <= i < |plan| - 1 :: plan[i].kind != MembershipLock
  {
    var i :| 0 <= i < |plan| && plan[i] == org;
    if i > 0 { assert Before(plan[0], plan[i]); }
    forall j | 0 <= j < |plan| - 1 ensures plan[j].kind != MembershipLock {
      if plan[j].kind == MembershipLock {
        var last := plan[|plan| - 1];
        assert plan[j] in plan && last in plan && Before(plan[j], last);
        OrderIsTotal(m, m);
      }
    }
  }

  // ---------------------------------------------------------------- when the handlers are safe

  ghost predicate HasKind(keys: set<Key>, kind: LockKind) {
    exists k :: k in keys && k.kind == kind
  }

  /** No handler takes two locks with these keys. */
  ghost predicate OnlySingleLocks(keys: set<Key>) {
    !HasKind(keys, OrgLock) || !HasKind(keys, UserLock) || !HasKind(keys, MembershipLock)
  }

  /** Every delivery starts with the same lock. */
  ghost predicate OrgsShareOneLock(hash: Key -> int, keys: set<Key>) {
    forall o, p | o in keys && p in keys && o.kind == OrgLock && p.kind == OrgLock :: hash(o) == hash(p)
  }

  /** Between two keys of one lock, the first an organization or a user, every organization and
      user has that lock as well. */
  ghost predicate NoCrossing(hash: Key -> int, keys: set<Key>) {
    forall a, c, b | a in keys && c in keys && b in keys && a.kind != MembershipLock && c.kind != MembershipLock
      && Before(a, c) && Before(c, b) && hash(a) == hash(b) :: hash(c) == hash(a)
  }

  ghost predicate HandlersSafe(hash: Key -> int, keys: set<Key>) {
    OnlySingleLocks(keys) || OrgsShareOneLock(hash, keys) || NoCrossing(hash, keys)
  }

  /** Distinct keys in play with distinct hashes are enough. */
  lemma CollisionFreeIsSafe(hash: Key -> int, keys: set<Key>)
    requires forall a, b | a in keys && b in keys && hash(a) == hash(b) :: a == b
    ensures HandlersSafe(hash, keys)
  {
    forall a, c ensures !(Before(a, c) && Before(c, a)) { OrderIsTotal(a, c); }
  }

  /** A collision among membership keys alone is harmless: each is the last lock of its handler. */
  lemma MembershipCollisionsAreSafe(hash: Key -> int, keys: set<Key>)
    requires forall a, b | a in keys && b in keys && hash(a) == hash(b) && a != b ::
               a.kind == MembershipLock && b.kind == MembershipLock
    ensures HandlersSafe(hash, keys)
  {
    forall a, c ensures !(Before(a, c) && Before(c, a)) { OrderIsTotal(a, c); }
  }

  lemma SafeHandlersNeverDeadlock(s: LockTable, hash: Key -> int, keys: set<Key>)
    requires ValidTable(s, hash) && HandlerTable(s, keys) && HandlersSafe(hash, keys)
    ensures !Deadlocked(s, hash)
  {
    if NoCrossing(hash, keys) {
      HandlerTablesAreUncrossed(s, hash, keys);
      UncrossedNeverDeadlocks(s, hash);
    } else if Deadlocked(s, hash) {
      var r :| Running(s, r);
      var y, _ := BlockedBy(s, hash, r);
      var z, _ := BlockedBy(s, hash, y);
      PlanShape(s[y].plan, keys);
      PlanShape(s[z].plan, keys);
      assert HasKind(keys, OrgLock) && HasKind(keys, UserLock) && HasKind(keys, MembershipLock);
      assert s[y].plan[0] in s[y].plan && s[z].plan[0] in s[z].plan;
      assert HoldsHash(s, hash, y, hash(s[y].plan[0]));
      assert HoldsHash(s, hash, z, hash(s[z].plan[0]));
      assert false;
    }
  }

  lemma HandlerTablesAreUncrossed(s: LockTable, hash: Key -> int, keys: set<Key>)
    requires HandlerTable(s, keys) && NoCrossing(hash, keys)
    ensures Uncrossed(s, hash)
  {
    forall k | Inner(s, k) ensures k in keys && k.kind != MembershipLock {
      var x, i :| x in s && 0 <= i < |s[x].plan| - 1 && s[x].plan[i] == k;
      PlanShape(s[x].plan, keys);
      assert k in s[x].plan;
    }
    forall k | InPlay(s, k) ensures k in keys {
      var x, i :| x in s && 0 <= i < |s[x].plan| && s[x].plan[i] == k;
      assert k in s[x].plan;
    }
  }

  // ---------------------------------------------------------------- the plan of a delivery

  function DeliveryOf(o: string, o': string, u: string, u': string, m: string): Event {
    MembershipDelivered(MembershipData(m, u, o, "", Member, 0), Created, "", Some((u', o')), 0)
  }

  function OneOrTwo(k: Key, k': Key): seq<Key> { if k == k' then [k] else [k, k'] }

  /** One or two organizations, one or two users, one membership. */
  function DeliveryPlan(o: Key, o': Key, u: Key, u': Key, m: Key): seq<Key> {
    OneOrTwo(o, o') + OneOrTwo(u, u') + [m]
  }

  ghost predicate Upward(k: Key, k': Key) { k == k' || Before(k, k') }

  lemma {:induction false} AscendingIsUnique(p: seq<Key>, q: seq<Key>)
    requires Ascending(p) && Ascending(q) && forall k :: k in p <==> k in q
    ensures p == q
    decreases |p|
  {
    if p != [] { assert p[0] in p; }
    if q != [] { assert q[0] in q; }
    if p != [] && q != [] {
      HeadIsLeast(p, q);
      HeadIsLeast(q, p);
      OrderIsTotal(p[0], q[0]);
      TailKeys(p, q);
      TailKeys(q, p);
      AscendingIsUnique(p[1..], q[1..]);
      assert p == [p[0]] + p[1..] && q == [q[0]] + q[1..];
    }
  }

  lemma HeadIsLeast(p: seq<Key>, q: seq<Key>)
    requires Ascending(p) && p != [] && q != [] && forall k | k in q :: k in p
    ensures Upward(p[0], q[0])
  {
    assert q[0] in p;
  }

  lemma TailKeys(p: seq<Key>, q: seq<Key>)
    requires Ascending(p) && p != [] && q != [] && p[0] == q[0] && forall k | k in p :: k in q
    ensures forall k | k in p[1..] :: k in q[1..]
  {
    forall k | k in p[1..] ensures k in q[1..] {
      var i :| 0 < i < |p| && p[i] == k;
      OrderIsTotal(p[0], p[i]);
      assert k in q && q == [q[0]] + q[1..];
    }
  }

  lemma DeliveryTakesPlan(o: Key, o': Key, u: Key, u': Key, m: Key, keys: set<Key>)
    requires o.kind == OrgLock && o'.kind == OrgLock && u.kind == UserLock && u'.kind == UserLock && m.kind == MembershipLock
    requires Upward(o, o') && Upward(u, u')
    requires o in keys && o' in keys && u in keys && u' in keys && m in keys
    ensures HandlerPlan(DeliveryPlan(o, o', u, u', m), keys)
    ensures LockPlan(LockKeys(DeliveryOf(o.id, o'.id, u.id, u'.id, m.id))) == DeliveryPlan(o, o', u, u', m)
    ensures Ascending(DeliveryPlan(o, o', u, u', m))
  {
    var e, plan := DeliveryOf(o.id, o'.id, u.id, u'.id, m.id), DeliveryPlan(o, o', u, u', m);
    assert LockKeys(e) == [o, u, m] + [o', u'];
    DeliveryPlanAscends(o, o', u, u', m);
    SamePlan([o, u, m] + [o', u'], plan);
  }

  lemma DeliveryPlanAscends(o: Key, o': Key, u: Key, u': Key, m: Key)
    requires o.kind == OrgLock && o'.kind == OrgLock && u.kind == UserLock && u'.kind == UserLock && m.kind == MembershipLock
    requires Upward(o, o') && Upward(u, u')
    ensures Ascending(DeliveryPlan(o, o', u, u', m))
    ensures forall k :: k in DeliveryPlan(o, o', u, u', m) <==> k in [o, u, m] + [o', u']
  {
  }

  lemma SamePlan(named: seq<Key>, plan: seq<Key>)
    requires Ascending(plan) && forall k :: k in plan <==> k in named
    ensures LockPlan(named) == plan
  {
    AscendingIsUnique(LockPlan(named), plan);
  }

  // ---------------------------------------------------------------- two transactions that cross

  ghost function Pair(p: seq<Key>, n: nat, q: seq<Key>, m: nat): LockTable {
    map[0 := Txn(p, n, false), 1 := Txn(q, m, false)]
  }

  /** Each holds what the other wants, and nothing the other holds. */
  ghost predicate Crossed(hash: Key -> int, p: seq<Key>, n: nat, q: seq<Key>, m: nat) {
    && Ascending(p) && Ascending(q) && 0 < n < |p| && 0 < m < |q|
    && (forall i, j | 0 <= i < n && 0 <= j < m :: hash(p[i]) != hash(q[j]))
    && (exists j :: 0 <= j < m && hash(q[j]) == hash(p[n]))
    && (exists i :: 0 <= i < n && hash(p[i]) == hash(q[m]))
  }

  lemma CrossedDeadlocks(hash: Key -> int, p: seq<Key>, n: nat, q: seq<Key>, m: nat)
    requires Crossed(hash, p, n, q, m)
    ensures Deadlocked(Pair(p, n, q, m), hash)
  {
    var s := Pair(p, n, q, m);
    assert Running(s, 0);
    assert HoldsHash(s, hash, 1, hash(p[n])) && HoldsHash(s, hash, 0, hash(q[m]));
    forall x ensures !CanStep(s, hash, x) {
      if x == 0 { assert Next(s, 0) == p[n]; } else if x == 1 { assert Next(s, 1) == q[m]; }
    }
  }

  /** The crossing is reached from nothing held, one transaction after the other. */
  lemma {:induction false} CrossingIsReached(hash: Key -> int, p: seq<Key>, n: nat, q: seq<Key>, m: nat)
    returns (schedule: seq<nat>)
    requires n < |p| && m < |q|
    requires forall i, j | 0 <= i < n && 0 <= j < m :: hash(p[i]) != hash(q[j])
    ensures CanRun(Pair(p, 0, q, 0), hash, schedule)
    ensures RunSteps(Pair(p, 0, q, 0), hash, schedule) == Pair(p, n, q, m)
    decreases n + m
  {
    if m > 0 {
      schedule := CrossingIsReached(hash, p, n, q, m - 1);
      var s := Pair(p, n, q, m - 1);
      assert CanStep(s, hash, 1) by { assert Next(s, 1) == q[m - 1]; }
      assert Step(s, hash, 1) == Pair(p, n, q, m);
      RunSnoc(Pair(p, 0, q, 0), hash, schedule, 1);
      schedule := schedule + [1];
    } else if n > 0 {
      schedule := CrossingIsReached(hash, p, n - 1, q, 0);
      var s := Pair(p, n - 1, q, 0);
      assert CanStep(s, hash, 0) by { assert Next(s, 0) == p[n - 1]; }
      assert Step(s, hash, 0) == Pair(p, n, q, 0);
      RunSnoc(Pair(p, 0, q, 0), hash, schedule, 0);
      schedule := schedule + [0];
    } else {
      schedule := [];
    }
  }

  // ---------------------------------------------------------------- unsafe keys deadlock

  datatype Crossing = Crossing(p: seq<Key>, n: nat, q: seq<Key>, m: nat)

  ghost predicate HandlersCross(hash: Key -> int, keys: set<Key>, x: Crossing) {
    HandlerPlan(x.p, keys) && HandlerPlan(x.q, keys) && Crossed(hash, x.p, x.n, x.q, x.m)
  }

  /** Two organizations, and anything later that shares the first one's lock. */
  lemma OrganizationsCross(hash: Key -> int, keys: set<Key>, a: Key, c: Key, b: Key, u: Key, m: Key) returns (x: Crossing)
    requires a in keys && c in keys && b in keys && u in keys && m in keys
    requires a.kind == OrgLock && c.kind == OrgLock && u.kind == UserLock && m.kind == MembershipLock
    requires Before(a, c) && Before(c, b) && hash(a) == hash(b) && hash(c) != hash(a)
    ensures HandlersCross(hash, keys, x)
  {
    DeliveryTakesPlan(a, c, u, u, m, keys);
    var p := DeliveryPlan(a, c, u, u, m);
    assert p[0] == a && p[1] == c;
    match b.kind
    case OrgLock =>
      DeliveryTakesPlan(c, b, u, u, m, keys);
      var q := DeliveryPlan(c, b, u, u, m);
      assert q[0] == c && q[1] == b;
      x := Crossing(p, 1, q, 1);
    case UserLock =>
      DeliveryTakesPlan(c, c, b, b, m, keys);
      var q := DeliveryPlan(c, c, b, b, m);
      assert q[0] == c && q[1] == b;
      x := Crossing(p, 1, q, 1);
    case MembershipLock =>
      DeliveryTakesPlan(c, c, u, u, b, keys);
      var q := DeliveryPlan(c, c, u, u, b);
      assert q[0] == c && q[1] == u && q[2] == b;
      x := Crossing(p, 1, q, if hash(u) == hash(a) then 1 else 2);
  }

  /** A user c that comes second, before b, for a delivery in organization o. */
  lemma SecondPlan(keys: set<Key>, o: Key, c: Key, b: Key, m: Key) returns (q: seq<Key>)
    requires o in keys && c in keys && b in keys && m in keys
    requires o.kind == OrgLock && c.kind == UserLock && m.kind == MembershipLock && Before(c, b)
    ensures HandlerPlan(q, keys) && Ascending(q) && |q| > 2 && q[0] == o && q[1] == c && q[2] == b
  {
    OrderIsTotal(c, b);
    if b.kind == UserLock {
      DeliveryTakesPlan(o, o, c, b, m, keys);
      q := DeliveryPlan(o, o, c, b, m);
    } else {
      DeliveryTakesPlan(o, o, c, c, b, keys);
      q := DeliveryPlan(o, o, c, c, b);
    }
  }

  /** An organization and a user, and anything later that shares the organization's lock. */
  lemma OrganizationAndUserCross(hash: Key -> int, keys: set<Key>, a: Key, c: Key, b: Key, o: Key, m: Key) returns (x: Crossing)
    requires a in keys && c in keys && b in keys && o in keys && m in keys
    requires a.kind == OrgLock && c.kind == UserLock && o.kind == OrgLock && m.kind == MembershipLock
    requires Before(c, b) && hash(a) == hash(b) && hash(c) != hash(a) && hash(o) != hash(a)
    ensures HandlersCross(hash, keys, x)
  {
    DeliveryTakesPlan(a, a, c, c, m, keys);
    var p := DeliveryPlan(a, a, c, c, m);
    assert p[0] == a && p[1] == c;
    var q := SecondPlan(keys, o, c, b, m);
    x := Crossing(p, 1, q, 2);
  }

  /** Two users, and anything later that shares the first one's lock. */
  lemma UsersCross(hash: Key -> int, keys: set<Key>, a: Key, c: Key, b: Key, o: Key, o': Key, m: Key) returns (x: Crossing)
    requires a in keys && c in keys && b in keys && o in keys && o' in keys && m in keys
    requires a.kind == UserLock && c.kind == UserLock && o.kind == OrgLock && o'.kind == OrgLock && m.kind == MembershipLock
    requires Before(a, c) && Before(c, b) && hash(a) == hash(b) && hash(c) != hash(a)
    requires hash(o) != hash(o') && hash(o) != hash(c) && hash(o') != hash(a)
    ensures HandlersCross(hash, keys, x)
  {
    DeliveryTakesPlan(o, o, a, c, m, keys);
    var p := DeliveryPlan(o, o, a, c, m);
    assert p[0] == o && p[1] == a && p[2] == c;
    var q := SecondPlan(keys, o', c, b, m);
    x := Crossing(p, 2, q, 2);
  }

  lemma KeyOfKind(keys: set<Key>, kind: LockKind) returns (k: Key)
    requires HasKind(keys, kind)
    ensures k in keys && k.kind == kind
  {
    k :| k in keys && k.kind == kind;
  }

  lemma OrgsOfTwoLocks(hash: Key -> int, keys: set<Key>) returns (o: Key, o': Key)
    requires !OrgsShareOneLock(hash, keys)
    ensures o in keys && o' in keys && o.kind == OrgLock && o'.kind == OrgLock && hash(o) != hash(o')
  {
    o, o' :| o in keys && o' in keys && o.kind == OrgLock && o'.kind == OrgLock && hash(o) != hash(o');
  }

  lemma CrossingKeys(hash: Key -> int, keys: set<Key>) returns (a: Key, c: Key, b: Key)
    requires !NoCrossing(hash, keys)
    ensures a in keys && c in keys && b in keys && a.kind != MembershipLock && c.kind != MembershipLock
    ensures Before(a, c) && Before(c, b) && hash(a) == hash(b) && hash(c) != hash(a)
  {
    a, c, b :| a in keys && c in keys && b in keys && a.kind != MembershipLock && c.kind != MembershipLock
      && Before(a, c) && Before(c, b) && hash(a) == hash(b) && hash(c) != hash(a);
  }

  lemma UnsafeHandlersCross(hash: Key -> int, keys: set<Key>) returns (x: Crossing)
    requires !HandlersSafe(hash, keys)
    ensures HandlersCross(hash, keys, x)
  {
    var u := KeyOfKind(keys, UserLock);
    var m := KeyOfKind(keys, MembershipLock);
    var o, o' := OrgsOfTwoLocks(hash, keys);
    var a, c, b := CrossingKeys(hash, keys);
    if c.kind == OrgLock {
      x := OrganizationsCross(hash, keys, a, c, b, u, m);
    } else if a.kind == OrgLock {
      x := OrganizationAndUserCross(hash, keys, a, c, b, if hash(o) != hash(a) then o else o', m);
    } else if hash(o) != hash(c) && hash(o') != hash(a) {
      x := UsersCross(hash, keys, a, c, b, o, o', m);
    } else {
      x := UsersCross(hash, keys, a, c, b, o', o, m);
    }
  }

  // ---------------------------------------------------------------- the exact condition

  /** Handlers with these keys, none of which has taken a lock yet. */
  ghost predicate Starting(s: LockTable, keys: set<Key>) {
    HandlerTable(s, keys) && forall x | x in s :: s[x].held == 0 && !s[x].ended
  }

  ghost predicate NeverDeadlocks(hash: Key -> int, keys: set<Key>) {
    forall s, schedule | Starting(s, keys) && CanRun(s, hash, schedule) :: !Deadlocked(RunSteps(s, hash, schedule), hash)
  }

  lemma {:induction false} RunKeeps(s: LockTable, hash: Key -> int, keys: set<Key>, schedule: seq<nat>)
    requires Starting(s, keys) && CanRun(s, hash, schedule)
    ensures ValidTable(RunSteps(s, hash, schedule), hash) && HandlerTable(RunSteps(s, hash, schedule), keys)
    decreases |schedule|
  {
    if schedule != [] {
      var n := |schedule| - 1;
      RunKeeps(s, hash, keys, schedule[..n]);
      StepKeepsValid(RunSteps(s, hash, schedule[..n]), hash, schedule[n]);
    } else {
      forall x | x in s ensures Ascending(s[x].plan) {
        var e: Event :| s[x].plan == LockPlan(LockKeys(e));
      }
    }
  }

  lemma SafeKeysNeverDeadlock(hash: Key -> int, keys: set<Key>)
    requires HandlersSafe(hash, keys)
    ensures NeverDeadlocks(hash, keys)
  {
    forall s, schedule | Starting(s, keys) && CanRun(s, hash, schedule)
      ensures !Deadlocked(RunSteps(s, hash, schedule), hash)
    {
      RunKeeps(s, hash, keys, schedule);
      SafeHandlersNeverDeadlock(RunSteps(s, hash, schedule), hash, keys);
    }
  }

  lemma CrossingRefutes(hash: Key -> int, keys: set<Key>, x: Crossing)
    requires HandlersCross(hash, keys, x)
    ensures !NeverDeadlocks(hash, keys)
  {
    var schedule := CrossingIsReached(hash, x.p, x.n, x.q, x.m);
    CrossedDeadlocks(hash, x.p, x.n, x.q, x.m);
    assert Starting(Pair(x.p, 0, x.q, 0), keys);
  }

  /** For any number of concurrent handlers over a finite set of keys, in any interleaving: no run
      deadlocks if and only if the keys are safe. */
  lemma HandlersDeadlockExactlyWhenUnsafe(hash: Key -> int, keys: set<Key>)
    ensures NeverDeadlocks(hash, keys) <==> HandlersSafe(hash, keys)
  {
    if HandlersSafe(hash, keys) {
      SafeKeysNeverDeadlock(hash, keys);
    } else {
      var x := UnsafeHandlersCross(hash, keys);
      CrossingRefutes(hash, keys, x);
    }
  }

  /** A concrete crossing: two deliveries about one user, where the lock of the first organization
      is also the lock of the second membership. */
  lemma CollisionDeadlocks(hash: Key -> int, o1: string, o2: string, u: string, m1: string, m2: string)
    returns (schedule: seq<nat>)
    requires hash(Key(OrgLock, o1)) == hash(Key(MembershipLock, m2))
    requires hash(Key(OrgLock, o1)) !in {hash(Key(OrgLock, o2)), hash(Key(UserLock, u))}
    ensures var s := Pair(LockPlan(LockKeys(DeliveryOf(o1, o1, u, u, m1))), 0, LockPlan(LockKeys(DeliveryOf(o2, o2, u, u, m2))), 0);
      CanRun(s, hash, schedule) && Deadlocked(RunSteps(s, hash, schedule), hash)
  {
    var a, o, c := Key(OrgLock, o1), Key(OrgLock, o2), Key(UserLock, u);
    var m, b := Key(MembershipLock, m1), Key(MembershipLock, m2);
    var keys := {a, o, c, m, b};
    DeliveryTakesPlan(a, a, c, c, m, keys);
    DeliveryTakesPlan(o, o, c, c, b, keys);
    var p, q := DeliveryPlan(a, a, c, c, m), DeliveryPlan(o, o, c, c, b);
    assert p[0] == a && p[1] == c && q[0] == o && q[1] == c && q[2] == b;
    schedule := CrossingIsReached(hash, p, 1, q, 2);
    CrossedDeadlocks(hash, p, 1, q, 2);
  }
}
