/** The advisory locks around the identity handlers: what each handler locks, in which
    order, and that rows are written only under locks. */
module IdentityLocks {
  import opened Options
  import opened Ordering
  import opened Identity

  datatype LockKind = OrgLock | UserLock | MembershipLock

  datatype Key = Key(kind: LockKind, id: string)

  // ---------------------------------------------------------------- the canonical order

  function Priority(kind: LockKind): nat {
    match kind
    case OrgLock => 0
    case UserLock => 1
    case MembershipLock => 2
  }

  predicate Before(a: Key, b: Key) {
    if a.kind != b.kind then Priority(a.kind) < Priority(b.kind) else TextBefore(a.id, b.id)
  }

  lemma OrderIsTotal(a: Key, b: Key)
    ensures !(Before(a, b) && Before(b, a))
    ensures a == b <==> !Before(a, b) && !Before(b, a)
  {
    TextOrderIsTotal(a.id, b.id);
  }

  lemma OrderIsTransitive(a: Key, b: Key, c: Key)
    requires Before(a, b) && Before(b, c)
    ensures Before(a, c)
  {
    if a.kind == b.kind == c.kind { TextOrderIsTransitive(a.id, b.id, c.id); }
  }

  // ---------------------------------------------------------------- lock plans

  ghost predicate Ascending(plan: seq<Key>) {
    forall i, j | 0 <= i < j < |plan| :: Before(plan[i], plan[j])
  }

  /** One key placed in an ascending plan; a key already there is not repeated. */
  function Insert(key: Key, plan: seq<Key>): (r: seq<Key>)
    requires Ascending(plan)
    ensures Ascending(r)
    ensures forall k :: k in r <==> k == key || k in plan
  {
    if plan == [] then [key]
    else if key == plan[0] then plan
    else if Before(key, plan[0]) then
      assert forall i | 0 < i < |plan| :: Before(key, plan[i]) by {
        forall i | 0 < i < |plan| ensures Before(key, plan[i]) { OrderIsTransitive(key, plan[0], plan[i]); }
      }
      [key] + plan
    else
      OrderIsTotal(key, plan[0]);
      var rest := Insert(key, plan[1..]);
      assert forall i | 0 <= i < |rest| :: Before(plan[0], rest[i]) by {
        forall i | 0 <= i < |rest| ensures Before(plan[0], rest[i]) { assert rest[i] in rest; }
      }
      [plan[0]] + rest
  }

  /** The order in which a handler takes the locks it names: duplicates dropped, then sorted. */
  function LockPlan(keys: seq<Key>): (plan: seq<Key>)
    ensures Ascending(plan)
    ensures forall k :: k in plan <==> k in keys
  {
    if keys == [] then [] else Insert(keys[0], LockPlan(keys[1..]))
  }

  /** The keys each handler names. */
  function LockKeys(e: Event): seq<Key> {
    match e
    case OrganizationSynced(id, _, _, _, _, _, _) => [Key(OrgLock, id)]
    case OrganizationDeleted(id, _, _) => [Key(OrgLock, id)]
    case MembershipDelivered(data, _, _, known, _) =>
      [Key(OrgLock, data.orgId), Key(UserLock, data.userId), Key(MembershipLock, data.id)]
      + (if known.Some? then [Key(OrgLock, known.value.1), Key(UserLock, known.value.0)] else [])
    case UserDeleted(id, _, _) => [Key(UserLock, id)]
    case WorkspaceProvisioned(id, _, _, _, _, _) => [Key(UserLock, id)]
    case CutoverWritten(_) => []
  }

  // ---------------------------------------------------------------- writes happen under locks

  ghost predicate Holds(e: Event, kind: LockKind, id: string) {
    Key(kind, id) in LockPlan(LockKeys(e))
  }

  /** Every identity row a handler changes is covered by a lock it holds: lifecycle rows by
      their own key, a principal by its person's key or by its organization's key. */
  ghost predicate WritesAreLocked(t: Tables, t': Tables, e: Event) {
    && (forall o | Lookup(t'.orgLifecycles, o) != Lookup(t.orgLifecycles, o) :: Holds(e, OrgLock, o))
    && (forall m | Lookup(t'.memberships, m) != Lookup(t.memberships, m) :: Holds(e, MembershipLock, m))
    && (forall k | Lookup(t'.cursors, k) != Lookup(t.cursors, k) :: Holds(e, UserLock, k))
    && (forall i | i in t'.users && Lookup(t'.users, i) != Lookup(t.users, i) ::
          || (t'.users[i].clerkId.Some? && Holds(e, UserLock, t'.users[i].clerkId.value))
          || (t'.users[i].orgRow in t'.orgs && t'.orgs[t'.users[i].orgRow].clerkOrgId.Some?
              && Holds(e, OrgLock, t'.orgs[t'.users[i].orgRow].clerkOrgId.value)))
  }

  /** The only rows a membership delivery touches: one membership, one cursor, one person's principal. */
  ghost predicate TouchesOnly(t: Tables, t': Tables, membership: string, user: string) {
    && t'.orgLifecycles == t.orgLifecycles
    && (forall m | m != membership :: Lookup(t'.memberships, m) == Lookup(t.memberships, m))
    && (forall k | k != user :: Lookup(t'.cursors, k) == Lookup(t.cursors, k))
    && (forall i | i in t'.users && Lookup(t'.users, i) != Lookup(t.users, i) :: t'.users[i].clerkId == Some(user))
  }

  lemma QuarantineTouches(t: Tables, membership: string, stamp: Stamp)
    requires WellKeyed(t) && membership in t.memberships
    ensures var existing := t.memberships[membership];
      TouchesOnly(t, Quarantine(t, existing, membership, stamp), membership, existing.userId)
  {
  }

  lemma PrincipalWriteTouches(t: Tables, tx: Tables, t': Tables, data: MembershipData, target: RowId)
    requires tx.users == t.users && tx.cursors == t.cursors && tx.orgLifecycles == t.orgLifecycles
    requires forall m | m != data.id :: Lookup(tx.memberships, m) == Lookup(t.memberships, m)
    requires t'.orgLifecycles == tx.orgLifecycles && t'.memberships == tx.memberships
    requires forall k | k != data.userId :: Lookup(t'.cursors, k) == Lookup(tx.cursors, k)
    requires target in t'.users && t'.users[target].clerkId == Some(data.userId)
    requires t'.users == tx.users[target := t'.users[target]]
    ensures TouchesOnly(t, t', data.id, data.userId)
  {
  }

  lemma ProjectCreatedTouches(t: Tables, tx: Tables, data: MembershipData, stamp: Stamp, newRow: RowId, org: RowId)
    requires WellKeyed(t) && tx == PersistMembership(t, data, stamp, false)
    ensures var user, cursor := FindUser(tx.users, data.userId), Lookup(tx.cursors, data.userId);
      TouchesOnly(t, ProjectCreated(t, tx, data, stamp, newRow, cursor, org, user).0, data.id, data.userId)
  {
    var user := FindUser(tx.users, data.userId);
    var (t', outcome) := ProjectCreated(t, tx, data, stamp, newRow, Lookup(tx.cursors, data.userId), org, user);
    if outcome == Committed && ShouldAdvanceCursor(Lookup(tx.cursors, data.userId), data, stamp.rank) {
      PrincipalWriteTouches(t, tx, t', data, if user.Some? then user.value else newRow);
    }
  }

  lemma ProjectUpdatedTouches(t: Tables, tx: Tables, data: MembershipData, stamp: Stamp)
    requires WellKeyed(t) && tx == PersistMembership(t, data, stamp, false)
    ensures var user := FindUser(tx.users, data.userId);
      TouchesOnly(t, ProjectUpdated(t, tx, data, stamp, Lookup(tx.cursors, data.userId), user).0, data.id, data.userId)
  {
  }

  lemma ProjectDeletedTouches(t: Tables, tx: Tables, data: MembershipData, stamp: Stamp)
    requires WellKeyed(t) && tx == PersistMembership(t, data, stamp, true)
    ensures var user := FindUser(tx.users, data.userId);
      TouchesOnly(t, ProjectDeleted(t, tx, data, stamp, Lookup(tx.cursors, data.userId), user).0, data.id, data.userId)
  {
  }

  lemma ProjectTouches(t: Tables, data: MembershipData, kind: EventKind, stamp: Stamp, newRow: RowId)
    requires WellKeyed(t)
    ensures var tx := PersistMembership(t, data, stamp, kind == Deleted);
      TouchesOnly(t, Project(t, tx, data, kind, stamp, newRow).0, data.id, data.userId)
  {
    var tx := PersistMembership(t, data, stamp, kind == Deleted);
    match kind
    case Created =>
      var org := FindOrg(tx.orgs, data.orgId);
      if org.Some? { ProjectCreatedTouches(t, tx, data, stamp, newRow, org.value); }
    case Updated => ProjectUpdatedTouches(t, tx, data, stamp);
    case Deleted => ProjectDeletedTouches(t, tx, data, stamp);
  }

  lemma MembershipWritesUnderLocks(t: Tables, e: Event)
    requires WellKeyed(t) && e.MembershipDelivered?
    ensures WritesAreLocked(t, Handle(t, e).0, e)
  {
    var t' := Handle(t, e).0;
    var existing := Lookup(t.memberships, e.data.id);
    var stamp := Stamp(e.data.version, Rank(e.kind), e.eventId);
    assert Key(MembershipLock, e.data.id) in LockKeys(e) && Key(UserLock, e.data.userId) in LockKeys(e);
    if t' != t {
      if existing.Some? && (existing.value.userId != e.data.userId || existing.value.orgId != e.data.orgId) {
        QuarantineTouches(t, e.data.id, stamp);
        assert Key(UserLock, existing.value.userId) in LockKeys(e);
      } else {
        ProjectTouches(t, e.data, e.kind, stamp, e.newRow);
      }
    }
  }

  lemma OrganizationSyncUnderLocks(t: Tables, e: Event)
    requires WellKeyed(t) && e.OrganizationSynced?
    ensures WritesAreLocked(t, Handle(t, e).0, e)
  {
    assert Key(OrgLock, e.id) in LockKeys(e);
  }

  lemma OrganizationDeleteUnderLocks(t: Tables, e: Event)
    requires WellKeyed(t) && e.OrganizationDeleted?
    ensures WritesAreLocked(t, Handle(t, e).0, e)
  {
    assert Key(OrgLock, e.id) in LockKeys(e);
  }

  lemma UserDeleteUnderLocks(t: Tables, e: Event)
    requires WellKeyed(t) && e.UserDeleted?
    ensures WritesAreLocked(t, Handle(t, e).0, e)
  {
    assert Key(UserLock, e.clerkUserId) in LockKeys(e);
  }

  lemma ProvisioningUnderLocks(t: Tables, e: Event)
    requires WellKeyed(t) && e.WorkspaceProvisioned?
    ensures WritesAreLocked(t, Handle(t, e).0, e)
  {
    assert Key(UserLock, e.clerkUserId) in LockKeys(e);
  }

  lemma HandlerWritesUnderLocks(t: Tables, e: Event)
    requires WellKeyed(t)
    ensures WritesAreLocked(t, Handle(t, e).0, e)
  {
    match e
    case OrganizationSynced(_, _, _, _, _, _, _) => OrganizationSyncUnderLocks(t, e);
    case OrganizationDeleted(_, _, _) => OrganizationDeleteUnderLocks(t, e);
    case UserDeleted(_, _, _) => UserDeleteUnderLocks(t, e);
    case WorkspaceProvisioned(_, _, _, _, _, _) => ProvisioningUnderLocks(t, e);
    case MembershipDelivered(_, _, _, _, _) => MembershipWritesUnderLocks(t, e);
    case CutoverWritten(_) =>
  }

  lemma DeliveryHolds(e: Event)
    requires e.MembershipDelivered?
    ensures Holds(e, OrgLock, e.data.orgId) && Holds(e, UserLock, e.data.userId) && Holds(e, MembershipLock, e.data.id)
    ensures e.known.Some? ==> Holds(e, OrgLock, e.known.value.1) && Holds(e, UserLock, e.known.value.0)
  {
    var keys := LockKeys(e);
    assert keys[0] == Key(OrgLock, e.data.orgId) && keys[1] == Key(UserLock, e.data.userId) && keys[2] == Key(MembershipLock, e.data.id);
    if e.known.Some? {
      assert keys[3] == Key(OrgLock, e.known.value.1) && keys[4] == Key(UserLock, e.known.value.0);
    }
  }

  /** A delivery that changes anything names the stored tuple or read it beforehand. */
  lemma ChangesKnewTheTuple(t: Tables, e: Event)
    requires WellKeyed(t) && e.MembershipDelivered? && e.data.id in t.memberships
    requires Handle(t, e).0 != t
    ensures var row := t.memberships[e.data.id];
      || (row.userId == e.data.userId && row.orgId == e.data.orgId)
      || e.known == Some((row.userId, row.orgId))
  {
  }

  /** However stale the pre-read was, a membership delivery that changes anything holds the
      locks of the incoming tuple and of the tuple stored at that moment. */
  lemma MembershipChangesHoldBothTuples(t: Tables, e: Event)
    requires WellKeyed(t) && e.MembershipDelivered?
    requires Handle(t, e).0 != t
    ensures Holds(e, OrgLock, e.data.orgId) && Holds(e, UserLock, e.data.userId) && Holds(e, MembershipLock, e.data.id)
    ensures e.data.id in t.memberships ==>
              && Holds(e, OrgLock, t.memberships[e.data.id].orgId)
              && Holds(e, UserLock, t.memberships[e.data.id].userId)
  {
    DeliveryHolds(e);
    if e.data.id in t.memberships { ChangesKnewTheTuple(t, e); }
  }
}
