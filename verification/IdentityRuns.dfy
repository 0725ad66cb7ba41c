/** Whole runs of the identity handlers: the projection survives every one of them,
    tombstones are permanent, and only a created delivery grants a bound principal. */
module IdentityRuns {
  import opened Options
  import opened Identity
  import opened IdentityProjection

  ghost function Run(t: Tables, events: seq<Event>): (t': Tables)
    requires Sound(t)
    ensures Sound(t')
    decreases |events|
  {
    if events == [] then t
    else
      HandlerKeepsSound(t, events[0]);
      Run(Handle(t, events[0]).0, events[1..])
  }

  const EMPTY: Tables := Tables(None, map[], map[], map[], map[], map[])

  /** From empty tables on, no run of deliveries ever shows a projection mismatch. */
  lemma NoMismatchIsReachable(events: seq<Event>, i: RowId)
    ensures Sound(EMPTY)
    ensures var t := Run(EMPTY, events);
      i in t.users && t.users[i].active && t.orgs[t.users[i].orgRow].clerkOrgId.Some? ==>
        var u := t.users[i];
        u.clerkId.Some? && u.membershipId.Some?
        && BackedBy(t, t.orgs[u.orgRow].clerkOrgId.value, u.clerkId.value, u.membershipId.value, u.role)
  {
    var t := Run(EMPTY, events);
    if i in t.users { assert Backed(t, t.users[i]); }
  }

  // ---------------------------------------------------------------- tombstones

  ghost predicate UserTombstoned(t: Tables, user: string) {
    && user in t.cursors && t.cursors[user].deleted
    && forall i | i in t.users && t.users[i].clerkId == Some(user) :: !t.users[i].active
  }

  ghost predicate OrgTombstoned(t: Tables, org: string) {
    org in t.orgLifecycles && t.orgLifecycles[org].deleted
  }

  ghost predicate MembershipTombstoned(t: Tables, membership: string) {
    membership in t.memberships && t.memberships[membership].deleted
  }

  /** What no handler may undo. */
  ghost predicate Later(t: Tables, t': Tables) {
    && (forall u | UserTombstoned(t, u) :: UserTombstoned(t', u))
    && (forall o | OrgTombstoned(t, o) :: OrgTombstoned(t', o))
    && (forall m | MembershipTombstoned(t, m) :: MembershipTombstoned(t', m))
    && (forall i | i in t.users ::
          i in t'.users && t'.users[i].orgRow == t.users[i].orgRow && t'.users[i].clerkId == t.users[i].clerkId)
    && (forall o | o in t.orgs :: o in t'.orgs && t'.orgs[o].clerkOrgId == t.orgs[o].clerkOrgId)
  }

  ghost predicate ActiveIn(t: Tables, i: RowId) {
    i in t.users && t.users[i].active
  }

  /** What a membership delivery for `user` can change, whichever branch it takes. */
  ghost predicate MembershipFrame(t: Tables, t': Tables, user: string) {
    && t'.orgs == t.orgs && t'.orgLifecycles == t.orgLifecycles
    && (forall m | MembershipTombstoned(t, m) :: MembershipTombstoned(t', m))
    && (forall k | k in t.cursors && t.cursors[k].deleted :: k in t'.cursors && t'.cursors[k].deleted)
    && (forall i | i in t.users ::
          i in t'.users && t'.users[i].orgRow == t.users[i].orgRow && t'.users[i].clerkId == t.users[i].clerkId)
    && (forall i | ActiveIn(t', i) && !ActiveIn(t, i) ::
          t'.users[i].clerkId == Some(user) && !(user in t.cursors && t.cursors[user].deleted))
  }

  lemma FrameIsLater(t: Tables, t': Tables, user: string)
    requires MembershipFrame(t, t', user)
    ensures Later(t, t')
  {
    forall u | UserTombstoned(t, u) ensures UserTombstoned(t', u) {
      forall i | i in t'.users && t'.users[i].clerkId == Some(u) ensures !t'.users[i].active {
        assert !ActiveIn(t, i);
        assert t'.users[i].active == ActiveIn(t', i);
      }
    }
  }

  lemma LifecycleWriteFrame(t: Tables, tx: Tables, data: MembershipData, stamp: Stamp, deleted: bool)
    requires tx == PersistMembership(t, data, stamp, deleted) && !MembershipTombstoned(t, data.id)
    ensures MembershipFrame(t, tx, data.userId) && forall i | ActiveIn(tx, i) :: ActiveIn(t, i)
  {
  }

  /** After the lifecycle write, one cursor and one principal of the same person may follow. */
  lemma PrincipalWriteFrame(t: Tables, tx: Tables, t': Tables, user: string, target: RowId)
    requires MembershipFrame(t, tx, user) && (forall i | ActiveIn(tx, i) :: ActiveIn(t, i))
    requires tx.users == t.users && tx.cursors == t.cursors
    requires t'.orgs == tx.orgs && t'.orgLifecycles == tx.orgLifecycles && t'.memberships == tx.memberships
    requires forall k | k != user :: Lookup(t'.cursors, k) == Lookup(tx.cursors, k)
    requires !(user in t.cursors && t.cursors[user].deleted)
    requires target in t'.users && t'.users[target].clerkId == Some(user)
    requires t'.users == tx.users[target := t'.users[target]]
    requires target in tx.users ==>
      t'.users[target].orgRow == tx.users[target].orgRow && t'.users[target].clerkId == tx.users[target].clerkId
    ensures MembershipFrame(t, t', user)
  {
    forall k | k in t.cursors && t.cursors[k].deleted ensures k in t'.cursors && t'.cursors[k].deleted {
      assert Lookup(t'.cursors, k) == Lookup(tx.cursors, k);
    }
  }

  lemma ProjectCreatedFrame(t: Tables, tx: Tables, data: MembershipData, stamp: Stamp, newRow: RowId,
                            org: RowId, user: Option<RowId>)
    requires WellKeyed(t) && tx == PersistMembership(t, data, stamp, false)
    requires !MembershipTombstoned(t, data.id)
    requires user == FindUser(tx.users, data.userId)
    requires !(data.userId in tx.cursors && tx.cursors[data.userId].deleted)
    ensures var cursor := Lookup(tx.cursors, data.userId);
      MembershipFrame(t, ProjectCreated(t, tx, data, stamp, newRow, cursor, org, user).0, data.userId)
  {
    LifecycleWriteFrame(t, tx, data, stamp, false);
    var (t', outcome) := ProjectCreated(t, tx, data, stamp, newRow, Lookup(tx.cursors, data.userId), org, user);
    if outcome == Committed && ShouldAdvanceCursor(Lookup(tx.cursors, data.userId), data, stamp.rank) {
      PrincipalWriteFrame(t, tx, t', data.userId, if user.Some? then user.value else newRow);
    }
  }

  lemma ProjectUpdatedFrame(t: Tables, tx: Tables, data: MembershipData, stamp: Stamp, user: Option<RowId>)
    requires WellKeyed(t) && tx == PersistMembership(t, data, stamp, false)
    requires !MembershipTombstoned(t, data.id)
    requires user == FindUser(tx.users, data.userId)
    requires !(data.userId in tx.cursors && tx.cursors[data.userId].deleted)
    ensures var t' := ProjectUpdated(t, tx, data, stamp, Lookup(tx.cursors, data.userId), user).0;
      MembershipFrame(t, t', data.userId) && forall i | ActiveIn(t', i) :: ActiveIn(t, i)
  {
  }

  lemma CursorWriteFrame(t: Tables, tx: Tables, data: MembershipData, stamp: Stamp)
    requires MembershipFrame(t, tx, data.userId) && forall i | ActiveIn(tx, i) :: ActiveIn(t, i)
    requires tx.users == t.users && tx.cursors == t.cursors
    requires !(data.userId in t.cursors && t.cursors[data.userId].deleted)
    ensures var t' := PersistCursor(tx, data, stamp, false);
      MembershipFrame(t, t', data.userId) && forall i | ActiveIn(t', i) :: ActiveIn(t, i)
  {
  }

  lemma RevokeFrame(t: Tables, tx: Tables, data: MembershipData, stamp: Stamp, user: Option<RowId>)
    requires WellKeyed(t) && tx == PersistMembership(t, data, stamp, true)
    requires !MembershipTombstoned(t, data.id)
    requires user == FindUser(tx.users, data.userId)
    requires !(data.userId in tx.cursors && tx.cursors[data.userId].deleted)
    ensures var t' := Revoke(t, tx, data, stamp, user).0;
      MembershipFrame(t, t', data.userId) && forall i | ActiveIn(t', i) :: ActiveIn(t, i)
  {
    LifecycleWriteFrame(t, tx, data, stamp, true);
    CursorWriteFrame(t, tx, data, stamp);
    var (t', outcome) := Revoke(t, tx, data, stamp, user);
    if outcome == Committed && user.Some? && t' != PersistCursor(tx, data, stamp, false) {
      PrincipalWriteFrame(t, tx, t', data.userId, user.value);
    }
  }

  lemma ProjectDeletedFrame(t: Tables, tx: Tables, data: MembershipData, stamp: Stamp, user: Option<RowId>)
    requires WellKeyed(t) && tx == PersistMembership(t, data, stamp, true)
    requires !MembershipTombstoned(t, data.id)
    requires user == FindUser(tx.users, data.userId)
    requires !(data.userId in tx.cursors && tx.cursors[data.userId].deleted)
    ensures var t' := ProjectDeleted(t, tx, data, stamp, Lookup(tx.cursors, data.userId), user).0;
      MembershipFrame(t, t', data.userId) && forall i | ActiveIn(t', i) :: ActiveIn(t, i)
  {
    RevokeFrame(t, tx, data, stamp, user);
    LifecycleWriteFrame(t, tx, data, stamp, true);
  }

  lemma QuarantineFrame(t: Tables, data: MembershipData, stamp: Stamp)
    requires WellKeyed(t) && data.id in t.memberships
    ensures var t' := Quarantine(t, t.memberships[data.id], data.id, stamp);
      MembershipFrame(t, t', data.userId) && forall i | ActiveIn(t', i) :: ActiveIn(t, i)
  {
  }

  lemma ProjectFrame(t: Tables, tx: Tables, data: MembershipData, kind: EventKind, stamp: Stamp, newRow: RowId)
    requires WellKeyed(t) && tx == PersistMembership(t, data, stamp, kind == Deleted)
    requires !MembershipTombstoned(t, data.id)
    ensures var t' := Project(t, tx, data, kind, stamp, newRow).0;
      MembershipFrame(t, t', data.userId) && (kind != Created ==> forall i | ActiveIn(t', i) :: ActiveIn(t, i))
  {
    LifecycleWriteFrame(t, tx, data, stamp, kind == Deleted);
    if !(data.userId in tx.cursors && tx.cursors[data.userId].deleted) {
      ProjectBranchFrame(t, tx, data, kind, stamp, newRow);
    }
  }

  lemma ProjectBranchFrame(t: Tables, tx: Tables, data: MembershipData, kind: EventKind, stamp: Stamp, newRow: RowId)
    requires WellKeyed(t) && tx == PersistMembership(t, data, stamp, kind == Deleted)
    requires !MembershipTombstoned(t, data.id)
    requires !(data.userId in tx.cursors && tx.cursors[data.userId].deleted)
    requires MembershipFrame(t, tx, data.userId) && forall i | ActiveIn(tx, i) :: ActiveIn(t, i)
    ensures var t' := Project(t, tx, data, kind, stamp, newRow).0;
      MembershipFrame(t, t', data.userId) && (kind != Created ==> forall i | ActiveIn(t', i) :: ActiveIn(t, i))
  {
    var org := FindOrg(tx.orgs, data.orgId);
    var user := FindUser(tx.users, data.userId);
    match kind
    case Created => if org.Some? { ProjectCreatedFrame(t, tx, data, stamp, newRow, org.value, user); }
    case Updated => ProjectUpdatedFrame(t, tx, data, stamp, user);
    case Deleted => ProjectDeletedFrame(t, tx, data, stamp, user);
  }

  lemma MembershipDeliveryFrame(t: Tables, data: MembershipData, kind: EventKind, eventId: string,
                                known: Option<(string, string)>, newRow: RowId)
    requires WellKeyed(t)
    ensures var t' := ApplyMembership(t, data, kind, eventId, known, newRow).0;
      MembershipFrame(t, t', data.userId) && (kind != Created ==> forall i | ActiveIn(t', i) :: ActiveIn(t, i))
  {
    var stamp := Stamp(data.version, Rank(kind), eventId);
    var existing := Lookup(t.memberships, data.id);
    if existing.Some? && (existing.value.userId != data.userId || existing.value.orgId != data.orgId) {
      QuarantineFrame(t, data, stamp);
    } else if ShouldApplyMembership(existing, stamp, data.role) {
      ProjectFrame(t, PersistMembership(t, data, stamp, kind == Deleted), data, kind, stamp, newRow);
    }
  }

  lemma OrganizationDeletionIsLater(t: Tables, id: string, seconds: int, eventId: string)
    requires Sound(t)
    ensures Later(t, DeactivateOrganization(t, id, seconds, eventId))
  {
  }

  lemma UserDeletionIsLater(t: Tables, id: string, seconds: int, eventId: string)
    requires Sound(t)
    ensures Later(t, DeactivateDeletedUser(t, id, seconds, eventId))
  {
  }

  lemma OrganizationSyncIsLater(t: Tables, id: string, name: string, slug: string, version: int,
                                created: bool, eventId: string, newRow: RowId)
    requires Sound(t)
    ensures Later(t, SyncOrganization(t, id, name, slug, version, created, eventId, newRow).0)
  {
  }

  lemma ProvisioningIsLater(t: Tables, id: string, name: string, slug: string, email: string, newOrg: RowId, newUser: RowId)
    requires Sound(t)
    ensures Later(t, ProvisionWorkspace(t, id, name, slug, email, newOrg, newUser).0)
  {
  }

  lemma HandlerIsLater(t: Tables, e: Event)
    requires Sound(t)
    ensures Later(t, Handle(t, e).0)
  {
    match e
    case MembershipDelivered(data, kind, eventId, known, newRow) =>
      MembershipDeliveryFrame(t, data, kind, eventId, known, newRow);
      FrameIsLater(t, Handle(t, e).0, data.userId);
    case OrganizationDeleted(id, seconds, eventId) => OrganizationDeletionIsLater(t, id, seconds, eventId);
    case UserDeleted(id, seconds, eventId) => UserDeletionIsLater(t, id, seconds, eventId);
    case WorkspaceProvisioned(id, name, slug, email, newOrg, newUser) =>
      ProvisioningIsLater(t, id, name, slug, email, newOrg, newUser);
    case OrganizationSynced(id, name, slug, version, created, eventId, newRow) =>
      OrganizationSyncIsLater(t, id, name, slug, version, created, eventId, newRow);
    case CutoverWritten(_) =>
  }

  lemma {:induction false} RunIsLater(t: Tables, events: seq<Event>)
    requires Sound(t)
    ensures Later(t, Run(t, events))
    decreases |events|
  {
    if events != [] {
      HandlerKeepsSound(t, events[0]);
      HandlerIsLater(t, events[0]);
      RunIsLater(Handle(t, events[0]).0, events[1..]);
    }
  }

  // ---------------------------------------------------------------- revocation is final

  /** Once user.deleted is handled, that person is never active again, in any workspace. */
  lemma UserDeletionIsFinal(t: Tables, user: string, seconds: int, eventId: string, later: seq<Event>)
    requires Sound(t)
    ensures Sound(DeactivateDeletedUser(t, user, seconds, eventId))
    ensures var t' := Run(DeactivateDeletedUser(t, user, seconds, eventId), later);
      forall i | i in t'.users && t'.users[i].clerkId == Some(user) :: !t'.users[i].active
  {
    UserDeleteKeeps(t, user, seconds, eventId);
    var t1 := DeactivateDeletedUser(t, user, seconds, eventId);
    assert UserTombstoned(t1, user);
    RunIsLater(t1, later);
    assert UserTombstoned(Run(t1, later), user);
  }

  /** Once organization.deleted is handled, nobody is ever active in that organization again. */
  lemma OrganizationDeletionIsFinal(t: Tables, org: string, seconds: int, eventId: string, later: seq<Event>)
    requires Sound(t)
    ensures Sound(DeactivateOrganization(t, org, seconds, eventId))
    ensures var t' := Run(DeactivateOrganization(t, org, seconds, eventId), later);
      forall i | i in t'.users && t'.orgs[t'.users[i].orgRow].clerkOrgId == Some(org) :: !t'.users[i].active
  {
    OrganizationDeleteKeeps(t, org, seconds, eventId);
    var t1 := DeactivateOrganization(t, org, seconds, eventId);
    assert OrgTombstoned(t1, org);
    RunIsLater(t1, later);
    var t' := Run(t1, later);
    assert OrgTombstoned(t', org);
    forall i | i in t'.users && t'.orgs[t'.users[i].orgRow].clerkOrgId == Some(org) ensures !t'.users[i].active {
      assert Backed(t', t'.users[i]);
    }
  }

  /** A tombstoned membership never again carries an active bound principal. */
  lemma MembershipTombstoneIsFinal(t: Tables, membership: string, later: seq<Event>)
    requires Sound(t) && MembershipTombstoned(t, membership)
    ensures var t' := Run(t, later);
      && MembershipTombstoned(t', membership)
      && forall i | i in t'.users && t'.users[i].membershipId == Some(membership)
                    && t'.orgs[t'.users[i].orgRow].clerkOrgId.Some? :: !t'.users[i].active
  {
    RunIsLater(t, later);
    var t' := Run(t, later);
    forall i | i in t'.users && t'.users[i].membershipId == Some(membership)
               && t'.orgs[t'.users[i].orgRow].clerkOrgId.Some?
      ensures !t'.users[i].active
    {
      assert Backed(t', t'.users[i]);
    }
  }

  /** A principal never moves to another organization row or another person, in any run. */
  lemma PrincipalsNeverMove(t: Tables, events: seq<Event>, i: RowId)
    requires Sound(t) && i in t.users
    ensures var t' := Run(t, events);
      i in t'.users && t'.users[i].orgRow == t.users[i].orgRow && t'.users[i].clerkId == t.users[i].clerkId
  {
    RunIsLater(t, events);
  }

  // ---------------------------------------------------------------- grants

  /** The one branch that activates somebody, and for whom. */
  lemma CreatedGrant(t: Tables, data: MembershipData, eventId: string, known: Option<(string, string)>, newRow: RowId, i: RowId)
    requires Sound(t)
    requires !ActiveIn(t, i) && ActiveIn(ApplyMembership(t, data, Created, eventId, known, newRow).0, i)
    ensures var t' := ApplyMembership(t, data, Created, eventId, known, newRow).0;
      && t'.users[i].clerkId == Some(data.userId)
      && t'.users[i].membershipId == Some(data.id)
      && t'.orgs[t'.users[i].orgRow].clerkOrgId == Some(data.orgId)
      && AuthorityGate(t.cutover, data.version) == Open
      && !OrgTombstoned(t, data.orgId) && data.orgId in t.orgLifecycles
  {
    MembershipDeliveryFrame(t, data, Created, eventId, known, newRow);
  }

  /** A principal becomes active only through a created delivery for that same person that
      passed the cutover gate, or by provisioning an unbound workspace; an updated delivery
      never creates or reactivates authority. */
  lemma OnlyCreatedDeliveriesGrant(t: Tables, e: Event, i: RowId)
    requires Sound(t)
    requires !ActiveIn(t, i) && ActiveIn(Handle(t, e).0, i)
    ensures var t' := Handle(t, e).0;
      && i in t'.users && t'.users[i].orgRow in t'.orgs
      && (|| (&& e.MembershipDelivered? && e.kind == Created
              && t'.users[i].clerkId == Some(e.data.userId)
              && t'.users[i].membershipId == Some(e.data.id)
              && t'.orgs[t'.users[i].orgRow].clerkOrgId == Some(e.data.orgId)
              && AuthorityGate(t.cutover, e.data.version) == Open
              && !OrgTombstoned(t, e.data.orgId) && e.data.orgId in t.orgLifecycles)
          || (&& e.WorkspaceProvisioned?
              && t'.users[i].clerkId == Some(e.clerkUserId)
              && t'.orgs[t'.users[i].orgRow].clerkOrgId.None?))
  {
    HandlerKeepsSound(t, e);
    if e.MembershipDelivered? {
      MembershipDeliveryFrame(t, e.data, e.kind, e.eventId, e.known, e.newRow);
      if e.kind == Created { CreatedGrant(t, e.data, e.eventId, e.known, e.newRow, i); }
    }
  }
}
