/** The projection the identity tables must always show: an active principal of a
    Clerk-bound organization is backed by live organization, membership and cursor
    rows that agree with each other.  Every handler keeps it, so every run does. */
module IdentityProjection {
  import opened Options
  import opened Identity

  /** The bound-organization half of the production mismatch query, negated, for one user. */
  ghost predicate Backed(t: Tables, u: UserRow) {
    u.active && u.orgRow in t.orgs && t.orgs[u.orgRow].clerkOrgId.Some? ==>
      var org := t.orgs[u.orgRow].clerkOrgId.value;
      && u.clerkId.Some?
      && u.membershipId.Some?
      && BackedBy(t, org, u.clerkId.value, u.membershipId.value, u.role)
  }

  ghost predicate BackedBy(t: Tables, org: string, user: string, membership: string, role: Role) {
    && org in t.orgLifecycles && !t.orgLifecycles[org].deleted
    && membership in t.memberships
    && user in t.cursors
    && var m := t.memberships[membership];
       var c := t.cursors[user];
       && !m.deleted && m.userId == user && m.orgId == org
       && !c.deleted && c.active
       && c.membershipId == Some(membership) && c.orgId == Some(org)
       && c.version == Some(m.stamp.version) && c.rank == Some(m.stamp.rank)
       && m.role == c.role
       && (role == c.role || (role == Owner && c.role == Admin))
  }

  ghost predicate Projected(t: Tables) {
    forall i | i in t.users :: Backed(t, t.users[i])
  }

  ghost predicate Sound(t: Tables) {
    WellKeyed(t) && Projected(t)
  }

  /** An active principal on membership `data.id` is in step with its lifecycle row,
      so a delivery that moves the lifecycle row also moves the cursor. */
  lemma ActiveMembershipIsInStep(t: Tables, i: RowId, data: MembershipData, stamp: Stamp)
    requires Sound(t) && i in t.users
    requires t.users[i].active && t.orgs[t.users[i].orgRow].clerkOrgId.Some?
    requires t.users[i].membershipId == Some(data.id)
    requires stamp.version == data.version
    requires ShouldApplyMembership(Lookup(t.memberships, data.id), stamp, data.role)
    ensures data.id in t.memberships
    ensures t.memberships[data.id].userId == data.userId ==>
              ShouldAdvanceCursor(Lookup(t.cursors, data.userId), data, stamp.rank)
  {
    assert Backed(t, t.users[i]);
  }

  /** Deactivating principals rewrites no indexed column. */
  lemma DeactivationKeepsKeys(t: Tables, users': map<RowId, UserRow>)
    requires WellKeyed(t)
    requires users'.Keys == t.users.Keys
    requires forall i | i in users' :: users'[i] == t.users[i] || users'[i] == Deactivated(t.users[i])
    ensures UniqueUsers(users')
  {
    forall i, j | i in users' && j in users' && i != j ensures SharesNoKey(users'[i], users'[j]) {
      assert SharesNoKey(t.users[i], t.users[j]);
    }
  }

  lemma OrganizationSyncKeeps(t: Tables, id: string, name: string, slug: string, version: int,
                              created: bool, eventId: string, newRow: RowId)
    requires Sound(t)
    ensures Sound(SyncOrganization(t, id, name, slug, version, created, eventId, newRow).0)
  {
    var t' := SyncOrganization(t, id, name, slug, version, created, eventId, newRow).0;
    forall i | i in t'.users ensures Backed(t', t'.users[i]) {
      assert Backed(t, t.users[i]);
    }
  }

  lemma OrganizationDeleteKeeps(t: Tables, id: string, seconds: int, eventId: string)
    requires Sound(t)
    ensures Sound(DeactivateOrganization(t, id, seconds, eventId))
  {
    var t' := DeactivateOrganization(t, id, seconds, eventId);
    DeactivationKeepsKeys(t, t'.users);
    forall i | i in t'.users ensures Backed(t', t'.users[i]) {
      assert Backed(t, t.users[i]);
    }
  }

  lemma UserDeleteKeeps(t: Tables, clerkUserId: string, seconds: int, eventId: string)
    requires Sound(t)
    ensures Sound(DeactivateDeletedUser(t, clerkUserId, seconds, eventId))
  {
    var t' := DeactivateDeletedUser(t, clerkUserId, seconds, eventId);
    DeactivationKeepsKeys(t, t'.users);
    forall i | i in t'.users ensures Backed(t', t'.users[i]) {
      assert Backed(t, t.users[i]);
    }
  }

  lemma ProvisioningKeeps(t: Tables, clerkUserId: string, name: string, slug: string, email: string,
                          newOrg: RowId, newUser: RowId)
    requires Sound(t)
    ensures Sound(ProvisionWorkspace(t, clerkUserId, name, slug, email, newOrg, newUser).0)
  {
    var t' := ProvisionWorkspace(t, clerkUserId, name, slug, email, newOrg, newUser).0;
    forall i | i in t'.users ensures Backed(t', t'.users[i]) {
      if i in t.users { assert Backed(t, t.users[i]); }
    }
  }

  lemma QuarantineKeeps(t: Tables, data: MembershipData, stamp: Stamp)
    requires Sound(t) && data.id in t.memberships
    ensures Sound(Quarantine(t, t.memberships[data.id], data.id, stamp))
  {
    var t' := Quarantine(t, t.memberships[data.id], data.id, stamp);
    DeactivationKeepsKeys(t, t'.users);
    forall i | i in t'.users ensures Backed(t', t'.users[i]) {
      assert Backed(t, t.users[i]);
    }
  }

  /** The handler's state after the lifecycle row is written and before the projection is. */
  ghost predicate Applying(t: Tables, tx: Tables, data: MembershipData, stamp: Stamp, deleted: bool) {
    && Sound(t)
    && stamp.version == data.version
    && (data.id in t.memberships ==>
          t.memberships[data.id].userId == data.userId && t.memberships[data.id].orgId == data.orgId)
    && ShouldApplyMembership(Lookup(t.memberships, data.id), stamp, data.role)
    && tx == PersistMembership(t, data, stamp, deleted)
  }

  /** Leaving after the lifecycle write is safe when nobody is active on the membership. */
  lemma UnprojectedKeeps(t: Tables, tx: Tables, data: MembershipData, stamp: Stamp, deleted: bool)
    requires Applying(t, tx, data, stamp, deleted)
    requires forall i | i in t.users :: t.users[i].active && t.orgs[t.users[i].orgRow].clerkOrgId.Some? ==>
               t.users[i].membershipId != Some(data.id)
    ensures Sound(tx)
  {
    forall i | i in tx.users ensures Backed(tx, tx.users[i]) {
      assert Backed(t, t.users[i]);
    }
  }

  /** Another person's principal depends on neither the written membership nor the written cursor. */
  lemma OtherPrincipalStaysBacked(t: Tables, t': Tables, u: UserRow, data: MembershipData)
    requires Backed(t, u) && u.clerkId != Some(data.userId)
    requires data.id in t.memberships ==> t.memberships[data.id].userId == data.userId
    requires t'.orgs == t.orgs && t'.orgLifecycles == t.orgLifecycles
    requires forall m | m != data.id :: Lookup(t'.memberships, m) == Lookup(t.memberships, m)
    requires forall k | k != data.userId :: Lookup(t'.cursors, k) == Lookup(t.cursors, k)
    ensures Backed(t', u)
  {
    if u.active && u.orgRow in t.orgs && t.orgs[u.orgRow].clerkOrgId.Some? {
      var m, k := u.membershipId.value, u.clerkId.value;
      assert Lookup(t'.memberships, m) == Lookup(t.memberships, m);
      assert Lookup(t'.cursors, k) == Lookup(t.cursors, k);
    }
  }

  /** A grant's own rows back the principal it is granted to. */
  lemma GrantIsBacked(t': Tables, u: UserRow, data: MembershipData, stamp: Stamp)
    requires u.orgRow in t'.orgs && t'.orgs[u.orgRow].clerkOrgId == Some(data.orgId)
    requires u.clerkId == Some(data.userId) && u.membershipId == Some(data.id)
    requires u.role == data.role || (u.role == Owner && data.role == Admin)
    requires data.orgId in t'.orgLifecycles && !t'.orgLifecycles[data.orgId].deleted
    requires Lookup(t'.memberships, data.id) == Some(Membership(data.userId, data.orgId, stamp, data.role, false))
    requires Lookup(t'.cursors, data.userId) == Some(
               Cursor(false, Some(data.id), Some(data.orgId), Some(stamp.version), Some(stamp.rank), true,
                      data.role, stamp.eventId))
    ensures Backed(t', u)
  {
  }

  lemma OthersStayBacked(t: Tables, t': Tables, data: MembershipData)
    requires Projected(t)
    requires data.id in t.memberships ==> t.memberships[data.id].userId == data.userId
    requires t'.orgs == t.orgs && t'.orgLifecycles == t.orgLifecycles
    requires forall m | m != data.id :: Lookup(t'.memberships, m) == Lookup(t.memberships, m)
    requires forall k | k != data.userId :: Lookup(t'.cursors, k) == Lookup(t.cursors, k)
    ensures forall i | i in t.users && t.users[i].clerkId != Some(data.userId) :: Backed(t', t.users[i])
  {
    forall i | i in t.users && t.users[i].clerkId != Some(data.userId) ensures Backed(t', t.users[i]) {
      assert Backed(t, t.users[i]);
      OtherPrincipalStaysBacked(t, t', t.users[i], data);
    }
  }

  lemma ProjectCreatedKeeps(t: Tables, tx: Tables, data: MembershipData, stamp: Stamp, newRow: RowId,
                            org: RowId, user: Option<RowId>)
    requires Applying(t, tx, data, stamp, false)
    requires org in tx.orgs && tx.orgs[org].clerkOrgId == Some(data.orgId)
    requires data.orgId in tx.orgLifecycles && !tx.orgLifecycles[data.orgId].deleted
    requires user == FindUser(tx.users, data.userId)
    requires user.Some? ==> tx.users[user.value].orgRow == org
    ensures Sound(ProjectCreated(t, tx, data, stamp, newRow, Lookup(tx.cursors, data.userId), org, user).0)
  {
    var cursor := Lookup(tx.cursors, data.userId);
    if !ShouldAdvanceCursor(cursor, data, stamp.rank) {
      StaleCursorMeansInactive(t, data, stamp);
      UnprojectedKeeps(t, tx, data, stamp, false);
    } else {
      var tx' := PersistCursor(tx, data, stamp, true);
      var target := if user.Some? then user.value else newRow;
      var (t', outcome) := ProjectCreated(t, tx, data, stamp, newRow, cursor, org, user);
      if outcome == Committed {
        OthersStayBacked(t, t', data);
        GrantIsBacked(t', t'.users[target], data, stamp);
      }
    }
  }

  /** If the cursor refuses a delivery the lifecycle row accepted, nobody is active on that membership. */
  lemma StaleCursorMeansInactive(t: Tables, data: MembershipData, stamp: Stamp)
    requires Sound(t) && stamp.version == data.version
    requires data.id in t.memberships ==> t.memberships[data.id].userId == data.userId
    requires ShouldApplyMembership(Lookup(t.memberships, data.id), stamp, data.role)
    requires !ShouldAdvanceCursor(Lookup(t.cursors, data.userId), data, stamp.rank)
    ensures forall i | i in t.users :: t.users[i].active && t.orgs[t.users[i].orgRow].clerkOrgId.Some? ==>
              t.users[i].membershipId != Some(data.id)
  {
    forall i | i in t.users && t.users[i].active && t.orgs[t.users[i].orgRow].clerkOrgId.Some?
      ensures t.users[i].membershipId != Some(data.id)
    {
      if t.users[i].membershipId == Some(data.id) { ActiveMembershipIsInStep(t, i, data, stamp); }
    }
  }

  lemma ProjectUpdatedKeeps(t: Tables, tx: Tables, data: MembershipData, stamp: Stamp, org: RowId, user: Option<RowId>)
    requires Applying(t, tx, data, stamp, false)
    requires org in tx.orgs && tx.orgs[org].clerkOrgId == Some(data.orgId)
    requires data.orgId in tx.orgLifecycles && !tx.orgLifecycles[data.orgId].deleted
    requires user == FindUser(tx.users, data.userId)
    requires user.Some? ==> tx.users[user.value].orgRow == org
    ensures Sound(ProjectUpdated(t, tx, data, stamp, Lookup(tx.cursors, data.userId), user).0)
  {
    var (t', outcome) := ProjectUpdated(t, tx, data, stamp, Lookup(tx.cursors, data.userId), user);
    if outcome == Committed {
      OthersStayBacked(t, t', data);
      GrantIsBacked(t', t'.users[user.value], data, stamp);
    }
  }

  lemma ProjectDeletedKeeps(t: Tables, tx: Tables, data: MembershipData, stamp: Stamp, user: Option<RowId>)
    requires Applying(t, tx, data, stamp, true)
    requires user == FindUser(tx.users, data.userId)
    ensures Sound(ProjectDeleted(t, tx, data, stamp, Lookup(tx.cursors, data.userId), user).0)
  {
    var cursor := Lookup(tx.cursors, data.userId);
    if cursor.Some? && cursor.value.membershipId.Some? && cursor.value.membershipId != Some(data.id) {
      forall i | i in t.users && t.users[i].active && t.orgs[t.users[i].orgRow].clerkOrgId.Some?
        ensures t.users[i].membershipId != Some(data.id)
      {
        assert Backed(t, t.users[i]);
      }
      UnprojectedKeeps(t, tx, data, stamp, true);
    } else if cursor.Some? && !ShouldAdvanceCursor(cursor, data, stamp.rank) {
      StaleCursorMeansInactive(t, data, stamp);
      UnprojectedKeeps(t, tx, data, stamp, true);
    } else {
      RevokeKeeps(t, tx, data, stamp, user);
    }
  }

  lemma RevokeKeeps(t: Tables, tx: Tables, data: MembershipData, stamp: Stamp, user: Option<RowId>)
    requires Applying(t, tx, data, stamp, true)
    requires user == FindUser(tx.users, data.userId)
    requires data.userId in tx.cursors && tx.cursors[data.userId].membershipId.Some? ==>
               tx.cursors[data.userId].membershipId == Some(data.id)
    ensures Sound(Revoke(t, tx, data, stamp, user).0)
  {
    var (t', outcome) := Revoke(t, tx, data, stamp, user);
    if outcome == Committed {
      if user.Some? {
        assert Backed(t, t.users[user.value]);
      }
      RevocationKeeps(t, t', data);
    }
  }

  /** Revoking one person leaves everyone else backed and that person inactive. */
  lemma RevocationKeeps(t: Tables, t': Tables, data: MembershipData)
    requires Sound(t) && WellKeyed(t')
    requires data.id in t.memberships ==> t.memberships[data.id].userId == data.userId
    requires t'.orgs == t.orgs && t'.orgLifecycles == t.orgLifecycles
    requires forall m | m != data.id :: Lookup(t'.memberships, m) == Lookup(t.memberships, m)
    requires forall k | k != data.userId :: Lookup(t'.cursors, k) == Lookup(t.cursors, k)
    requires forall i | i in t'.users && t'.users[i].clerkId != Some(data.userId) :: i in t.users && t.users[i] == t'.users[i]
    requires forall i | i in t'.users && t'.users[i].clerkId == Some(data.userId) ::
               !t'.users[i].active || t'.orgs[t'.users[i].orgRow].clerkOrgId.None?
    ensures Sound(t')
  {
    OthersStayBacked(t, t', data);
  }

  lemma ProjectKeeps(t: Tables, tx: Tables, data: MembershipData, kind: EventKind, stamp: Stamp, newRow: RowId)
    requires Applying(t, tx, data, stamp, kind == Deleted)
    ensures Sound(Project(t, tx, data, kind, stamp, newRow).0)
  {
    var cursor := Lookup(tx.cursors, data.userId);
    var lifecycle := Lookup(tx.orgLifecycles, data.orgId);
    var org := FindOrg(tx.orgs, data.orgId);
    var user := FindUser(tx.users, data.userId);
    if (cursor.Some? && cursor.value.deleted)
       || (org.Some? && user.Some? && tx.users[user.value].orgRow != org.value) {
      forall i | i in t.users && t.users[i].active && t.orgs[t.users[i].orgRow].clerkOrgId.Some?
        ensures t.users[i].membershipId != Some(data.id)
      {
        assert Backed(t, t.users[i]);
      }
      UnprojectedKeeps(t, tx, data, stamp, kind == Deleted);
    } else if kind != Deleted && (lifecycle.None? || lifecycle.value.deleted || org.None?) {
    } else {
      match kind
      case Created => ProjectCreatedKeeps(t, tx, data, stamp, newRow, org.value, user);
      case Updated => ProjectUpdatedKeeps(t, tx, data, stamp, org.value, user);
      case Deleted => ProjectDeletedKeeps(t, tx, data, stamp, user);
    }
  }

  lemma MembershipKeeps(t: Tables, data: MembershipData, kind: EventKind, eventId: string,
                        known: Option<(string, string)>, newRow: RowId)
    requires Sound(t)
    ensures Sound(ApplyMembership(t, data, kind, eventId, known, newRow).0)
  {
    var stamp := Stamp(data.version, Rank(kind), eventId);
    var existing := Lookup(t.memberships, data.id);
    if existing.Some? && (existing.value.userId != data.userId || existing.value.orgId != data.orgId) {
      QuarantineKeeps(t, data, stamp);
    } else if ShouldApplyMembership(existing, stamp, data.role) {
      ProjectKeeps(t, PersistMembership(t, data, stamp, kind == Deleted), data, kind, stamp, newRow);
    }
  }

  lemma HandlerKeepsSound(t: Tables, e: Event)
    requires Sound(t)
    ensures Sound(Handle(t, e).0)
  {
    match e
    case OrganizationSynced(id, name, slug, version, created, eventId, newRow) =>
      OrganizationSyncKeeps(t, id, name, slug, version, created, eventId, newRow);
    case OrganizationDeleted(id, seconds, eventId) => OrganizationDeleteKeeps(t, id, seconds, eventId);
    case MembershipDelivered(data, kind, eventId, known, newRow) => MembershipKeeps(t, data, kind, eventId, known, newRow);
    case UserDeleted(id, seconds, eventId) => UserDeleteKeeps(t, id, seconds, eventId);
    case WorkspaceProvisioned(id, name, slug, email, newOrg, newUser) =>
      ProvisioningKeeps(t, id, name, slug, email, newOrg, newUser);
    case CutoverWritten(c) =>
      forall i | i in t.users ensures Backed(Handle(t, e).0, t.users[i]) { assert Backed(t, t.users[i]); }
  }
}
