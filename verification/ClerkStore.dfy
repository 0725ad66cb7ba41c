/** The Clerk webhook service in its own form: rows are written one statement after another
    and a refused delivery puts every row back.  Each handler is proved to take the tables
    exactly where its transaction function takes them. */
module ClerkService {
  import opened Options
  import opened Identity

  class ClerkStore {
    var cutover: Option<Cutover>
    var orgLifecycles: map<string, OrgLifecycle>
    var memberships: map<string, Membership>
    var cursors: map<string, Cursor>
    var orgs: map<RowId, OrgRow>
    var users: map<RowId, UserRow>

    function State(): Tables
      reads this
    {
      Tables(cutover, orgLifecycles, memberships, cursors, orgs, users)
    }

    constructor (t: Tables)
      ensures State() == t
    {
      cutover, orgLifecycles, memberships := t.cutover, t.orgLifecycles, t.memberships;
      cursors, orgs, users := t.cursors, t.orgs, t.users;
    }

    /** Transaction rollback. */
    method Restore(t: Tables)
      modifies this
      ensures State() == t
    {
      cutover, orgLifecycles, memberships := t.cutover, t.orgLifecycles, t.memberships;
      cursors, orgs, users := t.cursors, t.orgs, t.users;
    }

    /** One statement on the users table: an index violation is an error and writes nothing. */
    method UpdateUser(row: RowId, user: UserRow) returns (ok: bool)
      modifies this`users
      ensures ok == UniqueUsers(old(users)[row := user])
      ensures users == if ok then old(users)[row := user] else old(users)
    {
      var next := users[row := user];
      ok := forall i, j | i in next && j in next && i != j :: SharesNoKey(next[i], next[j]);
      if ok { users := next; }
    }

    method SyncOrganization(id: string, name: string, slug: string, version: int, created: bool,
                            eventId: string, newRow: RowId) returns (outcome: Outcome)
      requires WellKeyed(State())
      modifies this
      ensures (State(), outcome) == Identity.SyncOrganization(old(State()), id, name, slug, version, created, eventId, newRow)
    {
      var before := State();
      var gate := AuthorityGate(cutover, version);
      if gate == NotReady { return RolledBack(CutoverNotReady); }
      if gate == TooOld { return Committed; }
      var existing := Lookup(orgLifecycles, id);
      var incoming := Stamp(version, Rank(if created then Created else Updated), eventId);
      if (existing.Some? && existing.value.deleted) || !IsNewerLifecycle(existing, incoming) {
        return Committed;
      }
      orgLifecycles := orgLifecycles[id := OrgLifecycle(incoming, false)];
      var row := FindOrg(orgs, id);
      var next;
      if row.Some? {
        next := orgs[row.value := orgs[row.value].(name := name, slug := slug)];
      } else {
        if newRow in orgs {
          Restore(before);
          return RolledBack(UniqueViolation);
        }
        next := orgs[newRow := OrgRow(Some(id), name, slug)];
      }
      if !(forall i, j | i in next && j in next && i != j :: SharesNoName(next[i], next[j])) {
        Restore(before);
        return RolledBack(UniqueViolation);
      }
      orgs := next;
      return Committed;
    }

    method DeactivateOrganization(id: string, timestampSeconds: int, eventId: string)
      requires WellKeyed(State())
      modifies this
      ensures State() == Identity.DeactivateOrganization(old(State()), id, timestampSeconds, eventId)
    {
      var incoming := Stamp(DeliveryVersion(timestampSeconds), Rank(Deleted), eventId);
      var existing := Lookup(orgLifecycles, id);
      if existing.None? || !existing.value.deleted {
        orgLifecycles := orgLifecycles[id := OrgLifecycle(incoming, true)];
      }
      var row := FindOrg(orgs, id);
      if row.None? { return; }
      users := DeactivateOrgUsers(users, row.value);
    }

    method PersistMembershipLifecycle(data: MembershipData, incoming: Stamp, deleted: bool)
      modifies this`memberships
      ensures State() == PersistMembership(old(State()), data, incoming, deleted)
    {
      memberships := memberships[data.id := Membership(data.userId, data.orgId, incoming, data.role, deleted)];
    }

    method PersistUserCursor(data: MembershipData, incoming: Stamp, active: bool)
      modifies this`cursors
      ensures State() == PersistCursor(old(State()), data, incoming, active)
    {
      var role: Role := Member;
      if active { role := data.role; }
      cursors := cursors[data.userId := Cursor(false, Some(data.id), Some(data.orgId),
        Some(incoming.version), Some(incoming.rank), active, role, incoming.eventId)];
    }

    method QuarantineMembershipTuple(existing: Membership, membershipId: string, incoming: Stamp)
      requires WellKeyed(State())
      modifies this
      ensures State() == Quarantine(old(State()), existing, membershipId, incoming)
    {
      var version := existing.stamp.version;
      if incoming.version > existing.stamp.version { version := incoming.version; }
      memberships := memberships[membershipId :=
        existing.(stamp := Stamp(version, Rank(Deleted), incoming.eventId), role := Member, deleted := true)];

      var cursor := Lookup(cursors, existing.userId);
      if cursor.Some? && cursor.value.membershipId == Some(membershipId) {
        var cursorVersion := 0;
        if cursor.value.version.Some? { cursorVersion := cursor.value.version.value; }
        if version > cursorVersion { cursorVersion := version; }
        cursors := cursors[existing.userId := cursor.value.(version := Some(cursorVersion), rank := Some(Rank(Deleted)),
          active := false, role := Member, eventId := incoming.eventId)];
      }

      var user := FindUser(users, existing.userId);
      if user.Some? && users[user.value].membershipId == Some(membershipId) {
        users := users[user.value := Deactivated(users[user.value])];
      }
    }

    method ApplyMembershipEvent(data: MembershipData, kind: EventKind, eventId: string,
                                known: Option<(string, string)>, newRow: RowId) returns (outcome: Outcome)
      requires WellKeyed(State())
      modifies this
      ensures (State(), outcome) == ApplyMembership(old(State()), data, kind, eventId, known, newRow)
    {
      if kind != Deleted {
        var gate := AuthorityGate(cutover, data.version);
        if gate == NotReady { return RolledBack(CutoverNotReady); }
        if gate == TooOld { return Committed; }
      }
      var existing := Lookup(memberships, data.id);
      var incoming := Stamp(data.version, Rank(kind), eventId);
      if existing.Some? && (existing.value.userId != data.userId || existing.value.orgId != data.orgId) {
        if || known.None?
           || known.value.0 != existing.value.userId
           || known.value.1 != existing.value.orgId
        {
          return RolledBack(IdentityChanged);
        }
        QuarantineMembershipTuple(existing.value, data.id, incoming);
        return Committed;
      }
      if !ShouldApplyMembership(existing, incoming, data.role) { return Committed; }
      outcome := ProjectMembership(data, kind, incoming, newRow);
    }

    /** The handler from its first write on. */
    method ProjectMembership(data: MembershipData, kind: EventKind, incoming: Stamp, newRow: RowId) returns (outcome: Outcome)
      requires WellKeyed(State())
      requires incoming.rank == Rank(kind)
      modifies this
      ensures (State(), outcome) == Project(old(State()), PersistMembership(old(State()), data, incoming, kind == Deleted),
                                            data, kind, incoming, newRow)
    {
      var before := State();
      PersistMembershipLifecycle(data, incoming, kind == Deleted);

      var cursor := Lookup(cursors, data.userId);
      if cursor.Some? && cursor.value.deleted { return Committed; }
      var lifecycle := Lookup(orgLifecycles, data.orgId);
      var org := FindOrg(orgs, data.orgId);
      if kind != Deleted && (lifecycle.None? || lifecycle.value.deleted || org.None?) {
        Restore(before);
        return RolledBack(OrganizationNotSynchronized);
      }
      var user := FindUser(users, data.userId);
      if org.Some? && user.Some? && users[user.value].orgRow != org.value { return Committed; }

      match kind
      case Created => outcome := ProjectCreation(before, data, incoming, newRow, cursor, org.value, user);
      case Updated => outcome := ProjectUpdate(before, data, incoming, cursor, user);
      case Deleted => outcome := ProjectDeletion(before, data, incoming, cursor, user);
    }

    method ProjectCreation(before: Tables, data: MembershipData, incoming: Stamp, newRow: RowId,
                           cursor: Option<Cursor>, org: RowId, user: Option<RowId>) returns (outcome: Outcome)
      requires user.Some? ==> user.value in users
      modifies this
      ensures (State(), outcome) == ProjectCreated(before, old(State()), data, incoming, newRow, cursor, org, user)
    {
      if !ShouldAdvanceCursor(cursor, data, incoming.rank) { return Committed; }
      PersistUserCursor(data, incoming, true);
      var row, next;
      if user.None? {
        if newRow in users {
          Restore(before);
          return RolledBack(UniqueViolation);
        }
        var email := data.email;
        if email == "" { email := data.userId + "@no-email.workforceos.local"; }
        row, next := newRow, UserRow(org, Some(data.userId), Some(data.id), true, data.role, email);
      } else {
        row := user.value;
        next := users[row].(membershipId := Some(data.id), active := true, role := NextLocalRole(users[row].role, data.role));
      }
      outcome := WriteOrRestore(before, row, next);
    }

    method ProjectUpdate(before: Tables, data: MembershipData, incoming: Stamp, cursor: Option<Cursor>, user: Option<RowId>)
      returns (outcome: Outcome)
      requires user.Some? ==> user.value in users
      modifies this
      ensures (State(), outcome) == ProjectUpdated(before, old(State()), data, incoming, cursor, user)
    {
      if || user.None? || cursor.None? || !cursor.value.active
         || cursor.value.membershipId != Some(data.id)
         || !ShouldAdvanceCursor(cursor, data, incoming.rank)
      {
        Restore(before);
        return RolledBack(CreateNotSynchronized);
      }
      PersistUserCursor(data, incoming, true);
      var row := user.value;
      outcome := WriteOrRestore(before, row,
        users[row].(membershipId := Some(data.id), role := NextLocalRole(users[row].role, data.role)));
    }

    method ProjectDeletion(before: Tables, data: MembershipData, incoming: Stamp, cursor: Option<Cursor>, user: Option<RowId>)
      returns (outcome: Outcome)
      requires user.Some? ==> user.value in users
      modifies this
      ensures (State(), outcome) == ProjectDeleted(before, old(State()), data, incoming, cursor, user)
    {
      if cursor.Some? && cursor.value.membershipId.Some? && cursor.value.membershipId != Some(data.id) { return Committed; }
      if cursor.Some? && !ShouldAdvanceCursor(cursor, data, incoming.rank) { return Committed; }
      PersistUserCursor(data, incoming, false);
      if user.None? { return Committed; }
      var row := user.value;
      if users[row].membershipId.Some? && users[row].membershipId != Some(data.id) { return Committed; }
      outcome := WriteOrRestore(before, row, users[row].(membershipId := Some(data.id), active := false, role := Member));
    }

    /** A write that breaks an index takes the whole transaction back. */
    method WriteOrRestore(before: Tables, row: RowId, user: UserRow) returns (outcome: Outcome)
      modifies this
      ensures (State(), outcome) == WriteUsers(before, old(State()), old(users)[row := user])
    {
      var written := UpdateUser(row, user);
      if written { return Committed; }
      Restore(before);
      return RolledBack(UniqueViolation);
    }

    method DeactivateDeletedUser(clerkUserId: string, timestampSeconds: int, eventId: string)
      modifies this
      ensures State() == Identity.DeactivateDeletedUser(old(State()), clerkUserId, timestampSeconds, eventId)
    {
      var version := DeliveryVersion(timestampSeconds);
      if clerkUserId in cursors {
        cursors := cursors[clerkUserId := cursors[clerkUserId].(deleted := true, active := false, role := Member,
          version := Some(version), rank := Some(Rank(Deleted)), eventId := eventId)];
      } else {
        cursors := cursors[clerkUserId :=
          Cursor(true, None, None, Some(version), Some(Rank(Deleted)), false, Member, eventId)];
      }
      users := DeactivateClerkUser(users, clerkUserId);
    }
  }
}
