/** What the identity handlers do and when they refuse, told from the columns of the rows. */
module IdentityEffects {
  import opened Options
  import opened Identity

  // ---------------------------------------------------------------- when a delivery counts

  /** A complete cutover record: evidence is sha256: and 64 small hexadecimal digits, the counts are
      safe and not negative, and the minimum lies within a day of when it was established. */
  ghost predicate Armed(cutover: Option<Cutover>) {
    && cutover.Some?
    && var c := cutover.value;
    && c.ready && 1 <= c.minimumVersion <= 9007199254740991
    && c.establishedAt.Some?
    && c.establishedAt.value - 86400000 <= c.minimumVersion <= c.establishedAt.value + 86400000
    && c.evidenceHash.Some? && IsEvidence(c.evidenceHash.value)
    && 0 <= c.expectedOrganizations <= 9007199254740991
    && 0 <= c.expectedMemberships <= 9007199254740991
    && 0 <= c.expectedUsers <= 9007199254740991
  }

  ghost predicate IsEvidence(hash: string) {
    exists digits :: hash == "sha256:" + digits && |digits| == 64 && forall d | d in digits :: d in "0123456789abcdef"
  }

  /** Grants count from the armed minimum on; deletions always. */
  ghost predicate PastGate(t: Tables, data: MembershipData, kind: EventKind) {
    kind != Deleted ==> Armed(t.cutover) && data.version >= t.cutover.value.minimumVersion
  }

  ghost predicate LessAuthority(r: Role, s: Role) {
    match r
    case Member => s != Member
    case Manager => s == Admin || s == Owner
    case Admin => s == Owner
    case Owner => false
  }

  /** created, updated, deleted, in this order within one version. */
  ghost function Order(kind: EventKind): nat {
    match kind case Created => 1 case Updated => 2 case Deleted => 3
  }

  ghost predicate TupleChanged(t: Tables, data: MembershipData) {
    data.id in t.memberships && (t.memberships[data.id].userId != data.userId || t.memberships[data.id].orgId != data.orgId)
  }

  /** Newer than what is stored of the membership; a tie goes to less authority under another event id. */
  ghost predicate Accepted(t: Tables, data: MembershipData, kind: EventKind, eventId: string) {
    data.id in t.memberships ==>
      var m := t.memberships[data.id];
      && !m.deleted
      && (|| data.version > m.stamp.version
          || (data.version == m.stamp.version && Order(kind) > m.stamp.rank)
          || (data.version == m.stamp.version && Order(kind) == m.stamp.rank
              && eventId != m.stamp.eventId && LessAuthority(data.role, m.role)))
  }

  /** Newer than what is stored of the person; a tie on the same membership goes to less authority. */
  ghost predicate CursorMoves(t: Tables, data: MembershipData, kind: EventKind) {
    data.userId in t.cursors ==>
      var c := t.cursors[data.userId];
      && !c.deleted
      && (|| c.version.None?
          || data.version > c.version.value
          || (data.version == c.version.value && (c.rank.Some? ==> Order(kind) > c.rank.value))
          || (data.version == c.version.value && c.rank == Some(Order(kind))
              && c.membershipId == Some(data.id) && LessAuthority(data.role, c.role)))
  }

  ghost predicate UserAlive(t: Tables, user: string) {
    user in t.cursors ==> !t.cursors[user].deleted
  }

  ghost predicate IsPerson(t: Tables, i: RowId, user: string) {
    i in t.users && t.users[i].clerkId == Some(user)
  }

  ghost predicate Known(t: Tables, user: string) {
    exists i :: IsPerson(t, i, user)
  }

  ghost predicate IsTenant(t: Tables, o: RowId, org: string) {
    o in t.orgs && t.orgs[o].clerkOrgId == Some(org)
  }

  ghost predicate OrgLive(t: Tables, org: string) {
    org in t.orgLifecycles && !t.orgLifecycles[org].deleted && exists o :: IsTenant(t, o, org)
  }

  /** The person already belongs to another local organization. */
  ghost predicate Elsewhere(t: Tables, data: MembershipData) {
    exists i, o :: IsPerson(t, i, data.userId) && IsTenant(t, o, data.orgId) && t.users[i].orgRow != o
  }

  /** The lifecycle row is to be written. */
  ghost predicate Arrives(t: Tables, data: MembershipData, kind: EventKind, eventId: string) {
    PastGate(t, data, kind) && !TupleChanged(t, data) && Accepted(t, data, kind, eventId)
  }

  /** The person's rows are to be written, unless that is out of order or out of step. */
  ghost predicate Reaches(t: Tables, data: MembershipData, kind: EventKind, eventId: string) {
    Arrives(t, data, kind, eventId) && UserAlive(t, data.userId) && (kind != Deleted ==> OrgLive(t, data.orgId)) && !Elsewhere(t, data)
  }

  ghost predicate Grants(t: Tables, data: MembershipData, eventId: string) {
    Reaches(t, data, Created, eventId) && CursorMoves(t, data, Created)
  }

  /** An update only moves a person who is active on this very membership. */
  ghost predicate InStep(t: Tables, data: MembershipData) {
    && Known(t, data.userId) && data.userId in t.cursors
    && t.cursors[data.userId].active && t.cursors[data.userId].membershipId == Some(data.id)
    && CursorMoves(t, data, Updated)
  }

  /** A delete only revokes the person's current membership, if any is known. */
  ghost predicate Revokes(t: Tables, data: MembershipData, eventId: string) {
    && Reaches(t, data, Deleted, eventId) && CursorMoves(t, data, Deleted)
    && (data.userId in t.cursors && t.cursors[data.userId].membershipId.Some? ==>
          t.cursors[data.userId].membershipId == Some(data.id))
  }

  ghost predicate OnThisMembership(t: Tables, i: RowId, data: MembershipData) {
    IsPerson(t, i, data.userId) && (t.users[i].membershipId.None? || t.users[i].membershipId == Some(data.id))
  }

  function EmailOf(data: MembershipData): string {
    if data.email == "" then data.userId + "@no-email.workforceos.local" else data.email
  }

  /** Someone else's row already carries the membership id. */
  ghost predicate MembershipTaken(t: Tables, data: MembershipData) {
    exists i: RowId :: i in t.users && t.users[i].clerkId != Some(data.userId) && t.users[i].membershipId == Some(data.id)
  }

  ghost predicate NewRowTaken(t: Tables, data: MembershipData, newRow: RowId) {
    newRow in t.users || exists i: RowId :: i in t.users && t.users[i].email == EmailOf(data)
  }

  // ---------------------------------------------------------------- the same, as the code asks it

  lemma EvidenceMeans(hash: string)
    ensures IsSha256Evidence(hash) <==> IsEvidence(hash)
  {
    if IsSha256Evidence(hash) {
      var digits := hash[7..];
      forall d | d in digits ensures d in "0123456789abcdef" {
        var i :| 0 <= i < 64 && digits[i] == d;
        assert d == hash[7 + i];
        HexDigits(d);
      }
      assert hash == "sha256:" + digits;
    }
    if IsEvidence(hash) {
      var digits :| hash == "sha256:" + digits && |digits| == 64 && forall d | d in digits :: d in "0123456789abcdef";
      forall i | 7 <= i < 71 ensures '0' <= hash[i] <= '9' || 'a' <= hash[i] <= 'f' {
        assert hash[i] == digits[i - 7] && digits[i - 7] in digits;
        HexDigits(hash[i]);
      }
    }
  }

  lemma HexDigits(d: char)
    ensures d in "0123456789abcdef" <==> '0' <= d <= '9' || 'a' <= d <= 'f'
  {
    var all := "0123456789abcdef";
    assert forall i | 0 <= i < 10 :: all[i] as int == 48 + i;
    assert forall i | 10 <= i < 16 :: all[i] as int == 87 + i;
    if '0' <= d <= '9' {
      assert '0' as int == 48;
      assert all[d as int - 48] == d;
    }
    if 'a' <= d <= 'f' {
      assert 'a' as int == 97;
      assert all[d as int - 87] == d;
    }
  }

  lemma GateMeans(t: Tables, data: MembershipData, kind: EventKind)
    ensures CutoverReady(t.cutover) <==> Armed(t.cutover)
    ensures PastGate(t, data, kind) <==> kind == Deleted || AuthorityGate(t.cutover, data.version) == Open
  {
    if t.cutover.Some? && t.cutover.value.evidenceHash.Some? { EvidenceMeans(t.cutover.value.evidenceHash.value); }
  }

  lemma AcceptedMeans(t: Tables, data: MembershipData, kind: EventKind, eventId: string)
    ensures Accepted(t, data, kind, eventId) <==>
      ShouldApplyMembership(Lookup(t.memberships, data.id), Stamp(data.version, Rank(kind), eventId), data.role)
    ensures CursorMoves(t, data, kind) <==> ShouldAdvanceCursor(Lookup(t.cursors, data.userId), data, Rank(kind))
  {
  }

  lemma PeopleMean(t: Tables, data: MembershipData)
    requires WellKeyed(t)
    ensures FindUser(t.users, data.userId).Some? <==> Known(t, data.userId)
    ensures forall i: RowId | IsPerson(t, i, data.userId) :: FindUser(t.users, data.userId) == Some(i)
    ensures forall o: RowId | IsTenant(t, o, data.orgId) :: FindOrg(t.orgs, data.orgId) == Some(o)
    ensures FindOrg(t.orgs, data.orgId).Some? ==> IsTenant(t, FindOrg(t.orgs, data.orgId).value, data.orgId)
    ensures var org, user := FindOrg(t.orgs, data.orgId), FindUser(t.users, data.userId);
      Elsewhere(t, data) <==> org.Some? && user.Some? && t.users[user.value].orgRow != org.value
  {
    var org, user := FindOrg(t.orgs, data.orgId), FindUser(t.users, data.userId);
    if user.Some? { assert IsPerson(t, user.value, data.userId); }
    if org.Some? { assert IsTenant(t, org.value, data.orgId); }
  }

  // ---------------------------------------------------------------- keys that stay free

  lemma PersonRowIsFree(t: Tables, i: RowId, u: UserRow, data: MembershipData)
    requires UniqueUsers(t.users) && IsPerson(t, i, data.userId)
    requires u.clerkId == Some(data.userId) && u.email == t.users[i].email && u.membershipId == Some(data.id)
    ensures UniqueUsers(t.users[i := u]) <==> !MembershipTaken(t, data)
  {
    var users := t.users[i := u];
    forall j | j in t.users && j != i ensures t.users[j].clerkId != Some(data.userId) && t.users[j].email != u.email {
      assert SharesNoKey(t.users[i], t.users[j]);
    }
    if !MembershipTaken(t, data) {
      forall a, b | a in users && b in users && a != b ensures SharesNoKey(users[a], users[b]) {
        if a != i && b != i { assert SharesNoKey(t.users[a], t.users[b]); }
      }
    } else {
      var j :| j in t.users && t.users[j].clerkId != Some(data.userId) && t.users[j].membershipId == Some(data.id);
      assert !SharesNoKey(users[i], users[j]);
    }
  }

  lemma NewRowIsFree(t: Tables, i: RowId, u: UserRow, data: MembershipData)
    requires UniqueUsers(t.users) && !Known(t, data.userId) && i !in t.users
    requires u.clerkId == Some(data.userId) && u.email == EmailOf(data) && u.membershipId == Some(data.id)
    ensures UniqueUsers(t.users[i := u]) <==> !MembershipTaken(t, data) && !NewRowTaken(t, data, i)
  {
    var users := t.users[i := u];
    forall j | j in t.users ensures t.users[j].clerkId != Some(data.userId) { assert !IsPerson(t, j, data.userId); }
    if !MembershipTaken(t, data) && !NewRowTaken(t, data, i) {
      forall a, b | a in users && b in users && a != b ensures SharesNoKey(users[a], users[b]) {
        if a != i && b != i { assert SharesNoKey(t.users[a], t.users[b]); }
      }
    } else if MembershipTaken(t, data) {
      var j :| j in t.users && t.users[j].clerkId != Some(data.userId) && t.users[j].membershipId == Some(data.id);
      assert !SharesNoKey(users[i], users[j]);
    } else {
      var j :| j in t.users && t.users[j].email == EmailOf(data);
      assert !SharesNoKey(users[i], users[j]);
    }
  }

  // ---------------------------------------------------------------- refusals

  /** Why a delivery is rolled back. */
  ghost predicate RefusedFor(t: Tables, data: MembershipData, kind: EventKind, eventId: string,
                             known: Option<(string, string)>, newRow: RowId, reason: Reason) {
    match reason
    case CutoverNotReady => kind != Deleted && !Armed(t.cutover)
    case IdentityChanged =>
      && PastGate(t, data, kind) && TupleChanged(t, data)
      && known != Some((t.memberships[data.id].userId, t.memberships[data.id].orgId))
    case OrganizationNotSynchronized =>
      kind != Deleted && Arrives(t, data, kind, eventId) && UserAlive(t, data.userId) && !OrgLive(t, data.orgId)
    case CreateNotSynchronized =>
      kind == Updated && Reaches(t, data, Updated, eventId) && !InStep(t, data)
    case UniqueViolation =>
      if kind == Created then
        Grants(t, data, eventId) && (MembershipTaken(t, data) || (!Known(t, data.userId) && NewRowTaken(t, data, newRow)))
      else if kind == Updated then Reaches(t, data, Updated, eventId) && InStep(t, data) && MembershipTaken(t, data)
      else Revokes(t, data, eventId) && MembershipTaken(t, data) && exists i :: OnThisMembership(t, i, data)
    case _ => false
  }

  lemma ReachesMeans(t: Tables, data: MembershipData, kind: EventKind, eventId: string)
    requires WellKeyed(t) && Arrives(t, data, kind, eventId)
    ensures var org, user, life := FindOrg(t.orgs, data.orgId), FindUser(t.users, data.userId), Lookup(t.orgLifecycles, data.orgId);
      && (UserAlive(t, data.userId) <==> !(data.userId in t.cursors && t.cursors[data.userId].deleted))
      && (OrgLive(t, data.orgId) <==> life.Some? && !life.value.deleted && org.Some?)
      && (Elsewhere(t, data) <==> org.Some? && user.Some? && t.users[user.value].orgRow != org.value)
  {
    PeopleMean(t, data);
  }

  /** What a created delivery that reaches the person's rows leaves, unless it is refused. */
  ghost predicate Granted(t: Tables, t': Tables, data: MembershipData, eventId: string, newRow: RowId) {
    && Lookup(t'.cursors, data.userId) ==
         Some(Cursor(false, Some(data.id), Some(data.orgId), Some(data.version), Some(1), true, data.role, eventId))
    && (forall k | k != data.userId :: Lookup(t'.cursors, k) == Lookup(t.cursors, k))
    && (Known(t, data.userId) ==> t'.users.Keys == t.users.Keys)
    && (!Known(t, data.userId) ==>
          && t'.users.Keys == t.users.Keys + {newRow} && newRow !in t.users && IsTenant(t, t'.users[newRow].orgRow, data.orgId)
          && t'.users[newRow] == UserRow(t'.users[newRow].orgRow, Some(data.userId), Some(data.id), true, data.role, EmailOf(data)))
    && forall i | i in t.users ::
         t'.users[i] == if IsPerson(t, i, data.userId)
           then t.users[i].(membershipId := Some(data.id), active := true, role := RoleAfter(t.users[i].role, data.role))
           else t.users[i]
  }

  /** The local owner stays owner as long as Clerk calls her an administrator. */
  ghost function RoleAfter(local: Role, incoming: Role): Role {
    match (local, incoming)
    case (Owner, Admin) => Owner
    case _ => incoming
  }

  ghost predicate SameButMembership(t: Tables, t': Tables, id: string) {
    && t'.cutover == t.cutover && t'.orgLifecycles == t.orgLifecycles && t'.orgs == t.orgs
    && forall k | k != id :: Lookup(t'.memberships, k) == Lookup(t.memberships, k)
  }

  /** The membership row of an accepted delivery. */
  ghost predicate Stored(t': Tables, data: MembershipData, kind: EventKind, eventId: string) {
    Lookup(t'.memberships, data.id) ==
      Some(Membership(data.userId, data.orgId, Stamp(data.version, Order(kind), eventId), data.role, kind == Deleted))
  }

  /** The tables once the lifecycle row of an accepted delivery is written. */
  ghost function AfterStore(t: Tables, data: MembershipData, kind: EventKind, eventId: string): Tables {
    PersistMembership(t, data, Stamp(data.version, Rank(kind), eventId), kind == Deleted)
  }

  lemma StoreStores(t: Tables, data: MembershipData, kind: EventKind, eventId: string)
    ensures var tx := AfterStore(t, data, kind, eventId);
      && SameButMembership(t, tx, data.id) && Stored(tx, data, kind, eventId)
      && tx.users == t.users && tx.cursors == t.cursors
  {
  }

  lemma ReachedIsProjected(t: Tables, data: MembershipData, kind: EventKind, eventId: string,
                           known: Option<(string, string)>, newRow: RowId)
    requires WellKeyed(t) && Reaches(t, data, kind, eventId)
    ensures var tx, stamp := AfterStore(t, data, kind, eventId), Stamp(data.version, Rank(kind), eventId);
      var cursor, user := Lookup(t.cursors, data.userId), FindUser(t.users, data.userId);
      ApplyMembership(t, data, kind, eventId, known, newRow) ==
        match kind
        case Created => ProjectCreated(t, tx, data, stamp, newRow, cursor, FindOrg(t.orgs, data.orgId).value, user)
        case Updated => ProjectUpdated(t, tx, data, stamp, cursor, user)
        case Deleted => ProjectDeleted(t, tx, data, stamp, cursor, user)
  {
    GateMeans(t, data, kind);
    AcceptedMeans(t, data, kind, eventId);
    ReachesMeans(t, data, kind, eventId);
  }

  lemma KnownIsGranted(t: Tables, data: MembershipData, eventId: string, known: Option<(string, string)>, newRow: RowId, i: RowId)
    requires WellKeyed(t) && Grants(t, data, eventId) && IsPerson(t, i, data.userId)
    ensures var (t', outcome) := ApplyMembership(t, data, Created, eventId, known, newRow);
      if MembershipTaken(t, data) then outcome == RolledBack(UniqueViolation) && t' == t
      else outcome == Committed && SameButMembership(t, t', data.id) && Stored(t', data, Created, eventId)
           && Granted(t, t', data, eventId, newRow)
  {
    ReachedIsProjected(t, data, Created, eventId, known, newRow);
    AcceptedMeans(t, data, Created, eventId);
    PeopleMean(t, data);
    StoreStores(t, data, Created, eventId);
    PersonRowIsFree(t, i, t.users[i].(membershipId := Some(data.id), active := true,
      role := NextLocalRole(t.users[i].role, data.role)), data);
  }

  lemma UnknownIsGranted(t: Tables, data: MembershipData, eventId: string, known: Option<(string, string)>, newRow: RowId)
    requires WellKeyed(t) && Grants(t, data, eventId) && !Known(t, data.userId)
    ensures var (t', outcome) := ApplyMembership(t, data, Created, eventId, known, newRow);
      if MembershipTaken(t, data) || NewRowTaken(t, data, newRow) then outcome == RolledBack(UniqueViolation) && t' == t
      else outcome == Committed && SameButMembership(t, t', data.id) && Stored(t', data, Created, eventId)
           && Granted(t, t', data, eventId, newRow)
  {
    ReachedIsProjected(t, data, Created, eventId, known, newRow);
    AcceptedMeans(t, data, Created, eventId);
    PeopleMean(t, data);
    StoreStores(t, data, Created, eventId);
    forall i ensures !IsPerson(t, i, data.userId) {}
    if newRow !in t.users {
      NewRowIsFree(t, newRow, UserRow(FindOrg(t.orgs, data.orgId).value, Some(data.userId), Some(data.id), true, data.role,
        EmailOf(data)), data);
    }
  }

  /** A created delivery that reaches a person makes that person, and nobody else, an active member
      with the delivered role; it is refused exactly when a key is taken, and only recorded when
      something newer is known of the person. */
  lemma CreatedDoes(t: Tables, data: MembershipData, eventId: string, known: Option<(string, string)>, newRow: RowId)
    requires WellKeyed(t) && Reaches(t, data, Created, eventId)
    ensures var (t', outcome) := ApplyMembership(t, data, Created, eventId, known, newRow);
      if !Grants(t, data, eventId) then
        outcome == Committed && SameButMembership(t, t', data.id) && Stored(t', data, Created, eventId)
        && t'.users == t.users && t'.cursors == t.cursors
      else if RefusedFor(t, data, Created, eventId, known, newRow, UniqueViolation) then
        outcome == RolledBack(UniqueViolation) && t' == t
      else
        outcome == Committed && SameButMembership(t, t', data.id) && Stored(t', data, Created, eventId)
        && Granted(t, t', data, eventId, newRow)
  {
    if !Grants(t, data, eventId) {
      ReachedIsProjected(t, data, Created, eventId, known, newRow);
      AcceptedMeans(t, data, Created, eventId);
      StoreStores(t, data, Created, eventId);
    } else if i :| IsPerson(t, i, data.userId) {
      KnownIsGranted(t, data, eventId, known, newRow, i);
    } else {
      UnknownIsGranted(t, data, eventId, known, newRow);
    }
  }

  /** What an updated delivery leaves: the role of an active member follows it. */
  ghost predicate RoleMoved(t: Tables, t': Tables, data: MembershipData, eventId: string) {
    && Lookup(t'.cursors, data.userId) ==
         Some(Cursor(false, Some(data.id), Some(data.orgId), Some(data.version), Some(2), true, data.role, eventId))
    && (forall k | k != data.userId :: Lookup(t'.cursors, k) == Lookup(t.cursors, k))
    && t'.users.Keys == t.users.Keys
    && forall i | i in t.users ::
         t'.users[i] == if IsPerson(t, i, data.userId)
           then t.users[i].(membershipId := Some(data.id), role := RoleAfter(t.users[i].role, data.role))
           else t.users[i]
  }

  /** An updated delivery changes the role of a member who is in step, and is refused for anyone else. */
  lemma UpdatedDoes(t: Tables, data: MembershipData, eventId: string, known: Option<(string, string)>, newRow: RowId)
    requires WellKeyed(t) && Reaches(t, data, Updated, eventId)
    ensures var (t', outcome) := ApplyMembership(t, data, Updated, eventId, known, newRow);
      if !InStep(t, data) then outcome == RolledBack(CreateNotSynchronized) && t' == t
      else if MembershipTaken(t, data) then outcome == RolledBack(UniqueViolation) && t' == t
      else outcome == Committed && SameButMembership(t, t', data.id) && Stored(t', data, Updated, eventId)
           && RoleMoved(t, t', data, eventId)
  {
    ReachedIsProjected(t, data, Updated, eventId, known, newRow);
    AcceptedMeans(t, data, Updated, eventId);
    PeopleMean(t, data);
    StoreStores(t, data, Updated, eventId);
    if i: RowId :| IsPerson(t, i, data.userId) {
      PersonRowIsFree(t, i, t.users[i].(membershipId := Some(data.id), role := NextLocalRole(t.users[i].role, data.role)), data);
    }
  }

  /** What a deleted delivery leaves: the cursor and the person on this membership lose all authority. */
  ghost predicate Revoked(t: Tables, t': Tables, data: MembershipData, eventId: string) {
    && Lookup(t'.cursors, data.userId) ==
         Some(Cursor(false, Some(data.id), Some(data.orgId), Some(data.version), Some(3), false, Member, eventId))
    && (forall k | k != data.userId :: Lookup(t'.cursors, k) == Lookup(t.cursors, k))
    && t'.users.Keys == t.users.Keys
    && forall i | i in t.users ::
         t'.users[i] == if OnThisMembership(t, i, data)
           then t.users[i].(membershipId := Some(data.id), active := false, role := Member)
           else t.users[i]
  }

  lemma KnownIsRevoked(t: Tables, data: MembershipData, eventId: string, known: Option<(string, string)>, newRow: RowId, i: RowId)
    requires WellKeyed(t) && Revokes(t, data, eventId) && IsPerson(t, i, data.userId)
    ensures var (t', outcome) := ApplyMembership(t, data, Deleted, eventId, known, newRow);
      if MembershipTaken(t, data) && OnThisMembership(t, i, data) then outcome == RolledBack(UniqueViolation) && t' == t
      else outcome == Committed && SameButMembership(t, t', data.id) && Stored(t', data, Deleted, eventId)
           && Revoked(t, t', data, eventId)
  {
    ReachedIsProjected(t, data, Deleted, eventId, known, newRow);
    AcceptedMeans(t, data, Deleted, eventId);
    PeopleMean(t, data);
    StoreStores(t, data, Deleted, eventId);
    assert forall j: RowId | IsPerson(t, j, data.userId) :: j == i;
    if OnThisMembership(t, i, data) {
      PersonRowIsFree(t, i, Deactivated(t.users[i]).(membershipId := Some(data.id)), data);
    }
  }

  lemma UnknownIsRevoked(t: Tables, data: MembershipData, eventId: string, known: Option<(string, string)>, newRow: RowId)
    requires WellKeyed(t) && Revokes(t, data, eventId) && !Known(t, data.userId)
    ensures var (t', outcome) := ApplyMembership(t, data, Deleted, eventId, known, newRow);
      outcome == Committed && SameButMembership(t, t', data.id) && Stored(t', data, Deleted, eventId)
      && Revoked(t, t', data, eventId)
  {
    ReachedIsProjected(t, data, Deleted, eventId, known, newRow);
    AcceptedMeans(t, data, Deleted, eventId);
    PeopleMean(t, data);
    StoreStores(t, data, Deleted, eventId);
    forall i: RowId ensures !OnThisMembership(t, i, data) { assert !IsPerson(t, i, data.userId); }
  }

  /** A deleted delivery revokes the person's current membership; for an older one it is recorded only. */
  lemma DeletedDoes(t: Tables, data: MembershipData, eventId: string, known: Option<(string, string)>, newRow: RowId)
    requires WellKeyed(t) && Reaches(t, data, Deleted, eventId)
    ensures var (t', outcome) := ApplyMembership(t, data, Deleted, eventId, known, newRow);
      if !Revokes(t, data, eventId) then
        outcome == Committed && SameButMembership(t, t', data.id) && Stored(t', data, Deleted, eventId)
        && t'.users == t.users && t'.cursors == t.cursors
      else if MembershipTaken(t, data) && (exists i :: OnThisMembership(t, i, data)) then
        outcome == RolledBack(UniqueViolation) && t' == t
      else outcome == Committed && SameButMembership(t, t', data.id) && Stored(t', data, Deleted, eventId)
           && Revoked(t, t', data, eventId)
  {
    if !Revokes(t, data, eventId) {
      ReachedIsProjected(t, data, Deleted, eventId, known, newRow);
      AcceptedMeans(t, data, Deleted, eventId);
      StoreStores(t, data, Deleted, eventId);
    } else if Known(t, data.userId) {
      var i: RowId :| IsPerson(t, i, data.userId);
      KnownIsRevoked(t, data, eventId, known, newRow, i);
      PeopleMean(t, data);
      assert forall j: RowId | OnThisMembership(t, j, data) :: IsPerson(t, j, data.userId) && j == i;
    } else {
      UnknownIsRevoked(t, data, eventId, known, newRow);
      assert forall i: RowId | OnThisMembership(t, i, data) :: IsPerson(t, i, data.userId);
    }
  }

  /** What quarantine leaves of a membership whose tuple changed. */
  ghost predicate Quarantined(t: Tables, t': Tables, data: MembershipData, eventId: string)
    requires TupleChanged(t, data)
  {
    var m := t.memberships[data.id];
    var version := if data.version > m.stamp.version then data.version else m.stamp.version;
    && Lookup(t'.memberships, data.id) == Some(Membership(m.userId, m.orgId, Stamp(version, 3, eventId), Member, true))
    && t'.cursors.Keys == t.cursors.Keys
    && (forall k | k in t.cursors ::
          if k == m.userId && t.cursors[k].membershipId == Some(data.id) then
            && t'.cursors[k].rank == Some(3) && !t'.cursors[k].active && t'.cursors[k].role == Member && t'.cursors[k].eventId == eventId
            && t'.cursors[k].version == (
                 if t.cursors[k].version.Some? && t.cursors[k].version.value > version then t.cursors[k].version
                 else if t.cursors[k].version.None? && version < 0 then Some(0) else Some(version))
            && t'.cursors[k].deleted == t.cursors[k].deleted && t'.cursors[k].membershipId == t.cursors[k].membershipId
            && t'.cursors[k].orgId == t.cursors[k].orgId
          else t'.cursors[k] == t.cursors[k])
    && t'.users.Keys == t.users.Keys
    && forall i | i in t.users ::
         t'.users[i] == if IsPerson(t, i, m.userId) && t.users[i].membershipId == Some(data.id)
           then t.users[i].(active := false, role := Member) else t.users[i]
  }

  lemma QuarantineDoes(t: Tables, data: MembershipData, kind: EventKind, eventId: string)
    requires WellKeyed(t) && TupleChanged(t, data)
    ensures var t' := Quarantine(t, t.memberships[data.id], data.id, Stamp(data.version, Rank(kind), eventId));
      SameButMembership(t, t', data.id) && Quarantined(t, t', data, eventId)
  {
    var m := t.memberships[data.id];
    var found := FindUser(t.users, m.userId);
    forall i: RowId | IsPerson(t, i, m.userId) ensures found == Some(i) {}
    assert found.Some? ==> IsPerson(t, found.value, m.userId);
  }

  /** A delivery that renames the tuple of its membership is quarantined, if the tuple it found is the
      one it locked; the person and organization it names get nothing. */
  lemma ChangedTupleIsQuarantined(t: Tables, data: MembershipData, kind: EventKind, eventId: string,
                                  known: Option<(string, string)>, newRow: RowId)
    requires WellKeyed(t) && PastGate(t, data, kind) && TupleChanged(t, data)
    ensures var (t', outcome) := ApplyMembership(t, data, kind, eventId, known, newRow);
      if known == Some((t.memberships[data.id].userId, t.memberships[data.id].orgId)) then
        outcome == Committed && SameButMembership(t, t', data.id) && Quarantined(t, t', data, eventId)
      else outcome == RolledBack(IdentityChanged) && t' == t
  {
    GateMeans(t, data, kind);
    QuarantineDoes(t, data, kind, eventId);
  }

  /** Everything a delivery that does not reach the person's rows does. */
  lemma OtherDeliveriesDo(t: Tables, data: MembershipData, kind: EventKind, eventId: string,
                          known: Option<(string, string)>, newRow: RowId)
    requires WellKeyed(t) && !Reaches(t, data, kind, eventId) && !(PastGate(t, data, kind) && TupleChanged(t, data))
    ensures var (t', outcome) := ApplyMembership(t, data, kind, eventId, known, newRow);
      if kind != Deleted && !Armed(t.cutover) then outcome == RolledBack(CutoverNotReady) && t' == t
      else if !Arrives(t, data, kind, eventId) then outcome == Committed && t' == t
      else if UserAlive(t, data.userId) && kind != Deleted && !OrgLive(t, data.orgId) then
        outcome == RolledBack(OrganizationNotSynchronized) && t' == t
      else outcome == Committed && SameButMembership(t, t', data.id) && Stored(t', data, kind, eventId)
           && t'.users == t.users && t'.cursors == t.cursors
  {
    GateMeans(t, data, kind);
    AcceptedMeans(t, data, kind, eventId);
    if Arrives(t, data, kind, eventId) {
      ReachesMeans(t, data, kind, eventId);
      StoreStores(t, data, kind, eventId);
    }
  }

  /** Exactly which deliveries are rolled back, and for which reason; a rollback changes nothing. */
  lemma RefusedExactly(t: Tables, data: MembershipData, kind: EventKind, eventId: string,
                       known: Option<(string, string)>, newRow: RowId, reason: Reason)
    requires WellKeyed(t)
    ensures ApplyMembership(t, data, kind, eventId, known, newRow).1 == RolledBack(reason)
       <==> RefusedFor(t, data, kind, eventId, known, newRow, reason)
    ensures ApplyMembership(t, data, kind, eventId, known, newRow).1 == RolledBack(reason) ==>
      ApplyMembership(t, data, kind, eventId, known, newRow).0 == t
  {
    if PastGate(t, data, kind) && TupleChanged(t, data) {
      ChangedTupleIsQuarantined(t, data, kind, eventId, known, newRow);
    } else if !Reaches(t, data, kind, eventId) {
      OtherDeliveriesDo(t, data, kind, eventId, known, newRow);
    } else {
      ReachedRefusals(t, data, kind, eventId, known, newRow, reason);
    }
  }

  lemma ReachedRefusals(t: Tables, data: MembershipData, kind: EventKind, eventId: string,
                        known: Option<(string, string)>, newRow: RowId, reason: Reason)
    requires WellKeyed(t) && Reaches(t, data, kind, eventId)
    ensures ApplyMembership(t, data, kind, eventId, known, newRow).1 == RolledBack(reason)
       <==> RefusedFor(t, data, kind, eventId, known, newRow, reason)
    ensures ApplyMembership(t, data, kind, eventId, known, newRow).1 == RolledBack(reason) ==>
      ApplyMembership(t, data, kind, eventId, known, newRow).0 == t
  {
    match kind
    case Created => CreatedDoes(t, data, eventId, known, newRow);
    case Updated => UpdatedDoes(t, data, eventId, known, newRow);
    case Deleted => DeletedDoes(t, data, eventId, known, newRow);
  }

  // ---------------------------------------------------------------- organizations, people, workspaces

  /** Some other organization carries the name in the address. */
  ghost predicate SlugTaken(t: Tables, org: string, slug: string) {
    exists o: RowId :: o in t.orgs && t.orgs[o].clerkOrgId != Some(org) && t.orgs[o].slug == slug
  }

  ghost predicate HasTenant(t: Tables, org: string) {
    exists o :: IsTenant(t, o, org)
  }

  /** Newer than what is stored of the organization, which is not deleted. */
  ghost predicate OrgMoves(t: Tables, id: string, version: int, created: bool) {
    id in t.orgLifecycles ==>
      var o := t.orgLifecycles[id];
      && !o.deleted
      && (version > o.stamp.version || (version == o.stamp.version && (if created then 1 else 2) > o.stamp.rank))
  }

  lemma TenantIsFree(t: Tables, o: RowId, row: OrgRow, id: string)
    requires UniqueOrgs(t.orgs) && row.clerkOrgId == Some(id)
    requires if HasTenant(t, id) then IsTenant(t, o, id) else o !in t.orgs
    ensures UniqueOrgs(t.orgs[o := row]) <==> !SlugTaken(t, id, row.slug)
  {
    var orgs := t.orgs[o := row];
    forall p | p in t.orgs && p != o ensures t.orgs[p].clerkOrgId != Some(id) {
      if HasTenant(t, id) { assert SharesNoName(t.orgs[o], t.orgs[p]); } else { assert !IsTenant(t, p, id); }
    }
    if SlugTaken(t, id, row.slug) {
      var p: RowId :| p in t.orgs && t.orgs[p].clerkOrgId != Some(id) && t.orgs[p].slug == row.slug;
      assert !SharesNoName(orgs[o], orgs[p]);
    } else {
      forall a, b | a in orgs && b in orgs && a != b ensures SharesNoName(orgs[a], orgs[b]) {
        if a != o && b != o { assert SharesNoName(t.orgs[a], t.orgs[b]); }
      }
    }
  }

  /** A live lifecycle row, and the one tenant row with the new name and slug. */
  ghost predicate Synced(t: Tables, t': Tables, id: string, name: string, slug: string, version: int,
                         created: bool, eventId: string, newRow: RowId) {
    && t' == t.(orgLifecycles := t'.orgLifecycles, orgs := t'.orgs)
    && Lookup(t'.orgLifecycles, id) == Some(OrgLifecycle(Stamp(version, if created then 1 else 2, eventId), false))
    && (forall k | k != id :: Lookup(t'.orgLifecycles, k) == Lookup(t.orgLifecycles, k))
    && t'.orgs.Keys == (if HasTenant(t, id) then t.orgs.Keys else t.orgs.Keys + {newRow})
    && (!HasTenant(t, id) ==> t'.orgs[newRow] == OrgRow(Some(id), name, slug))
    && forall o | o in t.orgs :: t'.orgs[o] == if IsTenant(t, o, id) then OrgRow(Some(id), name, slug) else t.orgs[o]
  }

  lemma MovingTenantIsSynced(t: Tables, id: string, name: string, slug: string, version: int,
                             created: bool, eventId: string, newRow: RowId, o: RowId)
    requires WellKeyed(t) && AuthorityGate(t.cutover, version) == Open && OrgMoves(t, id, version, created) && IsTenant(t, o, id)
    ensures var (t', outcome) := SyncOrganization(t, id, name, slug, version, created, eventId, newRow);
      if SlugTaken(t, id, slug) then outcome == RolledBack(UniqueViolation) && t' == t
      else outcome == Committed && Synced(t, t', id, name, slug, version, created, eventId, newRow)
  {
    assert FindOrg(t.orgs, id) == Some(o);
    TenantIsFree(t, o, t.orgs[o].(name := name, slug := slug), id);
  }

  lemma NewTenantIsSynced(t: Tables, id: string, name: string, slug: string, version: int,
                          created: bool, eventId: string, newRow: RowId)
    requires WellKeyed(t) && AuthorityGate(t.cutover, version) == Open && OrgMoves(t, id, version, created) && !HasTenant(t, id)
    ensures var (t', outcome) := SyncOrganization(t, id, name, slug, version, created, eventId, newRow);
      if SlugTaken(t, id, slug) || newRow in t.orgs then outcome == RolledBack(UniqueViolation) && t' == t
      else outcome == Committed && Synced(t, t', id, name, slug, version, created, eventId, newRow)
  {
    var row := FindOrg(t.orgs, id);
    assert row.Some? ==> IsTenant(t, row.value, id);
    forall o: RowId ensures !IsTenant(t, o, id) {}
    if newRow !in t.orgs { TenantIsFree(t, newRow, OrgRow(Some(id), name, slug), id); }
  }

  /** An organization that moves gets a live lifecycle row, and its one tenant row the new name and
      slug; a taken key rolls back; anything else is ignored. */
  lemma OrganizationSyncDoes(t: Tables, id: string, name: string, slug: string, version: int,
                             created: bool, eventId: string, newRow: RowId)
    requires WellKeyed(t)
    ensures var (t', outcome) := SyncOrganization(t, id, name, slug, version, created, eventId, newRow);
      if !Armed(t.cutover) then outcome == RolledBack(CutoverNotReady) && t' == t
      else if version < t.cutover.value.minimumVersion || !OrgMoves(t, id, version, created) then outcome == Committed && t' == t
      else if SlugTaken(t, id, slug) || (!HasTenant(t, id) && newRow in t.orgs) then
        outcome == RolledBack(UniqueViolation) && t' == t
      else outcome == Committed && Synced(t, t', id, name, slug, version, created, eventId, newRow)
  {
    if t.cutover.Some? && t.cutover.value.evidenceHash.Some? { EvidenceMeans(t.cutover.value.evidenceHash.value); }
    if AuthorityGate(t.cutover, version) == Open && OrgMoves(t, id, version, created) {
      if o: RowId :| IsTenant(t, o, id) {
        MovingTenantIsSynced(t, id, name, slug, version, created, eventId, newRow, o);
      } else {
        NewTenantIsSynced(t, id, name, slug, version, created, eventId, newRow);
      }
    }
  }

  /** A deleted organization is tombstoned once, and everyone in its tenant loses all authority. */
  lemma OrganizationDeleteDoes(t: Tables, id: string, timestampSeconds: int, eventId: string)
    requires WellKeyed(t)
    ensures var t' := DeactivateOrganization(t, id, timestampSeconds, eventId);
      && t' == t.(orgLifecycles := t'.orgLifecycles, users := t'.users)
      && (forall k | k != id :: Lookup(t'.orgLifecycles, k) == Lookup(t.orgLifecycles, k))
      && Lookup(t'.orgLifecycles, id) == (
           if id in t.orgLifecycles && t.orgLifecycles[id].deleted then Some(t.orgLifecycles[id])
           else Some(OrgLifecycle(Stamp(1000 * timestampSeconds, 3, eventId), true)))
      && t'.users.Keys == t.users.Keys
      && forall i | i in t.users ::
           t'.users[i] == if IsTenant(t, t.users[i].orgRow, id) then t.users[i].(active := false, role := Member) else t.users[i]
  {
    var row := FindOrg(t.orgs, id);
    if row.Some? { assert IsTenant(t, row.value, id); }
  }

  /** A deleted person is tombstoned with the deletion's own version, and loses all authority. */
  lemma UserDeleteDoes(t: Tables, user: string, timestampSeconds: int, eventId: string)
    ensures var t' := DeactivateDeletedUser(t, user, timestampSeconds, eventId);
      && t' == t.(cursors := t'.cursors, users := t'.users)
      && (forall k | k != user :: Lookup(t'.cursors, k) == Lookup(t.cursors, k))
      && user in t'.cursors
      && (var c := t'.cursors[user];
          && c.deleted && !c.active && c.role == Member && c.version == Some(1000 * timestampSeconds)
          && c.rank == Some(3) && c.eventId == eventId
          && c.membershipId == (if user in t.cursors then t.cursors[user].membershipId else None)
          && c.orgId == (if user in t.cursors then t.cursors[user].orgId else None))
      && t'.users.Keys == t.users.Keys
      && forall i | i in t.users ::
           t'.users[i] == if IsPerson(t, i, user) then t.users[i].(active := false, role := Member) else t.users[i]
  {
  }

  /** A workspace is provisioned for nobody who is deleted or known; an active person keeps hers. */
  lemma ProvisioningDoes(t: Tables, user: string, name: string, slug: string, email: string, newOrg: RowId, newUser: RowId)
    requires WellKeyed(t)
    ensures var (t', outcome) := ProvisionWorkspace(t, user, name, slug, email, newOrg, newUser);
      if !UserAlive(t, user) then outcome == RolledBack(UserIsDeleted) && t' == t
      else if exists i :: IsPerson(t, i, user) && t.users[i].active then outcome == Committed && t' == t
      else if Known(t, user) then outcome == RolledBack(WorkspaceRefused) && t' == t
      else if || newOrg in t.orgs || newUser in t.users
              || (exists o: RowId :: o in t.orgs && t.orgs[o].slug == slug) || (exists i: RowId :: i in t.users && t.users[i].email == email)
      then outcome == RolledBack(UniqueViolation) && t' == t
      else outcome == Committed
           && t' == t.(orgs := t.orgs[newOrg := OrgRow(None, name, slug)],
                       users := t.users[newUser := UserRow(newOrg, Some(user), None, true, Owner, email)])
  {
    var found := FindUser(t.users, user);
    if found.Some? {
      assert IsPerson(t, found.value, user);
    } else {
      forall i: RowId ensures !IsPerson(t, i, user) {}
      if newOrg !in t.orgs && newUser !in t.users { WorkspaceIsFree(t, user, name, slug, email, newOrg, newUser); }
    }
  }

  lemma WorkspaceIsFree(t: Tables, user: string, name: string, slug: string, email: string, newOrg: RowId, newUser: RowId)
    requires WellKeyed(t) && !Known(t, user) && newOrg !in t.orgs && newUser !in t.users
    ensures UniqueOrgs(t.orgs[newOrg := OrgRow(None, name, slug)]) <==> !exists o: RowId :: o in t.orgs && t.orgs[o].slug == slug
    ensures UniqueUsers(t.users[newUser := UserRow(newOrg, Some(user), None, true, Owner, email)])
       <==> !exists i: RowId :: i in t.users && t.users[i].email == email
  {
    forall i: RowId | i in t.users ensures t.users[i].clerkId != Some(user) { assert !IsPerson(t, i, user); }
    NamelessOrgIsFree(t.orgs, newOrg, OrgRow(None, name, slug));
    NewPersonIsFree(t.users, newUser, UserRow(newOrg, Some(user), None, true, Owner, email));
  }

  lemma NamelessOrgIsFree(orgs: map<RowId, OrgRow>, o: RowId, row: OrgRow)
    requires UniqueOrgs(orgs) && o !in orgs && row.clerkOrgId.None?
    ensures UniqueOrgs(orgs[o := row]) <==> !exists p: RowId :: p in orgs && orgs[p].slug == row.slug
  {
    var orgs' := orgs[o := row];
    if exists p: RowId :: p in orgs && orgs[p].slug == row.slug {
      var p :| p in orgs && orgs[p].slug == row.slug;
      assert !SharesNoName(orgs'[p], orgs'[o]);
    } else {
      forall a, b | a in orgs' && b in orgs' && a != b ensures SharesNoName(orgs'[a], orgs'[b]) {
        if a != o && b != o { assert SharesNoName(orgs[a], orgs[b]); }
      }
    }
  }

  lemma NewPersonIsFree(users: map<RowId, UserRow>, i: RowId, u: UserRow)
    requires UniqueUsers(users) && i !in users && u.membershipId.None?
    requires forall j | j in users :: users[j].clerkId != u.clerkId
    ensures UniqueUsers(users[i := u]) <==> !exists j: RowId :: j in users && users[j].email == u.email
  {
    var users' := users[i := u];
    if exists j: RowId :: j in users && users[j].email == u.email {
      var j :| j in users && users[j].email == u.email;
      assert !SharesNoKey(users'[j], users'[i]);
    } else {
      forall a, b | a in users' && b in users' && a != b ensures SharesNoKey(users'[a], users'[b]) {
        if a != i && b != i { assert SharesNoKey(users[a], users[b]); }
      }
    }
  }
}
