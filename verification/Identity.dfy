/** The Clerk identity tables and the webhook handlers that update them.

    `Tables` is one committed database state.  Each handler is one serializable
    transaction: a function from the tables before to the tables after, together
    with whether it committed.  `ClerkStore` is the same service in its own form,
    one table at a time, and every method of it is proved equal to its function. */
module Identity {
  import opened Options

  datatype Role = Owner | Admin | Manager | Member

  /** The roles a webhook can carry; OWNER exists only locally. */
  type ClerkRole = r: Role | r != Owner witness Member

  datatype EventKind = Created | Updated | Deleted

  datatype Stamp = Stamp(version: int, rank: nat, eventId: string)

  datatype OrgLifecycle = OrgLifecycle(stamp: Stamp, deleted: bool)

  datatype Membership = Membership(userId: string, orgId: string, stamp: Stamp, role: Role, deleted: bool)

  datatype Cursor = Cursor(
    deleted: bool,
    membershipId: Option<string>,
    orgId: Option<string>,
    version: Option<int>,
    rank: Option<nat>,
    active: bool,
    role: Role,
    eventId: string)

  type RowId = nat

  datatype OrgRow = OrgRow(clerkOrgId: Option<string>, name: string, slug: string)

  datatype UserRow = UserRow(
    orgRow: RowId,
    clerkId: Option<string>,
    membershipId: Option<string>,
    active: bool,
    role: Role,
    email: string)

  datatype Cutover = Cutover(
    ready: bool,
    minimumVersion: int,
    evidenceHash: Option<string>,
    expectedOrganizations: int,
    expectedMemberships: int,
    expectedUsers: int,
    establishedAt: Option<int>)

  datatype Tables = Tables(
    cutover: Option<Cutover>,
    orgLifecycles: map<string, OrgLifecycle>,
    memberships: map<string, Membership>,
    cursors: map<string, Cursor>,
    orgs: map<RowId, OrgRow>,
    users: map<RowId, UserRow>)

  datatype MembershipData = MembershipData(
    id: string,
    userId: string,
    orgId: string,
    email: string,
    role: ClerkRole,
    version: int)

  /** Why a transaction rolled back; Clerk retries every one of these. */
  datatype Reason =
    | CutoverNotReady
    | IdentityChanged
    | OrganizationNotSynchronized
    | CreateNotSynchronized
    | UniqueViolation
    | UserIsDeleted
    | WorkspaceRefused

  datatype Outcome = Committed | RolledBack(reason: Reason)

  // ---------------------------------------------------------------- constraints

  /** The unique indexes on the local tables: clerkId, clerkMembershipId and email
      on users, clerkOrgId and slug on organizations. */
  predicate SharesNoKey(u: UserRow, v: UserRow) {
    && (u.clerkId.Some? ==> u.clerkId != v.clerkId)
    && (u.membershipId.Some? ==> u.membershipId != v.membershipId)
    && u.email != v.email
  }

  predicate UniqueUsers(users: map<RowId, UserRow>) {
    forall i, j {:trigger SharesNoKey(users[i], users[j])} | i in users && j in users && i != j ::
      SharesNoKey(users[i], users[j])
  }

  predicate SharesNoName(o: OrgRow, p: OrgRow) {
    (o.clerkOrgId.Some? ==> o.clerkOrgId != p.clerkOrgId) && o.slug != p.slug
  }

  predicate UniqueOrgs(orgs: map<RowId, OrgRow>) {
    forall i, j {:trigger SharesNoName(orgs[i], orgs[j])} | i in orgs && j in orgs && i != j ::
      SharesNoName(orgs[i], orgs[j])
  }

  predicate WellKeyed(t: Tables) {
    && UniqueUsers(t.users)
    && UniqueOrgs(t.orgs)
    && (forall i | i in t.users :: t.users[i].orgRow in t.orgs)
  }

  /** findUnique on users by clerkId. */
  function FindUser(users: map<RowId, UserRow>, clerkId: string): (r: Option<RowId>)
    requires UniqueUsers(users)
    ensures r.Some? ==> r.value in users && users[r.value].clerkId == Some(clerkId)
    ensures forall i | i in users && users[i].clerkId == Some(clerkId) :: r == Some(i)
  {
    assert forall i, j | i in users && j in users && users[i].clerkId == Some(clerkId) == users[j].clerkId :: i == j by {
      forall i, j | i in users && j in users && users[i].clerkId == Some(clerkId) == users[j].clerkId ensures i == j {
        assert i == j || SharesNoKey(users[i], users[j]);
      }
    }
    if exists i | i in users :: users[i].clerkId == Some(clerkId) then
      var i :| i in users && users[i].clerkId == Some(clerkId);
      Some(i)
    else
      None
  }

  /** findUnique on organizations by clerkOrgId. */
  function FindOrg(orgs: map<RowId, OrgRow>, clerkOrgId: string): (r: Option<RowId>)
    requires UniqueOrgs(orgs)
    ensures r.Some? ==> r.value in orgs && orgs[r.value].clerkOrgId == Some(clerkOrgId)
    ensures forall i | i in orgs && orgs[i].clerkOrgId == Some(clerkOrgId) :: r == Some(i)
  {
    assert forall i, j | i in orgs && j in orgs && orgs[i].clerkOrgId == Some(clerkOrgId) == orgs[j].clerkOrgId :: i == j by {
      forall i, j | i in orgs && j in orgs && orgs[i].clerkOrgId == Some(clerkOrgId) == orgs[j].clerkOrgId ensures i == j {
        assert i == j || SharesNoName(orgs[i], orgs[j]);
      }
    }
    if exists i | i in orgs :: orgs[i].clerkOrgId == Some(clerkOrgId) then
      var i :| i in orgs && orgs[i].clerkOrgId == Some(clerkOrgId);
      Some(i)
    else
      None
  }

  // ---------------------------------------------------------------- pure rules

  function Rank(kind: EventKind): nat {
    match kind
    case Created => 1
    case Updated => 2
    case Deleted => 3
  }

  function RoleAuthority(role: Role): nat {
    match role
    case Owner => 4
    case Admin => 3
    case Manager => 2
    case Member => 1
  }

  function NextLocalRole(current: Role, clerkRole: ClerkRole): Role {
    if current == Owner && clerkRole == Admin then Owner else clerkRole
  }

  predicate ShouldApplyMembership(existing: Option<Membership>, incoming: Stamp, role: ClerkRole) {
    match existing
    case None => true
    case Some(m) =>
      if m.deleted then false
      else if incoming.version > m.stamp.version then true
      else if incoming.version < m.stamp.version then false
      else if incoming.rank > m.stamp.rank then true
      else if incoming.rank < m.stamp.rank then false
      else if incoming.eventId == m.stamp.eventId then false
      else RoleAuthority(role) < RoleAuthority(m.role)
  }

  predicate ShouldAdvanceCursor(existing: Option<Cursor>, data: MembershipData, rank: nat) {
    match existing
    case None => true
    case Some(c) =>
      if c.deleted then false
      else if c.version.None? then true
      else if data.version > c.version.value then true
      else if data.version < c.version.value then false
      else
        var existingRank := if c.rank.Some? then c.rank.value else 0;
        if rank > existingRank then true
        else if rank < existingRank then false
        else if c.membershipId != Some(data.id) then false
        else RoleAuthority(data.role) < RoleAuthority(c.role)
  }

  predicate IsNewerLifecycle(existing: Option<OrgLifecycle>, incoming: Stamp) {
    match existing
    case None => true
    case Some(o) =>
      if incoming.version != o.stamp.version then incoming.version > o.stamp.version
      else incoming.rank > o.stamp.rank
  }

  const MAX_SAFE_INTEGER := 9007199254740991
  const UNARMED_CUTOVER_VERSION := 9223372036854775807
  const CUTOVER_CLOCK_WINDOW_MS := 24 * 60 * 60 * 1000

  predicate IsSafeInteger(n: int) {
    -MAX_SAFE_INTEGER <= n <= MAX_SAFE_INTEGER
  }

  predicate IsSha256Evidence(hash: string) {
    && |hash| == 71
    && hash[..7] == "sha256:"
    && forall i | 7 <= i < 71 :: '0' <= hash[i] <= '9' || 'a' <= hash[i] <= 'f'
  }

  predicate CutoverReady(cutover: Option<Cutover>) {
    match cutover
    case None => false
    case Some(c) =>
      && c.ready
      && 0 < c.minimumVersion <= MAX_SAFE_INTEGER
      && c.minimumVersion != UNARMED_CUTOVER_VERSION
      && c.establishedAt.Some?
      && -CUTOVER_CLOCK_WINDOW_MS <= c.minimumVersion - c.establishedAt.value <= CUTOVER_CLOCK_WINDOW_MS
      && c.evidenceHash.Some?
      && IsSha256Evidence(c.evidenceHash.value)
      && IsSafeInteger(c.expectedOrganizations) && 0 <= c.expectedOrganizations
      && IsSafeInteger(c.expectedMemberships) && 0 <= c.expectedMemberships
      && IsSafeInteger(c.expectedUsers) && 0 <= c.expectedUsers
  }

  datatype Gate = NotReady | TooOld | Open

  function AuthorityGate(cutover: Option<Cutover>, version: int): Gate {
    if !CutoverReady(cutover) then NotReady
    else if version >= cutover.value.minimumVersion then Open
    else TooOld
  }

  function DeliveryVersion(timestampSeconds: int): int {
    timestampSeconds * 1000
  }

  // ---------------------------------------------------------------- table updates

  function PersistMembership(t: Tables, data: MembershipData, stamp: Stamp, deleted: bool): Tables {
    t.(memberships := t.memberships[data.id := Membership(data.userId, data.orgId, stamp, data.role, deleted)])
  }

  function PersistCursor(t: Tables, data: MembershipData, stamp: Stamp, active: bool): Tables {
    t.(cursors := t.cursors[data.userId :=
      Cursor(false, Some(data.id), Some(data.orgId), Some(stamp.version), Some(stamp.rank), active,
             if active then data.role else Member, stamp.eventId)])
  }

  function Deactivated(u: UserRow): UserRow {
    u.(active := false, role := Member)
  }

  /** updateMany over the principals of one organization. */
  function DeactivateOrgUsers(users: map<RowId, UserRow>, org: RowId): map<RowId, UserRow> {
    map i | i in users :: if users[i].orgRow == org then Deactivated(users[i]) else users[i]
  }

  /** updateMany over the principals of one Clerk user. */
  function DeactivateClerkUser(users: map<RowId, UserRow>, clerkId: string): map<RowId, UserRow> {
    map i | i in users :: if users[i].clerkId == Some(clerkId) then Deactivated(users[i]) else users[i]
  }

  /** A statement on the users table fails exactly when it would break an index. */
  function WriteUsers(before: Tables, tx: Tables, users: map<RowId, UserRow>): (Tables, Outcome) {
    if UniqueUsers(users) then (tx.(users := users), Committed)
    else (before, RolledBack(UniqueViolation))
  }

  function Max(a: int, b: int): int {
    if a > b then a else b
  }

  function Quarantine(t: Tables, existing: Membership, membershipId: string, stamp: Stamp): Tables
    requires UniqueUsers(t.users)
  {
    var version := Max(stamp.version, existing.stamp.version);
    var memberships := t.memberships[membershipId :=
      existing.(stamp := Stamp(version, Rank(Deleted), stamp.eventId), role := Member, deleted := true)];
    var cursor := Lookup(t.cursors, existing.userId);
    var cursors :=
      if cursor.Some? && cursor.value.membershipId == Some(membershipId) then
        var cursorVersion := if cursor.value.version.Some? then cursor.value.version.value else 0;
        t.cursors[existing.userId := cursor.value.(
          version := Some(Max(version, cursorVersion)), rank := Some(Rank(Deleted)),
          active := false, role := Member, eventId := stamp.eventId)]
      else t.cursors;
    var user := FindUser(t.users, existing.userId);
    var users :=
      if user.Some? && t.users[user.value].membershipId == Some(membershipId)
      then t.users[user.value := Deactivated(t.users[user.value])]
      else t.users;
    t.(memberships := memberships, cursors := cursors, users := users)
  }

  // ---------------------------------------------------------------- handlers

  function SyncOrganization(t: Tables, id: string, name: string, slug: string, version: int,
                            created: bool, eventId: string, newRow: RowId): (Tables, Outcome)
    requires UniqueOrgs(t.orgs)
  {
    var stamp := Stamp(version, Rank(if created then Created else Updated), eventId);
    match AuthorityGate(t.cutover, version)
    case NotReady => (t, RolledBack(CutoverNotReady))
    case TooOld => (t, Committed)
    case Open =>
      var existing := Lookup(t.orgLifecycles, id);
      if (existing.Some? && existing.value.deleted) || !IsNewerLifecycle(existing, stamp) then
        (t, Committed)
      else
        var row := FindOrg(t.orgs, id);
        var orgs :=
          if row.Some? then t.orgs[row.value := t.orgs[row.value].(name := name, slug := slug)]
          else t.orgs[newRow := OrgRow(Some(id), name, slug)];
        if (row.None? && newRow in t.orgs) || !UniqueOrgs(orgs) then (t, RolledBack(UniqueViolation))
        else (t.(orgLifecycles := t.orgLifecycles[id := OrgLifecycle(stamp, false)], orgs := orgs), Committed)
  }

  function DeactivateOrganization(t: Tables, id: string, timestampSeconds: int, eventId: string): Tables
    requires UniqueOrgs(t.orgs)
  {
    var existing := Lookup(t.orgLifecycles, id);
    var lifecycles :=
      if existing.Some? && existing.value.deleted then t.orgLifecycles
      else t.orgLifecycles[id :=
        OrgLifecycle(Stamp(DeliveryVersion(timestampSeconds), Rank(Deleted), eventId), true)];
    var row := FindOrg(t.orgs, id);
    var users := if row.Some? then DeactivateOrgUsers(t.users, row.value) else t.users;
    t.(orgLifecycles := lifecycles, users := users)
  }

  function DeactivateDeletedUser(t: Tables, clerkUserId: string, timestampSeconds: int, eventId: string): Tables {
    var existing := Lookup(t.cursors, clerkUserId);
    var version := Some(DeliveryVersion(timestampSeconds));
    var cursor :=
      if existing.Some? then
        existing.value.(deleted := true, active := false, role := Member,
                        version := version, rank := Some(Rank(Deleted)), eventId := eventId)
      else
        Cursor(true, None, None, version, Some(Rank(Deleted)), false, Member, eventId);
    t.(cursors := t.cursors[clerkUserId := cursor], users := DeactivateClerkUser(t.users, clerkUserId))
  }

  /** `known` is the tuple read before the transaction started, so it may be stale. */
  function ApplyMembership(t: Tables, data: MembershipData, kind: EventKind, eventId: string,
                           known: Option<(string, string)>, newRow: RowId): (Tables, Outcome)
    requires WellKeyed(t)
  {
    var stamp := Stamp(data.version, Rank(kind), eventId);
    var gate := AuthorityGate(t.cutover, data.version);
    if kind != Deleted && gate == NotReady then (t, RolledBack(CutoverNotReady))
    else if kind != Deleted && gate == TooOld then (t, Committed)
    else
      var existing := Lookup(t.memberships, data.id);
      if existing.Some? && (existing.value.userId != data.userId || existing.value.orgId != data.orgId) then
        if known != Some((existing.value.userId, existing.value.orgId)) then (t, RolledBack(IdentityChanged))
        else (Quarantine(t, existing.value, data.id, stamp), Committed)
      else if !ShouldApplyMembership(existing, stamp, data.role) then (t, Committed)
      else Project(t, PersistMembership(t, data, stamp, kind == Deleted), data, kind, stamp, newRow)
  }

  /** The part of the membership handler that runs once the lifecycle row is written. */
  function Project(before: Tables, tx: Tables, data: MembershipData, kind: EventKind,
                   stamp: Stamp, newRow: RowId): (Tables, Outcome)
    requires WellKeyed(tx)
  {
    var cursor := Lookup(tx.cursors, data.userId);
    var lifecycle := Lookup(tx.orgLifecycles, data.orgId);
    var org := FindOrg(tx.orgs, data.orgId);
    var user := FindUser(tx.users, data.userId);
    if cursor.Some? && cursor.value.deleted then (tx, Committed)
    else if kind != Deleted && (lifecycle.None? || lifecycle.value.deleted || org.None?) then
      (before, RolledBack(OrganizationNotSynchronized))
    else if org.Some? && user.Some? && tx.users[user.value].orgRow != org.value then (tx, Committed)
    else
      match kind
      case Created => ProjectCreated(before, tx, data, stamp, newRow, cursor, org.value, user)
      case Updated => ProjectUpdated(before, tx, data, stamp, cursor, user)
      case Deleted => ProjectDeleted(before, tx, data, stamp, cursor, user)
  }

  function ProjectCreated(before: Tables, tx: Tables, data: MembershipData, stamp: Stamp, newRow: RowId,
                          cursor: Option<Cursor>, org: RowId, user: Option<RowId>): (Tables, Outcome)
    requires user.Some? ==> user.value in tx.users
  {
    if !ShouldAdvanceCursor(cursor, data, stamp.rank) then (tx, Committed)
    else
      var tx' := PersistCursor(tx, data, stamp, true);
      if user.None? then
        var email := if data.email != "" then data.email else data.userId + "@no-email.workforceos.local";
        if newRow in tx.users then (before, RolledBack(UniqueViolation))
        else WriteUsers(before, tx', tx.users[newRow :=
          UserRow(org, Some(data.userId), Some(data.id), true, data.role, email)])
      else
        var u := tx.users[user.value];
        WriteUsers(before, tx', tx.users[user.value :=
          u.(membershipId := Some(data.id), active := true, role := NextLocalRole(u.role, data.role))])
  }

  function ProjectUpdated(before: Tables, tx: Tables, data: MembershipData, stamp: Stamp,
                          cursor: Option<Cursor>, user: Option<RowId>): (Tables, Outcome)
    requires user.Some? ==> user.value in tx.users
  {
    if || user.None?
       || cursor.None?
       || !cursor.value.active
       || cursor.value.membershipId != Some(data.id)
       || !ShouldAdvanceCursor(cursor, data, stamp.rank)
    then (before, RolledBack(CreateNotSynchronized))
    else
      var u := tx.users[user.value];
      WriteUsers(before, PersistCursor(tx, data, stamp, true), tx.users[user.value :=
        u.(membershipId := Some(data.id), role := NextLocalRole(u.role, data.role))])
  }

  function ProjectDeleted(before: Tables, tx: Tables, data: MembershipData, stamp: Stamp,
                          cursor: Option<Cursor>, user: Option<RowId>): (Tables, Outcome)
    requires user.Some? ==> user.value in tx.users
  {
    if cursor.Some? && cursor.value.membershipId.Some? && cursor.value.membershipId != Some(data.id) then
      (tx, Committed)
    else if cursor.Some? && !ShouldAdvanceCursor(cursor, data, stamp.rank) then (tx, Committed)
    else Revoke(before, tx, data, stamp, user)
  }

  function Revoke(before: Tables, tx: Tables, data: MembershipData, stamp: Stamp, user: Option<RowId>): (Tables, Outcome)
    requires user.Some? ==> user.value in tx.users
  {
    var tx' := PersistCursor(tx, data, stamp, false);
    if user.None? then (tx', Committed)
    else
      var u := tx.users[user.value];
      if u.membershipId.Some? && u.membershipId != Some(data.id) then (tx', Committed)
      else WriteUsers(before, tx', tx.users[user.value := Deactivated(u).(membershipId := Some(data.id))])
  }

  /** A trial workspace: the only other way a local principal is created. */
  function ProvisionWorkspace(t: Tables, clerkUserId: string, name: string, slug: string, email: string,
                              newOrg: RowId, newUser: RowId): (Tables, Outcome)
    requires WellKeyed(t)
  {
    var cursor := Lookup(t.cursors, clerkUserId);
    var user := FindUser(t.users, clerkUserId);
    if cursor.Some? && cursor.value.deleted then (t, RolledBack(UserIsDeleted))
    else if user.Some? && t.users[user.value].active then (t, Committed)
    else if user.Some? then (t, RolledBack(WorkspaceRefused))
    else
      var orgs := t.orgs[newOrg := OrgRow(None, name, slug)];
      var users := t.users[newUser := UserRow(newOrg, Some(clerkUserId), None, true, Owner, email)];
      if newOrg in t.orgs || newUser in t.users || !UniqueOrgs(orgs) then (t, RolledBack(UniqueViolation))
      else WriteUsers(t, t.(orgs := orgs), users)
  }

  // ---------------------------------------------------------------- runs

  datatype Event =
    | OrganizationSynced(id: string, name: string, slug: string, version: int, created: bool, eventId: string, newRow: RowId)
    | OrganizationDeleted(id: string, timestampSeconds: int, eventId: string)
    | MembershipDelivered(data: MembershipData, kind: EventKind, eventId: string,
                          known: Option<(string, string)>, newRow: RowId)
    | UserDeleted(clerkUserId: string, timestampSeconds: int, eventId: string)
    | WorkspaceProvisioned(clerkUserId: string, name: string, slug: string, email: string, newOrg: RowId, newUser: RowId)
    | CutoverWritten(cutover: Option<Cutover>)

  function Handle(t: Tables, e: Event): (Tables, Outcome)
    requires WellKeyed(t)
  {
    match e
    case OrganizationSynced(id, name, slug, version, created, eventId, newRow) =>
      SyncOrganization(t, id, name, slug, version, created, eventId, newRow)
    case OrganizationDeleted(id, seconds, eventId) => (DeactivateOrganization(t, id, seconds, eventId), Committed)
    case MembershipDelivered(data, kind, eventId, known, newRow) => ApplyMembership(t, data, kind, eventId, known, newRow)
    case UserDeleted(id, seconds, eventId) => (DeactivateDeletedUser(t, id, seconds, eventId), Committed)
    case WorkspaceProvisioned(id, name, slug, email, newOrg, newUser) =>
      ProvisionWorkspace(t, id, name, slug, email, newOrg, newUser)
    case CutoverWritten(c) => (t.(cutover := c), Committed)
  }
}
