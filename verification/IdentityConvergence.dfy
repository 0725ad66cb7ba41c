/** Out-of-order and duplicated deliveries for one membership converge. */
module IdentityConvergence {
  import opened Options
  import opened Identity

  datatype Delivery = Delivery(eventId: string, kind: EventKind, version: int, role: ClerkRole)

  function StampOf(d: Delivery): Stamp {
    Stamp(d.version, Rank(d.kind), d.eventId)
  }

  function RowOf(user: string, org: string, d: Delivery): Membership {
    Membership(user, org, StampOf(d), d.role, d.kind == Deleted)
  }

  /** The effect of one delivery on the lifecycle row of its own membership. */
  function Apply(user: string, org: string, row: Option<Membership>, d: Delivery): Option<Membership> {
    if ShouldApplyMembership(row, StampOf(d), d.role) then Some(RowOf(user, org, d)) else row
  }

  function Fold(user: string, org: string, row: Option<Membership>, ds: seq<Delivery>): Option<Membership>
    decreases |ds|
  {
    if ds == [] then row else Fold(user, org, Apply(user, org, row, ds[0]), ds[1..])
  }

  /** The handler does to the lifecycle row what the fold does, whenever it commits past the gate. */
  lemma HandlerFollowsFold(t: Tables, data: MembershipData, kind: EventKind, eventId: string,
                           known: Option<(string, string)>, newRow: RowId)
    requires WellKeyed(t)
    requires kind == Deleted || AuthorityGate(t.cutover, data.version) == Open
    requires data.id in t.memberships ==>
               t.memberships[data.id].userId == data.userId && t.memberships[data.id].orgId == data.orgId
    requires ApplyMembership(t, data, kind, eventId, known, newRow).1 == Committed
    ensures Lookup(ApplyMembership(t, data, kind, eventId, known, newRow).0.memberships, data.id)
         == Apply(data.userId, data.orgId, Lookup(t.memberships, data.id), Delivery(eventId, kind, data.version, data.role))
  {
    var stamp, existing := Stamp(data.version, Rank(kind), eventId), Lookup(t.memberships, data.id);
    if ShouldApplyMembership(existing, stamp, data.role) {
      ProjectKeepsMembership(t, data, kind, stamp, newRow);
    }
  }

  /** The projection after the lifecycle row is written commits that row or nothing. */
  lemma ProjectKeepsMembership(t: Tables, data: MembershipData, kind: EventKind, stamp: Stamp, newRow: RowId)
    requires WellKeyed(PersistMembership(t, data, stamp, kind == Deleted))
    ensures var tx := PersistMembership(t, data, stamp, kind == Deleted);
      Project(t, tx, data, kind, stamp, newRow).1 == Committed ==>
        Project(t, tx, data, kind, stamp, newRow).0.memberships == tx.memberships
  {
  }

  /** Newer version, else higher rank, else less authority. */
  predicate Beats(d: Delivery, e: Delivery) {
    || d.version > e.version
    || (d.version == e.version && Rank(d.kind) > Rank(e.kind))
    || (d.version == e.version && Rank(d.kind) == Rank(e.kind) && RoleAuthority(d.role) < RoleAuthority(e.role))
  }

  /** A redelivery repeats its event; it does not reuse the id for another one. */
  ghost predicate Redeliveries(ds: seq<Delivery>) {
    forall d, e | d in ds && e in ds && d.eventId == e.eventId :: d == e
  }

  ghost predicate NoDeletes(ds: seq<Delivery>) {
    forall d | d in ds :: d.kind != Deleted
  }

  lemma {:induction false} FoldKeepsBest(user: string, org: string, current: Delivery, ds: seq<Delivery>)
    returns (winner: Delivery)
    requires NoDeletes([current] + ds) && Redeliveries([current] + ds)
    ensures winner in [current] + ds
    ensures Fold(user, org, Some(RowOf(user, org, current)), ds) == Some(RowOf(user, org, winner))
    ensures forall d | d in [current] + ds :: !Beats(d, winner)
    decreases |ds|
  {
    if ds == [] {
      winner := current;
    } else {
      var d := ds[0];
      assert d in [current] + ds && current in [current] + ds;
      var next := if ShouldApplyMembership(Some(RowOf(user, org, current)), StampOf(d), d.role) then d else current;
      assert forall x | x in [next] + ds[1..] :: x in [current] + ds;
      winner := FoldKeepsBest(user, org, next, ds[1..]);
      assert next in [next] + ds[1..];
      forall x | x in [current] + ds ensures !Beats(x, winner) {
        assert x == current || x == d || x in [next] + ds[1..];
      }
    }
  }

  /** Same deliveries, any order, any duplication: same version, same rank, same role. */
  lemma DeliveryOrderDoesNotMatter(user: string, org: string, a: seq<Delivery>, b: seq<Delivery>)
    requires a != []
    requires forall d :: d in a <==> d in b
    requires NoDeletes(a) && Redeliveries(a)
    ensures var ra, rb := Fold(user, org, None, a), Fold(user, org, None, b);
      && ra.Some? && rb.Some?
      && ra.value.stamp.version == rb.value.stamp.version
      && ra.value.stamp.rank == rb.value.stamp.rank
      && ra.value.role == rb.value.role
      && !ra.value.deleted && !rb.value.deleted
      && forall d | d in a ::
           || d.version < ra.value.stamp.version
           || (d.version == ra.value.stamp.version && Rank(d.kind) < ra.value.stamp.rank)
           || (d.version == ra.value.stamp.version && Rank(d.kind) == ra.value.stamp.rank
               && RoleAuthority(d.role) >= RoleAuthority(ra.value.role))
  {
    assert a[0] in b;
    assert [a[0]] + a[1..] == a && [b[0]] + b[1..] == b;
    assert NoDeletes(b) && Redeliveries(b);
    var wa := FoldKeepsBest(user, org, a[0], a[1..]);
    var wb := FoldKeepsBest(user, org, b[0], b[1..]);
    assert Fold(user, org, None, a) == Fold(user, org, Some(RowOf(user, org, a[0])), a[1..]);
    assert Fold(user, org, None, b) == Fold(user, org, Some(RowOf(user, org, b[0])), b[1..]);
    assert wa in b && wb in a;
    assert !Beats(wa, wb) && !Beats(wb, wa);
  }

  lemma TwoStepFold(user: string, org: string, first: Delivery, second: Delivery)
    ensures Fold(user, org, None, [first, second]) == Apply(user, org, Some(RowOf(user, org, first)), second)
  {
    assert [first, second][1..] == [second];
    assert Fold(user, org, Some(RowOf(user, org, first)), [second])
        == Fold(user, org, Apply(user, org, Some(RowOf(user, org, first)), second), []);
  }

  /** Without that meaning of redelivery the order shows: one id, two roles. */
  lemma ReusedEventIdsDependOnOrder(user: string, org: string, id: string, version: int)
    ensures var admin := Delivery(id, Updated, version, Admin);
      var member := Delivery(id, Updated, version, Member);
      && Fold(user, org, None, [admin, member]) == Some(RowOf(user, org, admin))
      && Fold(user, org, None, [member, admin]) == Some(RowOf(user, org, member))
  {
    var admin := Delivery(id, Updated, version, Admin);
    var member := Delivery(id, Updated, version, Member);
    TwoStepFold(user, org, admin, member);
    TwoStepFold(user, org, member, admin);
  }

  lemma {:induction false} TombstoneSticks(user: string, org: string, row: Membership, ds: seq<Delivery>)
    requires row.deleted
    ensures Fold(user, org, Some(row), ds) == Some(row)
    decreases |ds|
  {
    if ds != [] { TombstoneSticks(user, org, row, ds[1..]); }
  }

  lemma {:induction false} PendingDeleteLands(user: string, org: string, row: Option<Membership>,
                                              ds: seq<Delivery>, delete: Delivery)
    requires delete in ds && delete.kind == Deleted
    requires forall d | d in ds && d.kind != Deleted :: d.version <= delete.version
    requires row.Some? ==>
      row.value.deleted || (row.value.stamp.version <= delete.version && row.value.stamp.rank < Rank(Deleted))
    ensures Fold(user, org, row, ds).Some? && Fold(user, org, row, ds).value.deleted
    decreases |ds|
  {
    var next := Apply(user, org, row, ds[0]);
    if next.Some? && next.value.deleted {
      TombstoneSticks(user, org, next.value, ds[1..]);
    } else {
      assert ds[0] != delete;
      PendingDeleteLands(user, org, next, ds[1..], delete);
    }
  }

  /** A delete at least as new as every grant wins wherever it arrives. */
  lemma NewestDeleteWins(user: string, org: string, ds: seq<Delivery>, delete: Delivery)
    requires delete in ds && delete.kind == Deleted
    requires forall d | d in ds && d.kind != Deleted :: d.version <= delete.version
    ensures Fold(user, org, None, ds).Some? && Fold(user, org, None, ds).value.deleted
  {
    PendingDeleteLands(user, org, None, ds, delete);
  }

  // ---------------------------------------------------------------- orders of one history

  /** The same deliveries, in any order and any number of times. */
  ghost predicate SameDeliveries(a: seq<Delivery>, b: seq<Delivery>) {
    forall d :: d in a <==> d in b
  }

  lemma {:induction false} FoldSnoc(user: string, org: string, row: Option<Membership>, ds: seq<Delivery>, d: Delivery)
    ensures Fold(user, org, row, ds + [d]) == Apply(user, org, Fold(user, org, row, ds), d)
    decreases |ds|
  {
    if ds == [] {
      assert Fold(user, org, row, [d]) == Fold(user, org, Apply(user, org, row, d), []);
    } else {
      assert (ds + [d])[1..] == ds[1..] + [d];
      FoldSnoc(user, org, Apply(user, org, row, ds[0]), ds[1..], d);
    }
  }

  lemma {:induction false} FoldConcat(user: string, org: string, row: Option<Membership>, a: seq<Delivery>, b: seq<Delivery>)
    ensures Fold(user, org, row, a + b) == Fold(user, org, Fold(user, org, row, a), b)
    decreases |b|
  {
    if b == [] {
      assert a + b == a;
    } else {
      var n := |b| - 1;
      FoldConcat(user, org, row, a, b[..n]);
      FoldSnoc(user, org, row, a + b[..n], b[n]);
      FoldSnoc(user, org, Fold(user, org, row, a), b[..n], b[n]);
      assert a + b == a + b[..n] + [b[n]] && b == b[..n] + [b[n]];
    }
  }

  // ---------------------------------------------------------------- deletes, exactly

  ghost predicate HasNewestDelete(ds: seq<Delivery>) {
    exists x :: x in ds && x.kind == Deleted && forall d | d in ds && d.kind != Deleted :: d.version <= x.version
  }

  ghost predicate DeleteWinsInEveryOrder(user: string, org: string, ds: seq<Delivery>) {
    forall b | SameDeliveries(ds, b) :: Fold(user, org, None, b).Some? && Fold(user, org, None, b).value.deleted
  }

  /** A row no delete of the list is as new as is never tombstoned by it. */
  lemma {:induction false} OlderDeletesAreIgnored(user: string, org: string, row: Membership, ds: seq<Delivery>)
    requires !row.deleted && forall x | x in ds && x.kind == Deleted :: x.version < row.stamp.version
    ensures Fold(user, org, Some(row), ds).Some? && !Fold(user, org, Some(row), ds).value.deleted
    decreases |ds|
  {
    if ds != [] {
      OlderDeletesAreIgnored(user, org, Apply(user, org, Some(row), ds[0]).value, ds[1..]);
    }
  }

  lemma {:induction false} NewestGrant(ds: seq<Delivery>) returns (g: Delivery)
    requires exists d :: d in ds && d.kind != Deleted
    ensures g in ds && g.kind != Deleted && forall d | d in ds && d.kind != Deleted :: d.version <= g.version
  {
    var n := |ds| - 1;
    assert ds == ds[..n] + [ds[n]];
    if exists d :: d in ds[..n] && d.kind != Deleted {
      g := NewestGrant(ds[..n]);
      if ds[n].kind != Deleted && ds[n].version > g.version { g := ds[n]; }
    } else {
      g := ds[n];
    }
  }

  /** For any history: a delete wins in every order if and only if some delete is at least as new
      as every grant. */
  lemma DeleteWinsExactlyWhenNewest(user: string, org: string, ds: seq<Delivery>)
    ensures DeleteWinsInEveryOrder(user, org, ds) <==> HasNewestDelete(ds)
  {
    if HasNewestDelete(ds) {
      var x :| x in ds && x.kind == Deleted && forall d | d in ds && d.kind != Deleted :: d.version <= x.version;
      forall b | SameDeliveries(ds, b)
        ensures Fold(user, org, None, b).Some? && Fold(user, org, None, b).value.deleted
      {
        NewestDeleteWins(user, org, b, x);
      }
    } else {
      GrantCanWin(user, org, ds);
    }
  }

  lemma GrantCanWin(user: string, org: string, ds: seq<Delivery>)
    requires !HasNewestDelete(ds)
    ensures !DeleteWinsInEveryOrder(user, org, ds)
  {
    if ds == [] {
      assert SameDeliveries(ds, ds) && Fold(user, org, None, ds) == None;
    } else {
      var g := GrantWithoutNewestDelete(ds);
      var b := [g] + ds;
      assert SameDeliveries(ds, b);
      assert b[1..] == ds && Apply(user, org, None, g) == Some(RowOf(user, org, g));
      OlderDeletesAreIgnored(user, org, RowOf(user, org, g), ds);
    }
  }

  lemma GrantWithoutNewestDelete(ds: seq<Delivery>) returns (g: Delivery)
    requires ds != [] && !HasNewestDelete(ds)
    ensures g in ds && g.kind != Deleted && forall x | x in ds && x.kind == Deleted :: x.version < g.version
  {
    assert ds[0] in ds;
    assert ds[0].kind == Deleted ==> exists d :: d in ds && d.kind != Deleted && d.version > ds[0].version;
    g := NewestGrant(ds);
  }

  // ---------------------------------------------------------------- reused event ids, exactly

  ghost predicate Newer(d: Delivery, e: Delivery) {
    d.version > e.version || (d.version == e.version && Rank(d.kind) > Rank(e.kind))
  }

  /** Of greatest version, and of greatest rank in that version. */
  ghost predicate Top(ds: seq<Delivery>, d: Delivery) {
    d in ds && forall e | e in ds :: !Newer(e, d)
  }

  /** A top delivery of least authority: the one that should win. */
  ghost predicate Least(ds: seq<Delivery>, d: Delivery) {
    Top(ds, d) && forall e | Top(ds, e) :: RoleAuthority(d.role) <= RoleAuthority(e.role)
  }

  /** Top deliveries of ever less authority, none of them least. */
  ghost predicate Descending(ds: seq<Delivery>, hs: seq<Delivery>) {
    && (forall i | 0 <= i < |hs| :: Top(ds, hs[i]) && !Least(ds, hs[i]))
    && (forall i, j | 0 <= i < j < |hs| :: RoleAuthority(hs[i].role) > RoleAuthority(hs[j].role))
  }

  ghost predicate Carries(hs: seq<Delivery>, eventId: string) {
    exists i :: 0 <= i < |hs| && hs[i].eventId == eventId
  }

  /** Every event id of a least delivery is also carried by one of more authority, different ids by
      deliveries of different authority. */
  ghost predicate Masked(ds: seq<Delivery>, hs: seq<Delivery>) {
    Descending(ds, hs) && forall l | Least(ds, l) :: Carries(hs, l.eventId)
  }

  ghost predicate Maskable(ds: seq<Delivery>) {
    exists hs :: Masked(ds, hs)
  }

  ghost predicate OrderMatters(user: string, org: string, ds: seq<Delivery>) {
    exists a, b :: SameDeliveries(ds, a) && SameDeliveries(ds, b) && Differ(Fold(user, org, None, a), Fold(user, org, None, b))
  }

  /** The event id and the deleted flag aside. */
  ghost predicate Differ(r: Option<Membership>, q: Option<Membership>) {
    || r.None? || q.None?
    || r.value.stamp.version != q.value.stamp.version
    || r.value.stamp.rank != q.value.stamp.rank
    || r.value.role != q.value.role
  }

  /** Whatever is as new as a top delivery is top; whatever is not is older. */
  lemma TopOrOlder(ds: seq<Delivery>, d: Delivery, e: Delivery)
    requires Top(ds, d) && e in ds
    ensures if Top(ds, e) then d.version == e.version && Rank(d.kind) == Rank(e.kind) else Newer(d, e)
  {
    assert !Newer(e, d);
    if !Newer(d, e) {
      forall x | x in ds ensures !Newer(x, e) { assert !Newer(x, d); }
    }
  }

  /** A replayed part of ds with winner w: a top delivery in it makes the winner top; and a winner that
      is top but not least ends a descending list that carries every least id replayed. */
  ghost predicate Traced(ds: seq<Delivery>, p: seq<Delivery>, w: Delivery, hs: seq<Delivery>) {
    && w in p
    && (forall d | d in p :: d in ds)
    && ((exists d :: d in p && Top(ds, d)) ==> Top(ds, w))
    && (Top(ds, w) && !Least(ds, w) ==>
          && Descending(ds, hs) && hs != [] && hs[|hs| - 1] == w
          && forall l | l in p && Least(ds, l) :: Carries(hs, l.eventId))
  }

  lemma TopTakesOver(user: string, org: string, ds: seq<Delivery>, p: seq<Delivery>, w: Delivery, hs: seq<Delivery>, d: Delivery)
    requires NoDeletes(ds) && Traced(ds, p, w, hs) && Top(ds, d) && !Top(ds, w)
    ensures Apply(user, org, Some(RowOf(user, org, w)), d) == Some(RowOf(user, org, d))
    ensures Traced(ds, p + [d], d, [d])
  {
    TopOrOlder(ds, d, w);
    assert forall l | l in p + [d] :: l in p || l == d;
    assert forall l | l in p :: !Top(ds, l);
  }

  lemma OlderIsIgnored(user: string, org: string, ds: seq<Delivery>, p: seq<Delivery>, w: Delivery, hs: seq<Delivery>, d: Delivery)
    requires NoDeletes(ds) && Traced(ds, p, w, hs) && d in ds && !Top(ds, d) && Top(ds, w)
    ensures Apply(user, org, Some(RowOf(user, org, w)), d) == Some(RowOf(user, org, w))
    ensures Traced(ds, p + [d], w, hs)
  {
    TopOrOlder(ds, w, d);
    assert forall l | l in p + [d] :: l in p || l == d;
  }

  lemma LessAuthorityTakesOver(ds: seq<Delivery>, p: seq<Delivery>, w: Delivery, hs: seq<Delivery>, d: Delivery)
    requires Traced(ds, p, w, hs) && Top(ds, d) && Top(ds, w) && RoleAuthority(d.role) < RoleAuthority(w.role)
    ensures Traced(ds, p + [d], d, hs + [d])
  {
    assert forall l | l in p + [d] :: l in p || l == d;
    if !Least(ds, d) {
      var hs' := hs + [d];
      assert forall i | 0 <= i < |hs| :: hs'[i] == hs[i];
      forall l | l in p && Least(ds, l) ensures Carries(hs', l.eventId) {
        var i :| 0 <= i < |hs| && hs[i].eventId == l.eventId;
        assert hs'[i].eventId == l.eventId;
      }
    }
  }

  lemma TopIsRefused(user: string, org: string, ds: seq<Delivery>, p: seq<Delivery>, w: Delivery, hs: seq<Delivery>, d: Delivery)
    requires NoDeletes(ds) && Traced(ds, p, w, hs) && Top(ds, d) && Top(ds, w)
    requires !ShouldApplyMembership(Some(RowOf(user, org, w)), StampOf(d), d.role)
    ensures Traced(ds, p + [d], w, hs)
  {
    TopOrOlder(ds, w, d);
    assert forall l | l in p + [d] :: l in p || l == d;
    if !Least(ds, w) && Least(ds, d) {
      assert RoleAuthority(d.role) < RoleAuthority(w.role);
      assert hs[|hs| - 1].eventId == d.eventId;
    }
  }

  lemma TraceStep(user: string, org: string, ds: seq<Delivery>, p: seq<Delivery>, w: Delivery, hs: seq<Delivery>, d: Delivery)
    returns (w': Delivery, hs': seq<Delivery>)
    requires NoDeletes(ds) && Traced(ds, p, w, hs) && d in ds
    ensures Apply(user, org, Some(RowOf(user, org, w)), d) == Some(RowOf(user, org, w'))
    ensures Traced(ds, p + [d], w', hs')
  {
    var applied := ShouldApplyMembership(Some(RowOf(user, org, w)), StampOf(d), d.role);
    w', hs' := if applied then d else w, hs;
    if Top(ds, d) && !Top(ds, w) {
      TopTakesOver(user, org, ds, p, w, hs, d);
      hs' := [d];
    } else if !Top(ds, d) && Top(ds, w) {
      OlderIsIgnored(user, org, ds, p, w, hs, d);
    } else if !Top(ds, d) {
      assert forall l | l in p + [d] :: l in p || l == d;
    } else if applied {
      TopOrOlder(ds, w, d);
      LessAuthorityTakesOver(ds, p, w, hs, d);
      hs' := hs + [d];
    } else {
      TopIsRefused(user, org, ds, p, w, hs, d);
    }
  }

  lemma TraceStart(user: string, org: string, ds: seq<Delivery>, d: Delivery)
    requires d in ds
    ensures Traced(ds, [d], d, [d])
    ensures Fold(user, org, None, [d]) == Some(RowOf(user, org, d))
  {
    assert Fold(user, org, Some(RowOf(user, org, d)), [d][1..]) == Some(RowOf(user, org, d));
  }

  lemma {:induction false} ReplayTrace(user: string, org: string, ds: seq<Delivery>, p: seq<Delivery>)
    returns (w: Delivery, hs: seq<Delivery>)
    requires p != [] && NoDeletes(ds) && forall d | d in p :: d in ds
    ensures Fold(user, org, None, p) == Some(RowOf(user, org, w)) && Traced(ds, p, w, hs)
    decreases |p|
  {
    var n := |p| - 1;
    var before, d := p[..n], p[n];
    assert p == before + [d];
    assert d in p;
    if n == 0 {
      w, hs := d, [d];
      assert p == [d];
      TraceStart(user, org, ds, d);
    } else {
      assert forall e | e in before :: e in p;
      w, hs := ReplayTrace(user, org, ds, before);
      FoldSnoc(user, org, None, before, d);
      w, hs := TraceStep(user, org, ds, before, w, hs, d);
    }
  }

  /** Any order of all deliveries ends at a least one, or shows the list that masks those. */
  lemma ReplayMasks(user: string, org: string, ds: seq<Delivery>, b: seq<Delivery>) returns (w: Delivery, hs: seq<Delivery>)
    requires ds != [] && NoDeletes(ds) && SameDeliveries(ds, b)
    ensures Fold(user, org, None, b) == Some(RowOf(user, org, w))
    ensures Least(ds, w) || Masked(ds, hs)
  {
    assert ds[0] in b;
    w, hs := ReplayTrace(user, org, ds, b);
    var t := SomeTop(ds);
    assert t in b;
    forall l | Least(ds, l) ensures l in b {}
  }

  /** If no descending list carries every least id, every order ends at a least delivery. */
  lemma UnmaskedEndsLeast(user: string, org: string, ds: seq<Delivery>, b: seq<Delivery>) returns (w: Delivery)
    requires ds != [] && NoDeletes(ds) && SameDeliveries(ds, b) && !Maskable(ds)
    ensures Fold(user, org, None, b) == Some(RowOf(user, org, w)) && Least(ds, w)
  {
    var hs;
    w, hs := ReplayMasks(user, org, ds, b);
  }

  lemma {:induction false} SomeTop(ds: seq<Delivery>) returns (t: Delivery)
    requires ds != []
    ensures Top(ds, t)
  {
    var n := |ds| - 1;
    assert ds == ds[..n] + [ds[n]];
    if n == 0 {
      t := ds[0];
    } else {
      t := SomeTop(ds[..n]);
      if Newer(ds[n], t) { t := ds[n]; }
      forall e | e in ds ensures !Newer(e, t) { assert e == ds[n] || e in ds[..n]; }
    }
  }

  lemma {:induction false} SomeLeast(ds: seq<Delivery>, t: Delivery) returns (l: Delivery)
    requires Top(ds, t)
    ensures Least(ds, l)
    decreases RoleAuthority(t.role)
  {
    if Least(ds, t) { l := t; }
    else {
      var e :| Top(ds, e) && RoleAuthority(e.role) < RoleAuthority(t.role);
      l := SomeLeast(ds, e);
    }
  }

  // ---------------------------------------------------------------- an order that masks

  lemma {:induction false} Filtered(ds: seq<Delivery>, part: seq<Delivery>, eventId: string) returns (xs: seq<Delivery>)
    ensures forall d :: d in xs <==> d in part && Least(ds, d) && d.eventId == eventId
    decreases |part|
  {
    if part == [] { xs := []; }
    else {
      var n := |part| - 1;
      assert part == part[..n] + [part[n]];
      xs := Filtered(ds, part[..n], eventId);
      if Least(ds, part[n]) && part[n].eventId == eventId { xs := xs + [part[n]]; }
    }
  }

  lemma {:induction false} NotLeast(ds: seq<Delivery>, part: seq<Delivery>) returns (xs: seq<Delivery>)
    ensures forall d :: d in xs <==> d in part && !Least(ds, d)
    decreases |part|
  {
    if part == [] { xs := []; }
    else {
      var n := |part| - 1;
      assert part == part[..n] + [part[n]];
      xs := NotLeast(ds, part[..n]);
      if !Least(ds, part[n]) { xs := xs + [part[n]]; }
    }
  }

  /** Least deliveries with the event id of the row leave it as it is. */
  lemma {:induction false} SameIdIsRefused(user: string, org: string, ds: seq<Delivery>, w: Delivery, xs: seq<Delivery>)
    requires NoDeletes(ds) && Top(ds, w) && forall x | x in xs :: Top(ds, x) && x.eventId == w.eventId
    ensures Fold(user, org, Some(RowOf(user, org, w)), xs) == Some(RowOf(user, org, w))
    decreases |xs|
  {
    if xs != [] {
      assert xs[0] in xs;
      TopOrOlder(ds, w, xs[0]);
      SameIdIsRefused(user, org, ds, w, xs[1..]);
    }
  }

  /** Deliveries that are not least never bring in a least row. */
  lemma {:induction false} NotLeastStays(user: string, org: string, ds: seq<Delivery>, w: Delivery, xs: seq<Delivery>)
    returns (w': Delivery)
    requires NoDeletes(ds) && Top(ds, w) && !Least(ds, w) && forall x | x in xs :: x in ds && !Least(ds, x)
    ensures Fold(user, org, Some(RowOf(user, org, w)), xs) == Some(RowOf(user, org, w')) && Top(ds, w') && !Least(ds, w')
    decreases |xs|
  {
    if xs == [] { w' := w; }
    else {
      assert xs[0] in xs;
      TopOrOlder(ds, w, xs[0]);
      var applied := ShouldApplyMembership(Some(RowOf(user, org, w)), StampOf(xs[0]), xs[0].role);
      w' := NotLeastStays(user, org, ds, if applied then xs[0] else w, xs[1..]);
    }
  }

  /** Each delivery of the list, followed by the least ones that carry its event id. */
  lemma {:induction false} MaskingOrder(user: string, org: string, ds: seq<Delivery>, hs: seq<Delivery>)
    returns (p: seq<Delivery>, w: Delivery)
    requires ds != [] && NoDeletes(ds) && Descending(ds, hs) && hs != []
    ensures forall d | d in p :: d in ds
    ensures forall l | Least(ds, l) && Carries(hs, l.eventId) :: l in p
    ensures Fold(user, org, None, p) == Some(RowOf(user, org, w)) && w in hs && Top(ds, w) && !Least(ds, w)
    decreases |hs|
  {
    var n := |hs| - 1;
    var h := hs[n];
    assert Top(ds, h) && !Least(ds, h);
    var xs := Filtered(ds, ds, h.eventId);
    if n == 0 {
      p, w := [h] + xs, h;
      assert p[0] == h && p[1..] == xs;
      SameIdIsRefused(user, org, ds, h, xs);
    } else {
      p, w := MaskingOrder(user, org, ds, hs[..n]);
      w := MaskOne(user, org, ds, p, w, h, xs);
      p := p + ([h] + xs);
    }
    CarriedAreIn(ds, hs, p, xs);
  }

  lemma MaskOne(user: string, org: string, ds: seq<Delivery>, p: seq<Delivery>, w: Delivery, h: Delivery, xs: seq<Delivery>)
    returns (w': Delivery)
    requires NoDeletes(ds) && Fold(user, org, None, p) == Some(RowOf(user, org, w))
    requires Top(ds, w) && !Least(ds, w) && Top(ds, h) && !Least(ds, h)
    requires RoleAuthority(h.role) < RoleAuthority(w.role)
    requires forall x | x in xs :: Top(ds, x) && x.eventId == h.eventId
    ensures w' == w || w' == h
    ensures Fold(user, org, None, p + ([h] + xs)) == Some(RowOf(user, org, w'))
  {
    w' := if h.eventId == w.eventId then w else h;
    TopOrOlder(ds, w, h);
    FoldConcat(user, org, None, p, [h] + xs);
    assert ([h] + xs)[0] == h && ([h] + xs)[1..] == xs;
    SameIdIsRefused(user, org, ds, w', xs);
  }

  lemma CarriedAreIn(ds: seq<Delivery>, hs: seq<Delivery>, p: seq<Delivery>, xs: seq<Delivery>)
    requires hs != [] && forall d :: d in xs <==> d in ds && Least(ds, d) && d.eventId == hs[|hs| - 1].eventId
    requires forall x | x in xs :: x in p
    requires forall l | Least(ds, l) && Carries(hs[..|hs| - 1], l.eventId) :: l in p
    ensures forall l | Least(ds, l) && Carries(hs, l.eventId) :: l in p
  {
    forall l | Least(ds, l) && Carries(hs, l.eventId) ensures l in p {
      var i :| 0 <= i < |hs| && hs[i].eventId == l.eventId;
      if i < |hs| - 1 { assert hs[..|hs| - 1][i].eventId == l.eventId; }
    }
  }

  /** A least delivery that comes first stays. */
  lemma {:induction false} LeastStays(user: string, org: string, ds: seq<Delivery>, l: Delivery, xs: seq<Delivery>)
    requires NoDeletes(ds) && Least(ds, l) && forall x | x in xs :: x in ds
    ensures Fold(user, org, Some(RowOf(user, org, l)), xs) == Some(RowOf(user, org, l))
    decreases |xs|
  {
    if xs != [] {
      assert xs[0] in xs;
      TopOrOlder(ds, l, xs[0]);
      LeastStays(user, org, ds, l, xs[1..]);
    }
  }

  lemma MaskedOrderEndsElsewhere(user: string, org: string, ds: seq<Delivery>) returns (a: seq<Delivery>, w: Delivery)
    requires ds != [] && NoDeletes(ds) && Maskable(ds)
    ensures SameDeliveries(ds, a) && Fold(user, org, None, a) == Some(RowOf(user, org, w)) && Top(ds, w) && !Least(ds, w)
  {
    var hs :| Masked(ds, hs);
    var t := SomeTop(ds);
    var l := SomeLeast(ds, t);
    assert Carries(hs, l.eventId);
    var p, w0 := MaskingOrder(user, org, ds, hs);
    var xs := NotLeast(ds, ds);
    w := NotLeastStays(user, org, ds, w0, xs);
    a := p + xs;
    FoldConcat(user, org, None, p, xs);
  }

  lemma LeastFirst(user: string, org: string, ds: seq<Delivery>, l: Delivery) returns (b: seq<Delivery>)
    requires NoDeletes(ds) && Least(ds, l)
    ensures SameDeliveries(ds, b) && Fold(user, org, None, b) == Some(RowOf(user, org, l))
  {
    b := [l] + ds;
    assert b[0] == l && b[1..] == ds;
    assert Apply(user, org, None, l) == Some(RowOf(user, org, l));
    LeastStays(user, org, ds, l, ds);
  }

  lemma MaskableOrderMatters(user: string, org: string, ds: seq<Delivery>)
    requires ds != [] && NoDeletes(ds) && Maskable(ds)
    ensures OrderMatters(user, org, ds)
  {
    var a, w := MaskedOrderEndsElsewhere(user, org, ds);
    var l := SomeLeast(ds, w);
    var b := LeastFirst(user, org, ds, l);
    LeastHasLess(ds, l, w);
    assert Differ(Some(RowOf(user, org, w)), Some(RowOf(user, org, l)));
  }

  lemma LeastHasLess(ds: seq<Delivery>, l: Delivery, w: Delivery)
    requires Least(ds, l) && Top(ds, w) && !Least(ds, w)
    ensures RoleAuthority(l.role) < RoleAuthority(w.role)
  {
    var e :| Top(ds, e) && RoleAuthority(e.role) < RoleAuthority(w.role);
  }

  /** For any history of grants: some two orders end with a different version, rank or role if and
      only if every event id of a least-authority top delivery is reused for one of more authority,
      different ids at different authorities. */
  lemma OrderMattersExactlyWhenMaskable(user: string, org: string, ds: seq<Delivery>)
    requires ds != [] && NoDeletes(ds)
    ensures OrderMatters(user, org, ds) <==> Maskable(ds)
  {
    if Maskable(ds) {
      MaskableOrderMatters(user, org, ds);
    } else {
      forall a, b | SameDeliveries(ds, a) && SameDeliveries(ds, b)
        ensures !Differ(Fold(user, org, None, a), Fold(user, org, None, b))
      {
        var x := UnmaskedEndsLeast(user, org, ds, a);
        var y := UnmaskedEndsLeast(user, org, ds, b);
        TopOrOlder(ds, x, y);
      }
    }
  }

  /** Genuine redeliveries never mask anything. */
  lemma RedeliveriesAreNotMaskable(ds: seq<Delivery>)
    requires ds != [] && Redeliveries(ds)
    ensures !Maskable(ds)
  {
    var t := SomeTop(ds);
    var l := SomeLeast(ds, t);
    forall hs: seq<Delivery> ensures !Masked(ds, hs) {
      if Carries(hs, l.eventId) {
        var i :| 0 <= i < |hs| && hs[i].eventId == l.eventId;
        assert Top(ds, hs[i]) ==> hs[i] == l;
      }
    }
  }

  /** One reused id is not enough when the winning role also comes under an id of its own. */
  lemma FreshIdEndsTheMasking(user: string, org: string, version: int)
    ensures var ds := [Delivery("1", Updated, version, Admin), Delivery("1", Updated, version, Member), Delivery("2", Updated, version, Member)];
      !Redeliveries(ds) && !OrderMatters(user, org, ds)
  {
    var h, l, m := Delivery("1", Updated, version, Admin), Delivery("1", Updated, version, Member), Delivery("2", Updated, version, Member);
    var ds := [h, l, m];
    assert h in ds && l in ds && m in ds;
    forall hs: seq<Delivery> ensures !Masked(ds, hs) {
      assert Least(ds, m);
      if Carries(hs, "2") {
        var i :| 0 <= i < |hs| && hs[i].eventId == "2";
        assert hs[i] in ds ==> hs[i] == m;
      }
    }
    OrderMattersExactlyWhenMaskable(user, org, ds);
  }

  /** Two reused ids hide the winner as well, one behind each higher authority. */
  lemma TwoReusedIdsMask(user: string, org: string, version: int)
    ensures var ds := [Delivery("1", Updated, version, Admin), Delivery("1", Updated, version, Member),
                       Delivery("2", Updated, version, Manager), Delivery("2", Updated, version, Member)];
      OrderMatters(user, org, ds)
  {
    var ds := [Delivery("1", Updated, version, Admin), Delivery("1", Updated, version, Member),
               Delivery("2", Updated, version, Manager), Delivery("2", Updated, version, Member)];
    var hs := [ds[0], ds[2]];
    assert forall d | d in ds :: Top(ds, d);
    assert !Least(ds, ds[0]) && !Least(ds, ds[2]) by { assert Top(ds, ds[1]); }
    assert hs[0].eventId == "1" && hs[1].eventId == "2";
    assert Masked(ds, hs);
    OrderMattersExactlyWhenMaskable(user, org, ds);
  }
}
