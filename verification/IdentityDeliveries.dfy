/** Convergence of deliveries in whole runs of the handlers: refusals, retries and everything that
    happens to other memberships, organizations and users may come in between. */
module IdentityDeliveries {
  import opened Options
  import opened Identity
  import opened IdentityProjection
  import opened IdentityRuns
  import opened IdentityLocks
  import opened IdentityConvergence

  /** The delivery a handler call commits for this membership, if it does. */
  function Commits(t: Tables, e: Event, membership: string): Option<Delivery>
    requires WellKeyed(t)
  {
    if && e.MembershipDelivered? && e.data.id == membership
       && (e.kind == Deleted || AuthorityGate(t.cutover, e.data.version) == Open)
       && Handle(t, e).1 == Committed
    then Some(Delivery(e.eventId, e.kind, e.data.version, e.data.role))
    else None
  }

  /** The deliveries a run commits for this membership, in order. */
  ghost function Deliveries(t: Tables, events: seq<Event>, membership: string): seq<Delivery>
    requires Sound(t)
    decreases |events|
  {
    if events == [] then []
    else
      HandlerKeepsSound(t, events[0]);
      var rest := Deliveries(Handle(t, events[0]).0, events[1..], membership);
      match Commits(t, events[0], membership)
      case None => rest
      case Some(d) => [d] + rest
  }

  /** All deliveries for the membership name this person and organization. */
  predicate OneTuple(events: seq<Event>, membership: string, user: string, org: string) {
    forall e | e in events && e.MembershipDelivered? && e.data.id == membership ::
      e.data.userId == user && e.data.orgId == org
  }

  predicate RowIsOf(t: Tables, membership: string, user: string, org: string) {
    membership in t.memberships ==> t.memberships[membership].userId == user && t.memberships[membership].orgId == org
  }

  lemma OthersLeaveTheRow(t: Tables, e: Event, membership: string)
    requires WellKeyed(t) && !(e.MembershipDelivered? && e.data.id == membership)
    ensures Lookup(Handle(t, e).0.memberships, membership) == Lookup(t.memberships, membership)
  {
    HandlerWritesUnderLocks(t, e);
    assert Key(MembershipLock, membership) !in LockKeys(e);
    assert !Holds(e, MembershipLock, membership);
  }

  lemma RefusalsLeaveTheRow(t: Tables, e: Event, membership: string)
    requires WellKeyed(t) && e.MembershipDelivered? && e.data.id == membership
    requires Commits(t, e, membership).None?
    ensures Lookup(Handle(t, e).0.memberships, membership) == Lookup(t.memberships, membership)
  {
  }

  lemma StepFollowsApply(t: Tables, e: Event, membership: string, user: string, org: string)
    requires WellKeyed(t) && RowIsOf(t, membership, user, org) && OneTuple([e], membership, user, org)
    ensures Lookup(Handle(t, e).0.memberships, membership) ==
      match Commits(t, e, membership)
      case None => Lookup(t.memberships, membership)
      case Some(d) => Apply(user, org, Lookup(t.memberships, membership), d)
    ensures RowIsOf(Handle(t, e).0, membership, user, org)
  {
    assert e in [e];
    if !(e.MembershipDelivered? && e.data.id == membership) {
      OthersLeaveTheRow(t, e, membership);
    } else if Commits(t, e, membership).None? {
      RefusalsLeaveTheRow(t, e, membership);
    } else {
      HandlerFollowsFold(t, e.data, e.kind, e.eventId, e.known, e.newRow);
    }
    assert Lookup(Handle(t, e).0.memberships, membership).Some? <==> membership in Handle(t, e).0.memberships;
  }

  /** Whatever else a run does, the row of a membership is the fold of what it committed for it. */
  lemma {:induction false} RunFollowsFold(t: Tables, events: seq<Event>, membership: string, user: string, org: string)
    requires Sound(t) && RowIsOf(t, membership, user, org) && OneTuple(events, membership, user, org)
    ensures Lookup(Run(t, events).memberships, membership)
         == Fold(user, org, Lookup(t.memberships, membership), Deliveries(t, events, membership))
    decreases |events|
  {
    if events != [] {
      var e, t' := events[0], Handle(t, events[0]).0;
      assert OneTuple([e], membership, user, org) && OneTuple(events[1..], membership, user, org);
      HandlerKeepsSound(t, e);
      StepFollowsApply(t, e, membership, user, org);
      RunFollowsFold(t', events[1..], membership, user, org);
      var rest := Deliveries(t', events[1..], membership);
      if Commits(t, e, membership).Some? {
        assert ([Commits(t, e, membership).value] + rest)[1..] == rest;
      }
    }
  }

  /** The same grants on both sides, at least one, each redelivered only as it was. */
  ghost predicate SameGrants(a: seq<Delivery>, b: seq<Delivery>) {
    a != [] && SameDeliveries(a, b) && NoDeletes(a) && Redeliveries(a)
  }

  /** Two runs, over different tables and with different traffic around, that commit the same grants
      for a membership leave it with the same version, rank and role. */
  lemma HandlersConverge(t: Tables, a: seq<Event>, s: Tables, b: seq<Event>, membership: string, user: string, org: string)
    requires Sound(t) && Sound(s) && membership !in t.memberships && membership !in s.memberships
    requires OneTuple(a, membership, user, org) && OneTuple(b, membership, user, org)
    requires SameGrants(Deliveries(t, a, membership), Deliveries(s, b, membership))
    ensures membership in Run(t, a).memberships && membership in Run(s, b).memberships
    ensures var x, y := Run(t, a).memberships[membership], Run(s, b).memberships[membership];
      x.stamp.version == y.stamp.version && x.stamp.rank == y.stamp.rank && x.role == y.role && !x.deleted && !y.deleted
  {
    RunFollowsFold(t, a, membership, user, org);
    RunFollowsFold(s, b, membership, user, org);
    DeliveryOrderDoesNotMatter(user, org, Deliveries(t, a, membership), Deliveries(s, b, membership));
  }

  /** A run that commits a delete at least as new as every grant it commits and as the row it
      started from leaves the membership deleted, wherever in the run the delete comes. */
  lemma NewestDeleteWinsInRuns(t: Tables, events: seq<Event>, membership: string, user: string, org: string, delete: Delivery)
    requires Sound(t) && RowIsOf(t, membership, user, org) && OneTuple(events, membership, user, org)
    requires membership in t.memberships ==>
      var row := t.memberships[membership];
      row.deleted || (row.stamp.version <= delete.version && row.stamp.rank < Rank(Deleted))
    requires delete in Deliveries(t, events, membership) && delete.kind == Deleted
    requires forall d | d in Deliveries(t, events, membership) && d.kind != Deleted :: d.version <= delete.version
    ensures membership in Run(t, events).memberships && Run(t, events).memberships[membership].deleted
  {
    RunFollowsFold(t, events, membership, user, org);
    PendingDeleteLands(user, org, Lookup(t.memberships, membership), Deliveries(t, events, membership), delete);
  }
}
