/** At most one open reply per conversation, none while it is archived, and at most one reply
    slot per inbound message, in every run. */
module ReplySingleFlight {
  import opened ArtifactStatuses
  import opened Options
  import opened Replies

  ghost predicate OpenHere(d: Desk, k: string) {
    k in d.artifacts && InThread(d, d.artifacts[k]) && Open(d.artifacts[k])
  }

  /** Row k keeps the reply slot of inbound message `source`. */
  ghost predicate KeepsSlot(d: Desk, k: string, source: string) {
    && k in d.artifacts && InThread(d, d.artifacts[k])
    && d.artifacts[k].replyTo == Some(source) && SingleFlight(d.artifacts[k])
  }

  ghost predicate Inv(d: Desk) {
    && (forall j, k | OpenHere(d, j) && OpenHere(d, k) :: j == k)
    && (d.archived ==> forall k :: !OpenHere(d, k))
    && (forall j, k, source | KeepsSlot(d, j, source) && KeepsSlot(d, k, source) :: j == k)
    && (forall k | k in d.claims :: k in d.artifacts && Held(d.artifacts[k]))
  }

  /** What a claimed row can have become under its worker. */
  predicate Held(a: Artifact) {
    a.status == SENDING || a.status == DELIVERY_UNKNOWN || a.status == SENT
  }

  /** Rows are left as they were, except replies of this thread that had not reached the
      provider: those may be suppressed.  What was sent or is in flight is never rewritten. */
  ghost predicate OnlyStops(d: Desk, d': Desk) {
    && d'.inbound == d.inbound && d'.claims == d.claims
    && forall k | k in d.artifacts ::
         && k in d'.artifacts
         && (d'.artifacts[k] == d.artifacts[k]
             || (&& InThread(d, d.artifacts[k]) && Stoppable(d.artifacts[k])
                 && d'.artifacts[k] == d.artifacts[k].(status := SUPPRESSED, unknownMarker := false)))
  }

  // ---------------------------------------------------------------- drafting establishes it

  /** A created draft is the only open reply of its conversation, whatever rows were there
      before, and it answers the inbound message that is latest when it commits. */
  lemma CreatedDraftStandsAlone(d: Desk, id: string, source: string, now: nat)
    requires PersistReply(d, id, source, now).1 == Created
    ensures var d' := PersistReply(d, id, source, now).0;
      && (forall k :: OpenHere(d', k) <==> k == id)
      && d'.artifacts[id].replyTo == Some(source)
      && IsLatestInbound(d, source) && IsLatestInbound(d', source)
      && !d.archived && !d'.archived
      && !(exists k :: KeepsSlot(d, k, source))
      && OnlyStops(d, d') && d'.artifacts.Keys == d.artifacts.Keys + {id} && id !in d.artifacts
  {
    var d' := PersistReply(d, id, source, now).0;
    forall k ensures OpenHere(d', k) <==> k == id {
      if k != id && k in d.artifacts { assert !Blocks(d, d.artifacts[k], source); }
    }
    forall k ensures !KeepsSlot(d, k, source) {
      if k in d.artifacts { assert !Blocks(d, d.artifacts[k], source); }
    }
  }

  ghost predicate SentFor(d: Desk, k: string, source: string) {
    && k in d.artifacts && InThread(d, d.artifacts[k]) && d.artifacts[k].status == SENT
    && (d.artifacts[k].replyTo == Some(source) || d.artifacts[k].replyTo == None)
  }

  /** A refused draft changes nothing, and the reason given is the true one. */
  lemma RefusedDraftChangesNothing(d: Desk, id: string, source: string, now: nat)
    requires PersistReply(d, id, source, now).1 != Created
    ensures var (d', reply) := PersistReply(d, id, source, now);
      && d' == d
      && (reply == ConversationArchived <==> d.archived)
      && (reply == StaleSource ==> !IsLatestInbound(d, source))
      && (reply == Existing ==> exists k :: OpenHere(d, k) || SentFor(d, k, source))
  {
    if PersistReply(d, id, source, now).1 == Existing {
      var k :| k in d.artifacts && Blocks(d, d.artifacts[k], source);
      assert OpenHere(d, k) || SentFor(d, k, source);
    }
  }

  lemma DraftKeeps(d: Desk, id: string, source: string, now: nat)
    requires Inv(d)
    ensures Inv(PersistReply(d, id, source, now).0)
  {
    var (d', reply) := PersistReply(d, id, source, now);
    if reply == Created {
      CreatedDraftStandsAlone(d, id, source, now);
      forall j, k, s | KeepsSlot(d', j, s) && KeepsSlot(d', k, s) ensures j == k {
        if j != id { assert KeepsSlot(d, j, s); }
        if k != id { assert KeepsSlot(d, k, s); }
      }
    }
  }

  // ---------------------------------------------------------------- archive

  /** A committed archive leaves no open reply behind and rewrites nothing else; it is refused
      exactly when a reply of the thread is in flight. */
  lemma ArchiveIsAStopBoundary(d: Desk)
    ensures Archive(d).1 == Changed ==>
      var d' := Archive(d).0;
      d'.archived && (forall k :: !OpenHere(d', k)) && OnlyStops(d, d') && d'.artifacts.Keys == d.artifacts.Keys
    ensures Archive(d).1 != Changed ==> Archive(d).0 == d
    ensures Archive(d).1 == Unchanged <==> d.archived
    ensures Archive(d).1 == DeliveryInProgress <==>
      !d.archived && exists k :: k in d.artifacts && InThread(d, d.artifacts[k]) && InFlight(d.artifacts[k])
  {
    var d' := Archive(d).0;
    if Archive(d).1 == Changed {
      forall k ensures !OpenHere(d', k) {
        if k in d.artifacts { assert !(InThread(d, d.artifacts[k]) && InFlight(d.artifacts[k])); }
      }
    }
  }

  lemma ArchiveKeeps(d: Desk)
    requires Inv(d)
    ensures Inv(Archive(d).0)
  {
    var (d', reply) := Archive(d);
    if reply == Changed {
      ArchiveIsAStopBoundary(d);
      forall j, k, s | KeepsSlot(d', j, s) && KeepsSlot(d', k, s) ensures j == k {
        assert KeepsSlot(d, j, s) && KeepsSlot(d, k, s);
      }
    }
  }

  // ---------------------------------------------------------------- single-row steps

  /** A step that changes one row, reopening nothing and taking no slot back, keeps the invariant. */
  lemma RowStepKeeps(d: Desk, d': Desk, id: string)
    requires Inv(d)
    requires d'.conversationId == d.conversationId && d'.providerThreadId == d.providerThreadId
    requires d'.archived == d.archived
    requires d'.artifacts.Keys == d.artifacts.Keys
    requires forall k | k in d.artifacts && k != id :: d'.artifacts[k] == d.artifacts[k]
    requires id in d.artifacts ==>
      var a, a' := d.artifacts[id], d'.artifacts[id];
      && a'.conversationId == a.conversationId && a'.providerThreadId == a.providerThreadId && a'.replyTo == a.replyTo
      && (Open(a') ==> Open(a)) && (SingleFlight(a') ==> SingleFlight(a))
    requires forall k | k in d'.claims :: k in d'.artifacts && Held(d'.artifacts[k])
    ensures Inv(d')
  {
    forall k ensures OpenHere(d', k) ==> OpenHere(d, k) {}
    forall k, s ensures KeepsSlot(d', k, s) ==> KeepsSlot(d, k, s) {}
  }

  /** A claimed reply goes to the provider alone: it answers the latest inbound message, nothing
      else in its thread is in flight, and nothing was sent for the same message. */
  lemma ClaimIsExclusive(d: Desk, id: string, recipientSuppressed: bool, capReached: bool)
    requires Reserve(d, id, recipientSuppressed, capReached).1 == Claimed
    ensures var d' := Reserve(d, id, recipientSuppressed, capReached).0;
      && d'.artifacts[id].status == SENDING
      && !recipientSuppressed && !capReached
      && (forall k | k in d'.artifacts && k != id && SameThread(d'.artifacts[id], d'.artifacts[k]) ::
            !InFlight(d'.artifacts[k]))
      && (forall k | k in d'.artifacts && k != id && SameSource(d'.artifacts[id], d'.artifacts[k]) ::
            d'.artifacts[k].status != SENT)
      && (d'.artifacts[id].conversationId == Some(d.conversationId) && d'.artifacts[id].replyTo.Some? ==>
            IsLatestInbound(d', d'.artifacts[id].replyTo.value))
  {
    forall k | k in d.artifacts ensures !Outranks(d, k, id) {}
  }

  lemma ReserveKeeps(d: Desk, id: string, recipientSuppressed: bool, capReached: bool)
    requires Inv(d)
    ensures Inv(Reserve(d, id, recipientSuppressed, capReached).0)
  {
    RowStepKeeps(d, Reserve(d, id, recipientSuppressed, capReached).0, id);
  }

  lemma OtherThreadsKeep(d: Desk, artifacts: map<string, Artifact>)
    requires Inv(d) && LeavesThreadAlone(d, artifacts)
    ensures Inv(d.(artifacts := artifacts))
  {
    var d' := d.(artifacts := artifacts);
    forall k ensures OpenHere(d', k) ==> OpenHere(d, k) {}
    forall k, s ensures KeepsSlot(d', k, s) ==> KeepsSlot(d, k, s) {}
  }

  /** Inbound messages and a reopened conversation touch no reply. */
  lemma MessageStepKeeps(d: Desk, d': Desk)
    requires Inv(d)
    requires d'.conversationId == d.conversationId && d'.providerThreadId == d.providerThreadId
    requires d'.artifacts == d.artifacts && d'.claims <= d.claims && (d'.archived ==> d.archived)
    ensures Inv(d')
  {
    forall k ensures OpenHere(d', k) == OpenHere(d, k) {}
    forall k, s ensures KeepsSlot(d', k, s) == KeepsSlot(d, k, s) {}
  }

  lemma SetStatusKeeps(d: Desk, id: string, from: set<ArtifactStatus>, to: ArtifactStatus)
    requires Inv(d)
    requires to == SUPPRESSED || to == REJECTED || to == FAILED
          || (from == {PENDING_REVIEW} && to == APPROVED)
          || (from == {SENDING} && (to == DELIVERY_UNKNOWN || to == APPROVED))
          || (from == {APPROVED} && to == SENDING)
          || (from == {SENDING, SENT} && to == SENT)
    requires id in d.claims && id in d.artifacts && d.artifacts[id].status in from ==> to == DELIVERY_UNKNOWN || to == SENT
    ensures Inv(SetStatus(d, id, from, to))
  {
    RowStepKeeps(d, SetStatus(d, id, from, to), id);
  }

  lemma WorkerStepKeeps(d: Desk, e: Event)
    requires Inv(d) && (e.Released? || e.Sent? || e.WorkerLost?)
    ensures Inv(Step(d, e))
  {
    match e
    case Released(id) => RowStepKeeps(d, Step(d, e), id);
    case Sent(id, live) => RowStepKeeps(d, Step(d, e), id);
    case WorkerLost(id) => MessageStepKeeps(d, Step(d, e));
  }

  lemma StatusStepKeeps(d: Desk, e: Event)
    requires Inv(d)
    requires e.Approved? || e.RejectedByReviewer? || e.SuppressedByAdmin? || e.MarkedUnknown? || e.DeliveryRecorded?
          || e.RetriesExhausted?
    ensures Inv(Step(d, e))
  {
    match e
    case Approved(id) => SetStatusKeeps(d, id, {PENDING_REVIEW}, APPROVED);
    case RejectedByReviewer(id) => SetStatusKeeps(d, id, {PENDING_REVIEW}, REJECTED);
    case SuppressedByAdmin(id) => SetStatusKeeps(d, id, {DRAFT, PENDING_REVIEW, APPROVED}, SUPPRESSED);
    case MarkedUnknown(id) => SetStatusKeeps(d, id, {SENDING}, DELIVERY_UNKNOWN);
    case DeliveryRecorded(id) => SetStatusKeeps(d, id, {SENDING, SENT}, SENT);
    case RetriesExhausted(id, firstClass) =>
      if id in d.artifacts && d.artifacts[id].status == SENDING { SetStatusKeeps(d, id, {SENDING}, DELIVERY_UNKNOWN); }
      else { SetStatusKeeps(d, id, {APPROVED}, if firstClass then FAILED else REJECTED); }
  }

  lemma StepKeeps(d: Desk, e: Event)
    requires Inv(d)
    ensures Inv(Step(d, e))
  {
    match e
    case InboundRecorded(_, _) => MessageStepKeeps(d, Step(d, e));
    case Unarchived => MessageStepKeeps(d, Step(d, e));
    case Drafted(id, source, now) => DraftKeeps(d, id, source, now);
    case Archived => ArchiveKeeps(d);
    case Reserved(id, recipientSuppressed, capReached) => ReserveKeeps(d, id, recipientSuppressed, capReached);
    case OtherThreadsChanged(artifacts) => if LeavesThreadAlone(d, artifacts) { OtherThreadsKeep(d, artifacts); }
    case Released(_) => WorkerStepKeeps(d, e);
    case Sent(_, _) => WorkerStepKeeps(d, e);
    case WorkerLost(_) => WorkerStepKeeps(d, e);
    case _ => StatusStepKeeps(d, e);
  }

  lemma {:induction false} RunKeeps(d: Desk, events: seq<Event>)
    requires Inv(d)
    ensures Inv(Run(d, events))
    decreases |events|
  {
    if events != [] {
      StepKeeps(d, events[0]);
      RunKeeps(Step(d, events[0]), events[1..]);
    }
  }

  /** In every run from an empty thread: one open reply at most, none while the conversation is
      archived, one slot per inbound message, and no claim on a row that went back to review. */
  lemma OneOpenReply(conversationId: string, providerThreadId: string, events: seq<Event>)
    ensures var d := Run(Desk(conversationId, providerThreadId, false, map[], map[], {}), events);
      && (forall j, k | OpenHere(d, j) && OpenHere(d, k) :: j == k)
      && (d.archived ==> forall k :: !OpenHere(d, k))
      && (forall j, k, source | KeepsSlot(d, j, source) && KeepsSlot(d, k, source) :: j == k)
      && (forall k | k in d.claims :: k in d.artifacts && Held(d.artifacts[k]))
  {
    RunKeeps(Desk(conversationId, providerThreadId, false, map[], map[], {}), events);
  }
}
