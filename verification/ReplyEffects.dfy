/** What every step does to the status of a reply, told from the columns of its row, and what a
    reply must have been through before it is sent. */
module ReplyEffects {
  import opened ArtifactStatuses
  import opened Options
  import opened Ordering
  import opened Replies
  import opened ReplySingleFlight

  // ---------------------------------------------------------------- rows, told from their columns

  ghost predicate Here(d: Desk, k: string) {
    && k in d.artifacts
    && (d.artifacts[k].conversationId == Some(d.conversationId) || d.artifacts[k].providerThreadId == Some(d.providerThreadId))
  }

  /** Not yet with the provider. */
  ghost predicate Waiting(d: Desk, k: string) {
    k in d.artifacts && d.artifacts[k].status in {DRAFT, PENDING_REVIEW, APPROVED}
  }

  /** With the provider, or nobody knows. */
  ghost predicate Flying(d: Desk, k: string) {
    k in d.artifacts && (d.artifacts[k].status in {SENDING, DELIVERY_UNKNOWN} || (d.artifacts[k].status == REJECTED && d.artifacts[k].unknownMarker))
  }

  /** The last inbound message: none later, and among equally late ones none with a greater id. */
  ghost predicate Newest(d: Desk, source: string) {
    && source in d.inbound
    && forall other | other in d.inbound ::
         d.inbound[other] <= d.inbound[source] && (d.inbound[other] == d.inbound[source] ==> other == source || TextBefore(other, source))
  }

  lemma NewestMeans(d: Desk, source: string)
    ensures IsLatestInbound(d, source) <==> Newest(d, source)
  {
    forall other | other in d.inbound ensures other == source || TextBefore(other, source) <==> !TextBefore(source, other) {
      TextOrderIsTotal(other, source);
    }
  }

  // ---------------------------------------------------------------- drafting

  /** A row that leaves no room for a reply to this message: it answers the same message or none in
      particular and is not settled without a send, or it is with the provider. */
  ghost predicate InTheWay(d: Desk, k: string, source: string) {
    && Here(d, k)
    && (|| Flying(d, k)
        || ((d.artifacts[k].replyTo.None? || d.artifacts[k].replyTo.value == source)
            && (Waiting(d, k) || d.artifacts[k].status == SENT)))
  }

  /** Exactly why a draft is refused. */
  lemma DraftAnswers(d: Desk, id: string, source: string, now: nat)
    ensures PersistReply(d, id, source, now).1 ==
      if d.archived then ConversationArchived
      else if !Newest(d, source) then StaleSource
      else if exists k :: InTheWay(d, k, source) then Existing
      else if id in d.artifacts then IdTaken
      else Created
  {
    NewestMeans(d, source);
    forall k ensures InTheWay(d, k, source) <==> k in d.artifacts && Blocks(d, d.artifacts[k], source) {}
  }

  /** A new draft waits for review; drafts and approvals for other messages of the thread give way. */
  lemma CreatedDraftAwaitsReview(d: Desk, id: string, source: string, now: nat)
    requires PersistReply(d, id, source, now).1 == Created
    ensures var d' := PersistReply(d, id, source, now).0;
      && d'.artifacts.Keys == d.artifacts.Keys + {id} && id !in d.artifacts
      && d'.artifacts[id] == Artifact(PENDING_REVIEW, false, Some(d.conversationId), Some(d.providerThreadId), Some(source), now)
      && d' == d.(artifacts := d'.artifacts)
      && forall k | k in d.artifacts ::
           d'.artifacts[k] ==
             if Here(d, k) && Waiting(d, k) && d.artifacts[k].replyTo.Some? && d.artifacts[k].replyTo.value != source
             then d.artifacts[k].(status := SUPPRESSED, unknownMarker := false) else d.artifacts[k]
  {
  }

  // ---------------------------------------------------------------- archive

  lemma ArchiveStops(d: Desk)
    ensures Archive(d).1 ==
      if d.archived then Unchanged else if exists k :: Here(d, k) && Flying(d, k) then DeliveryInProgress else Changed
    ensures Archive(d).1 != Changed ==> Archive(d).0 == d
    ensures Archive(d).1 == Changed ==>
      var d' := Archive(d).0;
      && d' == d.(archived := true, artifacts := d'.artifacts) && d'.artifacts.Keys == d.artifacts.Keys
      && forall k | k in d.artifacts ::
           d'.artifacts[k] == if Here(d, k) && Waiting(d, k)
             then d.artifacts[k].(status := SUPPRESSED, unknownMarker := false) else d.artifacts[k]
  {
    forall k ensures Here(d, k) && Flying(d, k) <==> k in d.artifacts && InThread(d, d.artifacts[k]) && InFlight(d.artifacts[k]) {}
  }

  // ---------------------------------------------------------------- dispatch

  ghost predicate SameConversation(d: Desk, k: string, id: string)
    requires k in d.artifacts && id in d.artifacts
  {
    var a, b := d.artifacts[id], d.artifacts[k];
    || (a.conversationId.Some? && b.conversationId.Some? && a.conversationId.value == b.conversationId.value)
    || (a.providerThreadId.Some? && b.providerThreadId.Some? && a.providerThreadId.value == b.providerThreadId.value)
  }

  /** Created before, at equal times with the smaller id. */
  ghost predicate CameFirst(d: Desk, k: string, id: string)
    requires k in d.artifacts && id in d.artifacts
  {
    && d.artifacts[k].createdAt <= d.artifacts[id].createdAt
    && (d.artifacts[k].createdAt == d.artifacts[id].createdAt ==> TextBefore(k, id))
  }

  /** Another row of the thread is with the provider; or it answers the same message, or one of the
      two answers none in particular, and it was sent or came first. */
  ghost predicate Precedes(d: Desk, k: string, id: string)
    requires id in d.artifacts
  {
    && k in d.artifacts && k != id && SameConversation(d, k, id)
    && (|| Flying(d, k)
        || ((d.artifacts[id].replyTo.None? || d.artifacts[k].replyTo.None? || d.artifacts[k].replyTo == d.artifacts[id].replyTo)
            && (d.artifacts[k].status == SENT || (Waiting(d, k) && CameFirst(d, k, id)))))
  }

  /** No thread to speak of, a suppressed recipient, a newer inbound message, or another reply first. */
  ghost predicate MustStop(d: Desk, id: string, recipientSuppressed: bool)
    requires id in d.artifacts
  {
    var a := d.artifacts[id];
    || recipientSuppressed
    || (a.conversationId.None? && a.providerThreadId.None?)
    || (a.conversationId == Some(d.conversationId) && a.replyTo.Some? && !Newest(d, a.replyTo.value))
    || exists k :: Precedes(d, k, id)
  }

  /** Exactly when a reply is claimed, stopped, postponed or left alone, and what each does. */
  lemma ReservationAnswers(d: Desk, id: string, recipientSuppressed: bool, capReached: bool)
    ensures Reserve(d, id, recipientSuppressed, capReached) ==
      if id !in d.artifacts || d.artifacts[id].status != APPROVED then (d, Skipped)
      else
        var a := d.artifacts[id];
        if MustStop(d, id, recipientSuppressed) then
          (d.(artifacts := d.artifacts[id := a.(status := SUPPRESSED, unknownMarker := false)]), Refused)
        else if capReached then (d, DailyCap)
        else (d.(artifacts := d.artifacts[id := a.(status := SENDING, unknownMarker := false)], claims := d.claims + {id}), Claimed)
  {
    if id in d.artifacts {
      if d.artifacts[id].replyTo.Some? { NewestMeans(d, d.artifacts[id].replyTo.value); }
      forall k | k in d.artifacts ensures Precedes(d, k, id) <==> Outranks(d, k, id) {}
    }
  }

  // ---------------------------------------------------------------- the status of one row

  ghost predicate Kept(d: Desk, e: Event, k: string) {
    e.OtherThreadsChanged? ==> Here(d, k) || k in d.claims
  }

  /** Whatever step is taken, the new status of a row that stays. */
  ghost function StatusAfter(d: Desk, e: Event, k: string): ArtifactStatus
    requires k in d.artifacts
  {
    var status := d.artifacts[k].status;
    match e
    case Drafted(id, source, now) =>
      if PersistReply(d, id, source, now).1 == Created && Here(d, k) && Waiting(d, k)
         && d.artifacts[k].replyTo.Some? && d.artifacts[k].replyTo.value != source
      then SUPPRESSED else status
    case Archived => if Archive(d).1 == Changed && Here(d, k) && Waiting(d, k) then SUPPRESSED else status
    case Approved(id) => if id == k && status == PENDING_REVIEW then APPROVED else status
    case RejectedByReviewer(id) => if id == k && status == PENDING_REVIEW then REJECTED else status
    case SuppressedByAdmin(id) => if id == k && Waiting(d, k) then SUPPRESSED else status
    case Reserved(id, recipientSuppressed, capReached) =>
      if id != k || status != APPROVED then status
      else if MustStop(d, k, recipientSuppressed) then SUPPRESSED
      else if capReached then APPROVED else SENDING
    case Released(id) => if id == k && k in d.claims && status == SENDING then APPROVED else status
    case Sent(id, live) => if id == k && k in d.claims then if live then SENT else SIMULATED else status
    case MarkedUnknown(id) => if id == k && status == SENDING then DELIVERY_UNKNOWN else status
    case DeliveryRecorded(id) => if id == k && status == SENDING then SENT else status
    case RetriesExhausted(id, firstClass) =>
      if id == k && status == SENDING then DELIVERY_UNKNOWN
      else if id == k && status == APPROVED then if firstClass then FAILED else REJECTED
      else status
    case _ => status
  }

  lemma StatusColumn(d: Desk, e: Event, k: string)
    requires k in d.artifacts && Kept(d, e, k)
    ensures k in Step(d, e).artifacts
    ensures Step(d, e).artifacts[k].status == StatusAfter(d, e, k)
  {
    if e.Reserved? { ReservationAnswers(d, e.id, e.recipientSuppressed, e.capReached); }
  }

  /** The reserved note goes with every change of status, and nothing else of a row ever changes. */
  lemma OtherColumns(d: Desk, e: Event, k: string)
    requires k in d.artifacts && Kept(d, e, k)
    ensures k in Step(d, e).artifacts
    ensures var a, a' := d.artifacts[k], Step(d, e).artifacts[k];
      && a' == a.(status := a'.status, unknownMarker := a'.unknownMarker)
      && (a'.status != a.status ==> !a'.unknownMarker)
      && (a'.unknownMarker ==> a.unknownMarker)
  {
    if e.Reserved? { ReservationAnswers(d, e.id, e.recipientSuppressed, e.capReached); }
  }

  /** Rows of the thread are made by drafting alone. */
  lemma NewRowsAreDrafts(d: Desk, e: Event, k: string)
    requires !Here(d, k) && Here(Step(d, e), k)
    ensures e.Drafted? && e.id == k && PersistReply(d, k, e.source, e.now).1 == Created
    ensures Step(d, e).artifacts[k].status == PENDING_REVIEW
  {
    if e.Reserved? { ReservationAnswers(d, e.id, e.recipientSuppressed, e.capReached); }
  }

  /** Who holds a claim after a step. */
  lemma ClaimsColumn(d: Desk, e: Event)
    ensures Step(d, e).claims ==
      if e.Reserved? && e.id in d.artifacts && d.artifacts[e.id].status == APPROVED
         && !MustStop(d, e.id, e.recipientSuppressed) && !e.capReached then d.claims + {e.id}
      else if (e.Released? && e.id in d.claims) || (e.Sent? && e.id in d.claims && e.id in d.artifacts) || e.WorkerLost?
      then d.claims - {e.id}
      else d.claims
  {
    if e.Reserved? { ReservationAnswers(d, e.id, e.recipientSuppressed, e.capReached); }
  }

  /** An inbound message is stored once and reopens the conversation. */
  lemma InboundColumn(d: Desk, e: Event)
    ensures Step(d, e).inbound == if e.InboundRecorded? && e.messageId !in d.inbound then d.inbound[e.messageId := e.sentAt] else d.inbound
    ensures Step(d, e).archived ==
      if e.Archived? then d.archived || Archive(d).1 == Changed
      else d.archived && !e.Unarchived? && !(e.InboundRecorded? && e.messageId !in d.inbound)
    ensures Step(d, e).conversationId == d.conversationId && Step(d, e).providerThreadId == d.providerThreadId
  {
    if e.Reserved? { ReservationAnswers(d, e.id, e.recipientSuppressed, e.capReached); }
  }

  // ---------------------------------------------------------------- review before dispatch

  lemma {:induction false} RunSnoc(d: Desk, events: seq<Event>, n: nat)
    requires n < |events|
    ensures Run(d, events[..n + 1]) == Step(Run(d, events[..n]), events[n])
    decreases |events|
  {
    if n == 0 {
      assert events[..1] == [events[0]] && Run(Step(d, events[0]), []) == Step(d, events[0]);
    } else {
      assert events[..n + 1][1..] == events[1..][..n] && events[..n][1..] == events[1..][..n - 1];
      RunSnoc(Step(d, events[0]), events[1..], n - 1);
    }
  }

  /** Event i drafted the reply: the row came to be, waiting for review. */
  ghost predicate DraftedAt(d: Desk, events: seq<Event>, k: string, i: nat) {
    && i < |events| && events[i].Drafted? && events[i].id == k
    && PersistReply(Run(d, events[..i]), k, events[i].source, events[i].now).1 == Created
  }

  /** Event j is the reviewer's approval of the row as it waited. */
  ghost predicate ApprovedAt(d: Desk, events: seq<Event>, k: string, j: nat) {
    && j < |events| && events[j] == Approved(k)
    && k in Run(d, events[..j]).artifacts && Run(d, events[..j]).artifacts[k].status == PENDING_REVIEW
  }

  ghost predicate WasDrafted(d: Desk, events: seq<Event>, k: string, n: nat) {
    exists i: nat :: i < n && DraftedAt(d, events, k, i)
  }

  ghost predicate WasApproved(d: Desk, events: seq<Event>, k: string, n: nat) {
    exists i: nat, j: nat :: i < j < n && DraftedAt(d, events, k, i) && ApprovedAt(d, events, k, j)
  }

  /** Statuses a reply can have without an approval. */
  ghost predicate Unapproved(status: ArtifactStatus) {
    status in {PENDING_REVIEW, REJECTED, SUPPRESSED}
  }

  /** What the first n events must have held for the row as it stands. */
  ghost predicate Reviewed(d: Desk, events: seq<Event>, n: nat, now: Desk, k: string) {
    Here(now, k) ==>
      && WasDrafted(d, events, k, n)
      && (!Unapproved(now.artifacts[k].status) || k in now.claims ==> WasApproved(d, events, k, n))
  }

  lemma {:induction false} ReviewComesFirst(d: Desk, events: seq<Event>, n: nat, k: string)
    requires d.artifacts == map[] && d.claims == {} && n <= |events|
    ensures Reviewed(d, events, n, Run(d, events[..n]), k)
    decreases n
  {
    if n == 0 {
      assert events[..0] == [];
    } else {
      RunSnoc(d, events, n - 1);
      ReviewComesFirst(d, events, n - 1, k);
      RunKeepsDesk(d, events[..n - 1]);
      ReviewStep(d, events, n - 1, Run(d, events[..n - 1]), k);
    }
  }

  lemma RunKeepsDesk(d: Desk, events: seq<Event>)
    requires d.artifacts == map[] && d.claims == {}
    ensures ReplySingleFlight.Inv(Run(d, events))
  {
    ReplySingleFlight.RunKeeps(d, events);
  }

  lemma ReviewStep(d: Desk, events: seq<Event>, n: nat, before: Desk, k: string)
    requires n < |events| && before == Run(d, events[..n]) && ReplySingleFlight.Inv(before)
    requires Reviewed(d, events, n, before, k)
    ensures Reviewed(d, events, n + 1, Step(before, events[n]), k)
  {
    var e := events[n];
    if Here(Step(before, e), k) {
      ClaimsColumn(before, e);
      if Here(before, k) {
        OldRowStep(d, events, n, before, k);
      } else {
        NewRowsAreDrafts(before, e, k);
        assert DraftedAt(d, events, k, n);
        FreshIsUnclaimed(before, e, k);
      }
    }
  }

  lemma OldRowStep(d: Desk, events: seq<Event>, n: nat, before: Desk, k: string)
    requires n < |events| && before == Run(d, events[..n])
    requires Here(before, k) && Reviewed(d, events, n, before, k) && Here(Step(before, events[n]), k)
    ensures Reviewed(d, events, n + 1, Step(before, events[n]), k)
  {
    var e := events[n];
    StatusColumn(before, e, k);
    ClaimsColumn(before, e);
    var i: nat :| i < n && DraftedAt(d, events, k, i);
    if e == Approved(k) && before.artifacts[k].status == PENDING_REVIEW { assert ApprovedAt(d, events, k, n); }
  }

  lemma FreshIsUnclaimed(d: Desk, e: Event, k: string)
    requires ReplySingleFlight.Inv(d) && e.Drafted? && e.id == k && PersistReply(d, k, e.source, e.now).1 == Created
    ensures k !in Step(d, e).claims
  {
    CreatedDraftAwaitsReview(d, k, e.source, e.now);
  }

  /** In every run from an empty desk, a reply that is approved, dispatched, sent or claimed was
      drafted by one event and, as it waited, approved by a later one. */
  lemma NothingIsSentUnreviewed(conversationId: string, providerThreadId: string, events: seq<Event>, k: string)
    ensures var d := Desk(conversationId, providerThreadId, false, map[], map[], {});
      var now := Run(d, events);
      Here(now, k) && (now.artifacts[k].status !in {PENDING_REVIEW, REJECTED, SUPPRESSED} || k in now.claims) ==>
        exists i: nat, j: nat :: i < j < |events| && DraftedAt(d, events, k, i) && ApprovedAt(d, events, k, j)
  {
    var d := Desk(conversationId, providerThreadId, false, map[], map[], {});
    ReviewComesFirst(d, events, |events|, k);
    assert events[..|events|] == events;
  }

  /** A rejected or suppressed reply stays so, and no worker ever holds it. */
  lemma {:induction false} RejectedIsFinal(d: Desk, events: seq<Event>, k: string)
    requires Here(d, k) && d.artifacts[k].status in {REJECTED, SUPPRESSED} && k !in d.claims
    ensures Here(Run(d, events), k) && Run(d, events).artifacts[k].status == d.artifacts[k].status && k !in Run(d, events).claims
    decreases |events|
  {
    if events != [] {
      StatusColumn(d, events[0], k);
      OtherColumns(d, events[0], k);
      ClaimsColumn(d, events[0]);
      InboundColumn(d, events[0]);
      RejectedIsFinal(Step(d, events[0]), events[1..], k);
    }
  }
}
