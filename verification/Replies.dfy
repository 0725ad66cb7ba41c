/** The reply artifacts of one conversation: drafting, review, archiving and dispatch.

    Every step below is one transaction under the organization and thread locks, or one
    status-guarded update.  Rows of other threads live in the same table and are left alone. */
module Replies {
  import opened ArtifactStatuses
  import opened Options
  import opened Ordering

  /** `unknownMarker` is the reserved reviewer note by which a REJECTED row means DELIVERY_UNKNOWN. */
  datatype Artifact = Artifact(
    status: ArtifactStatus,
    unknownMarker: bool,
    conversationId: Option<string>,
    providerThreadId: Option<string>,
    replyTo: Option<string>,
    createdAt: nat)

  datatype Desk = Desk(
    conversationId: string,
    providerThreadId: string,
    archived: bool,
    inbound: map<string, int>,
    artifacts: map<string, Artifact>,
    claims: set<string>)

  // ---------------------------------------------------------------- status sets

  predicate DeliveryUnknown(a: Artifact) {
    a.status == DELIVERY_UNKNOWN || (a.status == REJECTED && a.unknownMarker)
  }

  predicate Stoppable(a: Artifact) {
    a.status == DRAFT || a.status == PENDING_REVIEW || a.status == APPROVED
  }

  predicate InFlight(a: Artifact) {
    a.status == SENDING || DeliveryUnknown(a)
  }

  /** The states of a reply that is still to be settled. */
  predicate Open(a: Artifact) {
    Stoppable(a) || InFlight(a)
  }

  /** The states that keep the one reply slot of an inbound message. */
  predicate SingleFlight(a: Artifact) {
    Stoppable(a) || a.status == SENDING || a.status == SENT || a.status == DELIVERY_UNKNOWN
  }

  predicate InThread(d: Desk, a: Artifact) {
    a.conversationId == Some(d.conversationId) || a.providerThreadId == Some(d.providerThreadId)
  }

  // ---------------------------------------------------------------- inbound messages

  /** orderBy sentAt desc, id desc: no inbound message comes first of `id`. */
  predicate IsLatestInbound(d: Desk, id: string) {
    && id in d.inbound
    && forall other | other in d.inbound ::
         d.inbound[other] < d.inbound[id] || (d.inbound[other] == d.inbound[id] && !TextBefore(id, other))
  }

  function RecordInbound(d: Desk, id: string, sentAt: int): Desk {
    if id in d.inbound then d else d.(inbound := d.inbound[id := sentAt], archived := false)
  }

  // ---------------------------------------------------------------- drafting

  predicate Blocks(d: Desk, a: Artifact, source: string) {
    && InThread(d, a)
    && (((a.replyTo == Some(source) || a.replyTo == None) && SingleFlight(a)) || InFlight(a))
  }

  /** Older drafts, reviews and approvals give way; a null source matches no NOT-equals predicate. */
  function Superseded(d: Desk, source: string): map<string, Artifact> {
    map k | k in d.artifacts ::
      var a := d.artifacts[k];
      if InThread(d, a) && Stoppable(a) && a.replyTo.Some? && a.replyTo.value != source
      then a.(status := SUPPRESSED, unknownMarker := false) else a
  }

  datatype DraftReply = Created | Existing | ConversationArchived | StaleSource | IdTaken

  function PersistReply(d: Desk, id: string, source: string, now: nat): (Desk, DraftReply) {
    if d.archived then (d, ConversationArchived)
    else if !IsLatestInbound(d, source) then (d, StaleSource)
    else if exists k | k in d.artifacts :: Blocks(d, d.artifacts[k], source) then (d, Existing)
    else if id in d.artifacts then (d, IdTaken)
    else
      (d.(artifacts := Superseded(d, source)[id :=
            Artifact(PENDING_REVIEW, false, Some(d.conversationId), Some(d.providerThreadId), Some(source), now)]),
       Created)
  }

  // ---------------------------------------------------------------- archive

  datatype ArchiveReply = Changed | Unchanged | DeliveryInProgress

  function Stopped(d: Desk): map<string, Artifact> {
    map k | k in d.artifacts ::
      var a := d.artifacts[k];
      if InThread(d, a) && Stoppable(a) then a.(status := SUPPRESSED, unknownMarker := false) else a
  }

  function Archive(d: Desk): (Desk, ArchiveReply) {
    if d.archived then (d, Unchanged)
    else if exists k | k in d.artifacts :: InThread(d, d.artifacts[k]) && InFlight(d.artifacts[k]) then (d, DeliveryInProgress)
    else (d.(artifacts := Stopped(d), archived := true), Changed)
  }

  // ---------------------------------------------------------------- review and dispatch

  function SetStatus(d: Desk, id: string, from: set<ArtifactStatus>, to: ArtifactStatus): Desk {
    if id in d.artifacts && d.artifacts[id].status in from
    then d.(artifacts := d.artifacts[id := d.artifacts[id].(status := to, unknownMarker := false)])
    else d
  }

  predicate SameThread(a: Artifact, b: Artifact) {
    || (a.conversationId.Some? && a.conversationId == b.conversationId)
    || (a.providerThreadId.Some? && a.providerThreadId == b.providerThreadId)
  }

  /** The rows that contend with `a` for one inbound message. */
  predicate SameSource(a: Artifact, b: Artifact) {
    SameThread(a, b) && (a.replyTo.Some? ==> b.replyTo == a.replyTo || b.replyTo == None)
  }

  predicate Older(d: Desk, k: string, id: string)
    requires k in d.artifacts && id in d.artifacts
  {
    || d.artifacts[k].createdAt < d.artifacts[id].createdAt
    || (d.artifacts[k].createdAt == d.artifacts[id].createdAt && TextBefore(k, id))
  }

  /** Another row that owns the reply slot when `id` comes to dispatch. */
  predicate Outranks(d: Desk, k: string, id: string)
    requires k in d.artifacts && id in d.artifacts
  {
    var a, b := d.artifacts[id], d.artifacts[k];
    && k != id
    && (|| (SameThread(a, b) && InFlight(b))
        || (SameSource(a, b) && b.status == SENT)
        || (SameSource(a, b) && Stoppable(b) && Older(d, k, id)))
  }

  datatype Reservation = Claimed | Skipped | Refused | DailyCap

  /** reserveForDispatch for a reply of this conversation. */
  function Reserve(d: Desk, id: string, recipientSuppressed: bool, capReached: bool): (Desk, Reservation) {
    if id !in d.artifacts || d.artifacts[id].status != APPROVED then (d, Skipped)
    else
      var a := d.artifacts[id];
      if || recipientSuppressed
         || (a.conversationId.None? && a.providerThreadId.None?)
         || (a.conversationId == Some(d.conversationId) && a.replyTo.Some? && !IsLatestInbound(d, a.replyTo.value))
         || (exists k | k in d.artifacts :: Outranks(d, k, id))
      then (SetStatus(d, id, {APPROVED}, SUPPRESSED), Refused)
      else if capReached then (d, DailyCap)
      else (SetStatus(d, id, {APPROVED}, SENDING).(claims := d.claims + {id}), Claimed)
  }

  datatype Event =
    | InboundRecorded(messageId: string, sentAt: int)
    | Drafted(id: string, source: string, now: nat)
    | Archived
    | Unarchived
    | Approved(id: string)
    | RejectedByReviewer(id: string)
    | SuppressedByAdmin(id: string)
    | Reserved(id: string, recipientSuppressed: bool, capReached: bool)
    | Released(id: string)
    | Sent(id: string, live: bool)
    | MarkedUnknown(id: string)
    | DeliveryRecorded(id: string)
    | RetriesExhausted(id: string, firstClass: bool)
    | WorkerLost(id: string)
    | OtherThreadsChanged(artifacts: map<string, Artifact>)

  /** Another thread's step: this thread's rows stay as they are. */
  predicate LeavesThreadAlone(d: Desk, artifacts: map<string, Artifact>) {
    && (forall k | k in d.artifacts && InThread(d, d.artifacts[k]) :: k in artifacts && artifacts[k] == d.artifacts[k])
    && (forall k | k in artifacts && InThread(d, artifacts[k]) :: k in d.artifacts && d.artifacts[k] == artifacts[k])
    && (forall k | k in d.claims :: k in artifacts && k in d.artifacts && artifacts[k] == d.artifacts[k])
  }

  function Step(d: Desk, e: Event): Desk {
    match e
    case InboundRecorded(id, sentAt) => RecordInbound(d, id, sentAt)
    case Drafted(id, source, now) => PersistReply(d, id, source, now).0
    case Archived => Archive(d).0
    case Unarchived => d.(archived := false)
    case Approved(id) => SetStatus(d, id, {PENDING_REVIEW}, APPROVED)
    case RejectedByReviewer(id) => SetStatus(d, id, {PENDING_REVIEW}, REJECTED)
    case SuppressedByAdmin(id) => SetStatus(d, id, {DRAFT, PENDING_REVIEW, APPROVED}, SUPPRESSED)
    case Reserved(id, recipientSuppressed, capReached) => Reserve(d, id, recipientSuppressed, capReached).0
    case Released(id) =>
      if id in d.claims then SetStatus(d, id, {SENDING}, APPROVED).(claims := d.claims - {id}) else d
    case Sent(id, live) =>
      // The write after a provider confirmation is not guarded by status.
      if id in d.claims && id in d.artifacts
      then
        var sent := d.artifacts[id].(status := if live then SENT else SIMULATED, unknownMarker := false);
        d.(artifacts := d.artifacts[id := sent], claims := d.claims - {id})
      else d
    case MarkedUnknown(id) => SetStatus(d, id, {SENDING}, DELIVERY_UNKNOWN)
    case DeliveryRecorded(id) => SetStatus(d, id, {SENDING, SENT}, SENT)
    case RetriesExhausted(id, firstClass) =>
      if id in d.artifacts && d.artifacts[id].status == SENDING then SetStatus(d, id, {SENDING}, DELIVERY_UNKNOWN)
      else SetStatus(d, id, {APPROVED}, if firstClass then FAILED else REJECTED)
    case WorkerLost(id) => d.(claims := d.claims - {id})
    case OtherThreadsChanged(artifacts) => if LeavesThreadAlone(d, artifacts) then d.(artifacts := artifacts) else d
  }

  function Run(d: Desk, events: seq<Event>): Desk
    decreases |events|
  {
    if events == [] then d else Run(Step(d, events[0]), events[1..])
  }
}
