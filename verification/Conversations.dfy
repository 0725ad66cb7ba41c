/** One Gmail thread of the conversation store: its conversation row, its messages, and the
    outreach artifacts that may be delivered into it.  Recording is a transaction; the
    derived columns are moved by conditional updates, in the order the service issues them. */
module Conversations {
  import opened ArtifactStatuses
  import opened Options

  datatype Direction = INBOUND | OUTBOUND

  datatype Message = Message(direction: Direction, sentAt: int, preview: string, artifact: Option<string>)

  datatype Conversation = Conversation(
    id: string,
    lastMessageAt: int,
    lastInboundAt: Option<int>,
    lastOutboundAt: Option<int>,
    sequenceStoppedAt: Option<int>,
    sequenceStopReason: Option<string>,
    preview: string,
    unreadCount: nat,
    needsReply: bool,
    archived: bool)

  datatype Artifact = Artifact(
    isEmailSend: bool,
    status: ArtifactStatus,
    receiptId: Option<string>,
    providerThreadId: Option<string>,
    conversationId: Option<string>,
    replyTo: Option<string>,
    sentAt: Option<int>)

  /** What the store did, for statements about histories. */
  datatype Entry = Recorded(messageId: string, direction: Direction, unread: bool) | UnreadReset

  datatype Thread = Thread(
    providerThreadId: string,
    conversation: Option<Conversation>,
    messages: map<string, Message>,
    artifacts: map<string, Artifact>,
    log: seq<Entry>)

  datatype Gmail = Gmail(messageId: string, sentAt: int, preview: string)

  datatype Reply = UnmatchedThread | Stored(created: bool) | NotFound | Conflict

  // ---------------------------------------------------------------- conditional updates

  function Advance(current: Option<int>, at: int): Option<int> {
    if current.None? || current.value < at then Some(at) else current
  }

  function Retreat(current: Option<int>, at: int): Option<int> {
    if current.None? || current.value > at then Some(at) else current
  }

  /** The first five inbound updates. */
  function BeforeLastInboundUpdate(c: Conversation, m: Gmail, isUnread: bool): Conversation {
    var c1 := c.(archived := false, unreadCount := if isUnread then c.unreadCount + 1 else c.unreadCount);
    var c2 := c1.(lastInboundAt := Advance(c1.lastInboundAt, m.sentAt));
    var c3 := c2.(sequenceStoppedAt := Retreat(c2.sequenceStoppedAt, m.sentAt));
    var c4 := if c3.sequenceStopReason.None? then c3.(sequenceStopReason := Some("gmail_reply_received")) else c3;
    if c4.lastMessageAt <= m.sentAt && (c4.lastOutboundAt.None? || c4.lastOutboundAt.value <= m.sentAt)
    then c4.(preview := m.preview, lastMessageAt := m.sentAt, needsReply := true) else c4
  }

  function ApplyInbound(c: Conversation, m: Gmail, isUnread: bool): Conversation {
    var c5 := BeforeLastInboundUpdate(c, m, isUnread);
    if SuppressesNeedsReply(c5, m) then c5.(preview := m.preview, lastMessageAt := m.sentAt, needsReply := false) else c5
  }

  /** The guard of the last inbound update, the one that would record "no reply needed". */
  predicate SuppressesNeedsReply(c: Conversation, m: Gmail) {
    c.lastMessageAt <= m.sentAt && c.lastOutboundAt.Some? && c.lastOutboundAt.value > m.sentAt
  }

  function ApplyOutbound(c: Conversation, m: Gmail): Conversation {
    var c1 := c.(lastOutboundAt := Advance(c.lastOutboundAt, m.sentAt));
    if c1.lastMessageAt <= m.sentAt
    then c1.(preview := m.preview, lastMessageAt := m.sentAt, needsReply := false) else c1
  }

  // ---------------------------------------------------------------- recording

  /** A delivered email artifact of this thread, the only thing a first inbound may correlate to. */
  predicate DeliveredIn(thread: string, a: Artifact) {
    a.isEmailSend && a.status == SENT && a.providerThreadId == Some(thread)
  }

  function Attach(thread: string, artifacts: map<string, Artifact>, conversationId: string): map<string, Artifact> {
    map a | a in artifacts ::
      if DeliveredIn(thread, artifacts[a]) && artifacts[a].conversationId.None?
      then artifacts[a].(conversationId := Some(conversationId)) else artifacts[a]
  }

  /** The row an inbound message is applied to: the stored one, or the one the upsert creates. */
  function InboundRowFor(t: Thread, m: Gmail, newId: string): Conversation {
    if t.conversation.Some? then t.conversation.value
    else Conversation(newId, m.sentAt, Some(m.sentAt), None, None, None, m.preview, 0, false, false)
  }

  function RecordInbound(t: Thread, m: Gmail, isUnread: bool, newId: string): (Thread, Reply) {
    if t.conversation.None? && !(exists a | a in t.artifacts :: DeliveredIn(t.providerThreadId, t.artifacts[a])) then
      (t, UnmatchedThread)
    else
      var c := InboundRowFor(t, m, newId);
      var artifacts := Attach(t.providerThreadId, t.artifacts, c.id);
      if m.messageId in t.messages then
        if t.messages[m.messageId].direction != INBOUND then (t, Conflict)
        else (t.(conversation := Some(c), artifacts := artifacts), Stored(false))
      else
        (t.(conversation := Some(ApplyInbound(c, m, isUnread)),
            messages := t.messages[m.messageId := Message(INBOUND, m.sentAt, m.preview, None)],
            artifacts := artifacts,
            log := t.log + [Recorded(m.messageId, INBOUND, isUnread)]),
         Stored(true))
  }

  /** SENDING or SENT, and not already tied to another receipt, thread, conversation or time. */
  predicate Recordable(t: Thread, a: Artifact, m: Gmail, conversationId: string) {
    && a.isEmailSend
    && (a.status == SENDING || a.status == SENT)
    && (a.receiptId.None? || a.receiptId == Some(m.messageId))
    && (a.providerThreadId.None? || a.providerThreadId == Some(t.providerThreadId))
    && (a.conversationId.None? || a.conversationId == Some(conversationId))
    && (a.replyTo.Some? ==> a.replyTo.value in t.messages)
    && (a.sentAt.None? || a.sentAt == Some(m.sentAt))
  }

  /** The message already materialized for an artifact, if any. */
  predicate HasMessage(messages: map<string, Message>, artifactId: string) {
    exists id | id in messages :: messages[id].artifact == Some(artifactId)
  }

  function RecordDelivered(t: Thread, artifactId: string, m: Gmail, newId: string): (Thread, Reply) {
    if artifactId !in t.artifacts then (t, NotFound)
    else
      var a := t.artifacts[artifactId];
      var c :=
        if t.conversation.Some? then t.conversation.value
        else Conversation(newId, m.sentAt, None, Some(m.sentAt), None, None, m.preview, 0, false, false);
      if !Recordable(t, a, m, c.id) then (t, Conflict)
      else
        var artifacts := t.artifacts[artifactId := a.(status := SENT, sentAt := Some(m.sentAt), receiptId := Some(m.messageId),
          providerThreadId := Some(t.providerThreadId), conversationId := Some(c.id))];
        if m.messageId in t.messages || HasMessage(t.messages, artifactId) then
          if m.messageId in t.messages && t.messages[m.messageId].artifact == Some(artifactId)
             && t.messages[m.messageId].direction == OUTBOUND
          then (t.(conversation := Some(c), artifacts := artifacts), Stored(false))
          else (t, Conflict)
        else
          (t.(conversation := Some(ApplyOutbound(c, m)),
              messages := t.messages[m.messageId := Message(OUTBOUND, m.sentAt, m.preview, Some(artifactId))],
              artifacts := artifacts,
              log := t.log + [Recorded(m.messageId, OUTBOUND, false)]),
           Stored(true))
  }

  function MarkRead(t: Thread): Thread {
    if t.conversation.None? then t
    else t.(conversation := Some(t.conversation.value.(unreadCount := 0)), log := t.log + [UnreadReset])
  }

  function Archive(t: Thread): Thread {
    if t.conversation.None? || t.conversation.value.archived then t
    else t.(conversation := Some(t.conversation.value.(archived := true, unreadCount := 0)), log := t.log + [UnreadReset])
  }

  function Unarchive(t: Thread): Thread {
    if t.conversation.None? then t
    else t.(conversation := Some(t.conversation.value.(archived := false)))
  }

  /** Anything else that happens to artifacts: reviews, claims, provider outcomes. */
  function RewriteArtifacts(t: Thread, artifacts: map<string, Artifact>): Thread {
    t.(artifacts := artifacts)
  }

  datatype Event =
    | InboundPushed(message: Gmail, isUnread: bool, newId: string)
    | DeliveryRecorded(artifactId: string, message: Gmail, newId: string)
    | Read
    | Archived
    | Unarchived
    | ArtifactsChanged(artifacts: map<string, Artifact>)

  function Step(t: Thread, e: Event): Thread {
    match e
    case InboundPushed(m, isUnread, newId) => RecordInbound(t, m, isUnread, newId).0
    case DeliveryRecorded(a, m, newId) => RecordDelivered(t, a, m, newId).0
    case Read => MarkRead(t)
    case Archived => Archive(t)
    case Unarchived => Unarchive(t)
    case ArtifactsChanged(artifacts) => RewriteArtifacts(t, artifacts)
  }

  function Run(t: Thread, events: seq<Event>): Thread
    decreases |events|
  {
    if events == [] then t else Run(Step(t, events[0]), events[1..])
  }

  function EmptyThread(providerThreadId: string): Thread {
    Thread(providerThreadId, None, map[], map[], [])
  }
}
