/** What recording does to the artifacts, the messages and the row of a thread, told from their
    columns, and exactly what it refuses. */
module ConversationEffects {
  import opened ArtifactStatuses
  import opened Options
  import opened Conversations

  // ---------------------------------------------------------------- deliveries

  /** The conversation a recording belongs to: the stored one, else the one it creates. */
  ghost function ConversationId(t: Thread, newId: string): string {
    if t.conversation.Some? then t.conversation.value.id else newId
  }

  /** A column that is still empty, or says the same already. */
  ghost predicate Agrees<T>(column: Option<T>, value: T) {
    column.Some? ==> column.value == value
  }

  /** The artifact is an e-mail on its way or sent, tied to no other message, thread, conversation or
      time, and answers a message of this thread if it answers any. */
  ghost predicate MayCarry(t: Thread, artifactId: string, m: Gmail, newId: string) {
    && artifactId in t.artifacts
    && var a := t.artifacts[artifactId];
    && a.isEmailSend && a.status in {SENDING, SENT}
    && Agrees(a.receiptId, m.messageId)
    && Agrees(a.providerThreadId, t.providerThreadId)
    && Agrees(a.conversationId, ConversationId(t, newId))
    && Agrees(a.sentAt, m.sentAt)
    && (a.replyTo.None? || a.replyTo.value in t.messages)
  }

  /** The message is stored as this artifact's delivery. */
  ghost predicate IsStoredAs(t: Thread, artifactId: string, m: Gmail) {
    m.messageId in t.messages && t.messages[m.messageId].direction == OUTBOUND && t.messages[m.messageId].artifact == Some(artifactId)
  }

  /** Neither the message nor the artifact's delivery is stored. */
  ghost predicate IsNew(t: Thread, artifactId: string, m: Gmail) {
    m.messageId !in t.messages && forall id | id in t.messages :: t.messages[id].artifact != Some(artifactId)
  }

  /** Exactly which deliveries are stored, repeated, refused or unknown. */
  lemma DeliveryAnswers(t: Thread, artifactId: string, m: Gmail, newId: string)
    ensures var reply := RecordDelivered(t, artifactId, m, newId).1;
      && (reply == NotFound <==> artifactId !in t.artifacts)
      && (reply == Stored(true) <==> MayCarry(t, artifactId, m, newId) && IsNew(t, artifactId, m))
      && (reply == Stored(false) <==> MayCarry(t, artifactId, m, newId) && IsStoredAs(t, artifactId, m))
      && (reply.Stored? || reply == NotFound || reply == Conflict)
  {
  }

  lemma RefusedDeliveryChangesNothing(t: Thread, artifactId: string, m: Gmail, newId: string)
    ensures !RecordDelivered(t, artifactId, m, newId).1.Stored? ==> RecordDelivered(t, artifactId, m, newId).0 == t
  {
  }

  /** A stored delivery leaves its artifact sent, at the message's time, tied to message, thread and
      conversation; every other artifact and every other message stays as it was. */
  lemma DeliveredArtifactIsSent(t: Thread, artifactId: string, m: Gmail, newId: string)
    requires RecordDelivered(t, artifactId, m, newId).1.Stored?
    ensures var t' := RecordDelivered(t, artifactId, m, newId).0;
      && t'.providerThreadId == t.providerThreadId
      && t'.artifacts.Keys == t.artifacts.Keys
      && (forall k | k in t.artifacts && k != artifactId :: t'.artifacts[k] == t.artifacts[k])
      && var a := t'.artifacts[artifactId];
      && a.status == SENT && a.sentAt == Some(m.sentAt) && a.receiptId == Some(m.messageId)
      && a.providerThreadId == Some(t.providerThreadId) && a.conversationId == Some(ConversationId(t, newId))
      && a.isEmailSend && a.replyTo == t.artifacts[artifactId].replyTo
    ensures var t' := RecordDelivered(t, artifactId, m, newId).0;
      && t'.conversation.Some? && t'.conversation.value.id == ConversationId(t, newId)
      && (forall k | k != m.messageId :: Lookup(t'.messages, k) == Lookup(t.messages, k))
      && IsStoredAs(t', artifactId, m)
      && (RecordDelivered(t, artifactId, m, newId).1.created ==>
            && t'.messages[m.messageId] == Message(OUTBOUND, m.sentAt, m.preview, Some(artifactId))
            && t'.log == t.log + [Recorded(m.messageId, OUTBOUND, false)])
      && (!RecordDelivered(t, artifactId, m, newId).1.created ==>
            && t'.messages == t.messages && t'.log == t.log
            && (t.conversation.Some? ==> t'.conversation == t.conversation))
  {
  }

  /** Recorded again, the same delivery is answered as stored and changes nothing. */
  lemma DeliveryIsRecordedOnce(t: Thread, artifactId: string, m: Gmail, newId: string, otherId: string)
    requires RecordDelivered(t, artifactId, m, newId).1.Stored?
    ensures var t' := RecordDelivered(t, artifactId, m, newId).0;
      RecordDelivered(t', artifactId, m, otherId) == (t', Stored(false))
  {
    var t' := RecordDelivered(t, artifactId, m, newId).0;
    DeliveredArtifactIsSent(t, artifactId, m, newId);
    DeliveryAnswers(t, artifactId, m, newId);
    assert t'.artifacts[artifactId := t'.artifacts[artifactId]] == t'.artifacts;
  }

  // ---------------------------------------------------------------- inbound messages

  /** A sent e-mail of this provider thread. */
  ghost predicate SentHere(t: Thread, k: string) {
    && k in t.artifacts && t.artifacts[k].isEmailSend && t.artifacts[k].status == SENT
    && t.artifacts[k].providerThreadId == Some(t.providerThreadId)
  }

  /** The thread is one the outreach started. */
  ghost predicate Correlates(t: Thread) {
    t.conversation.Some? || exists k :: SentHere(t, k)
  }

  lemma InboundAnswers(t: Thread, m: Gmail, isUnread: bool, newId: string)
    ensures var reply := RecordInbound(t, m, isUnread, newId).1;
      && (reply == UnmatchedThread <==> !Correlates(t))
      && (reply == Conflict <==> Correlates(t) && m.messageId in t.messages && t.messages[m.messageId].direction == OUTBOUND)
      && (reply == Stored(false) <==> Correlates(t) && m.messageId in t.messages && t.messages[m.messageId].direction == INBOUND)
      && (reply == Stored(true) <==> Correlates(t) && m.messageId !in t.messages)
      && (!reply.Stored? ==> RecordInbound(t, m, isUnread, newId).0 == t)
  {
    if k :| SentHere(t, k) { assert DeliveredIn(t.providerThreadId, t.artifacts[k]); }
    if k :| k in t.artifacts && DeliveredIn(t.providerThreadId, t.artifacts[k]) { assert SentHere(t, k); }
  }

  /** An inbound message that is stored links exactly the sent e-mails of the thread that were not
      linked yet, and changes no other artifact and no other message. */
  lemma InboundLinksSentMail(t: Thread, m: Gmail, isUnread: bool, newId: string)
    requires RecordInbound(t, m, isUnread, newId).1.Stored?
    ensures var t' := RecordInbound(t, m, isUnread, newId).0;
      && t'.providerThreadId == t.providerThreadId
      && t'.conversation.Some? && t'.conversation.value.id == ConversationId(t, newId)
      && t'.artifacts.Keys == t.artifacts.Keys
      && (forall k | k in t.artifacts ::
            t'.artifacts[k] == if SentHere(t, k) && t.artifacts[k].conversationId.None?
              then t.artifacts[k].(conversationId := Some(ConversationId(t, newId))) else t.artifacts[k])
      && (forall k | k != m.messageId :: Lookup(t'.messages, k) == Lookup(t.messages, k))
      && (RecordInbound(t, m, isUnread, newId).1.created ==>
            && t'.messages[m.messageId] == Message(INBOUND, m.sentAt, m.preview, None)
            && t'.log == t.log + [Recorded(m.messageId, INBOUND, isUnread)])
      && (!RecordInbound(t, m, isUnread, newId).1.created ==> t'.messages == t.messages && t'.log == t.log)
  {
  }

  // ---------------------------------------------------------------- the row of the conversation

  ghost predicate NewInbound(t: Thread, e: Event) {
    e.InboundPushed? && Correlates(t) && e.message.messageId !in t.messages
  }

  ghost predicate NewOutbound(t: Thread, e: Event) {
    e.DeliveryRecorded? && MayCarry(t, e.artifactId, e.message, e.newId) && IsNew(t, e.artifactId, e.message)
  }

  /** The columns that do not follow from the stored messages, after each event on a stored row. */
  lemma RowColumns(t: Thread, e: Event)
    requires t.conversation.Some?
    ensures Step(t, e).conversation.Some?
    ensures var c, c' := t.conversation.value, Step(t, e).conversation.value;
      && c'.id == c.id
      && c'.archived == (if NewInbound(t, e) || e.Unarchived? then false else if e.Archived? then true else c.archived)
      && c'.unreadCount == (
           if NewInbound(t, e) && e.isUnread then c.unreadCount + 1
           else if e.Read? || (e.Archived? && !c.archived) then 0
           else c.unreadCount)
      && c'.sequenceStopReason == (
           if NewInbound(t, e) && c.sequenceStopReason.None? then Some("gmail_reply_received") else c.sequenceStopReason)
  {
    if e.InboundPushed? { InboundAnswers(t, e.message, e.isUnread, e.newId); }
    if e.DeliveryRecorded? { DeliveryAnswers(t, e.artifactId, e.message, e.newId); }
  }

  ghost function Later(column: Option<int>, at: int): Option<int> {
    if column.Some? && column.value >= at then column else Some(at)
  }

  ghost function Sooner(column: Option<int>, at: int): Option<int> {
    if column.Some? && column.value <= at then column else Some(at)
  }

  /** The time columns move with new messages only, each in its own direction. */
  lemma TimesMove(t: Thread, e: Event)
    requires t.conversation.Some?
    ensures Step(t, e).conversation.Some?
    ensures var c, c' := t.conversation.value, Step(t, e).conversation.value;
      && c'.lastInboundAt == (if NewInbound(t, e) then Later(c.lastInboundAt, e.message.sentAt) else c.lastInboundAt)
      && c'.sequenceStoppedAt == (if NewInbound(t, e) then Sooner(c.sequenceStoppedAt, e.message.sentAt) else c.sequenceStoppedAt)
      && c'.lastOutboundAt == (if NewOutbound(t, e) then Later(c.lastOutboundAt, e.message.sentAt) else c.lastOutboundAt)
  {
    if e.InboundPushed? { InboundAnswers(t, e.message, e.isUnread, e.newId); }
    if e.DeliveryRecorded? { DeliveryAnswers(t, e.artifactId, e.message, e.newId); }
  }

  /** The newest message, its preview and the request for a reply move with new messages only. */
  lemma NewestMoves(t: Thread, e: Event)
    requires t.conversation.Some? && !NewInbound(t, e)
    ensures Step(t, e).conversation.Some?
    ensures var c, c' := t.conversation.value, Step(t, e).conversation.value;
      if NewOutbound(t, e) && c.lastMessageAt <= e.message.sentAt then
        c'.lastMessageAt == e.message.sentAt && c'.preview == e.message.preview && !c'.needsReply
      else c'.lastMessageAt == c.lastMessageAt && c'.preview == c.preview && c'.needsReply == c.needsReply
  {
    if e.InboundPushed? { InboundAnswers(t, e.message, e.isUnread, e.newId); }
    if e.DeliveryRecorded? { DeliveryAnswers(t, e.artifactId, e.message, e.newId); }
  }

  /** The history gains one entry for each new message and each reset of the unread count. */
  lemma LogColumn(t: Thread, e: Event)
    ensures Step(t, e).log == t.log + (
      if NewInbound(t, e) then [Recorded(e.message.messageId, INBOUND, e.isUnread)]
      else if NewOutbound(t, e) then [Recorded(e.message.messageId, OUTBOUND, false)]
      else if t.conversation.Some? && (e.Read? || (e.Archived? && !t.conversation.value.archived)) then [UnreadReset]
      else [])
  {
    if e.InboundPushed? { InboundAnswers(t, e.message, e.isUnread, e.newId); }
    if e.DeliveryRecorded? { DeliveryAnswers(t, e.artifactId, e.message, e.newId); }
  }

  /** An inbound message that is not older than the newest one becomes it, and asks for a reply
      unless something was sent after it; an older one changes neither. */
  lemma InboundUpdates(c: Conversation, m: Gmail, isUnread: bool)
    ensures var c' := ApplyInbound(c, m, isUnread);
      if m.sentAt >= c.lastMessageAt then
        && c'.lastMessageAt == m.sentAt && c'.preview == m.preview
        && (c'.needsReply <==> !(c.lastOutboundAt.Some? && m.sentAt < c.lastOutboundAt.value))
      else c'.lastMessageAt == c.lastMessageAt && c'.preview == c.preview && c'.needsReply == c.needsReply
  {
  }

  lemma NewInboundIsApplied(t: Thread, e: Event)
    requires t.conversation.Some? && NewInbound(t, e)
    ensures Step(t, e).conversation == Some(ApplyInbound(t.conversation.value, e.message, e.isUnread))
  {
  }

  /** The row a first recording creates: open, with nothing unread but that message, and whatever the
      message itself says. */
  lemma NewRowColumns(t: Thread, e: Event)
    requires t.conversation.None? && (e.InboundPushed? || e.DeliveryRecorded?) && Step(t, e).conversation.Some?
    requires e.message.messageId !in t.messages
    ensures var c, inbound := Step(t, e).conversation.value, e.InboundPushed?;
      && c.id == e.newId && !c.archived && c.needsReply == inbound
      && c.lastMessageAt == e.message.sentAt && c.preview == e.message.preview
      && c.unreadCount == (if inbound && e.isUnread then 1 else 0)
      && c.lastInboundAt == (if inbound then Some(e.message.sentAt) else None)
      && c.lastOutboundAt == (if inbound then None else Some(e.message.sentAt))
      && c.sequenceStoppedAt == c.lastInboundAt
      && c.sequenceStopReason == (if inbound then Some("gmail_reply_received") else None)
  {
    if e.InboundPushed? { InboundAnswers(t, e.message, e.isUnread, e.newId); }
    if e.DeliveryRecorded? { DeliveryAnswers(t, e.artifactId, e.message, e.newId); }
  }

  /** A message that is stored without a row gets one that asks for nothing. */
  lemma RowForStoredMessage(t: Thread, e: Event)
    requires t.conversation.None? && (e.InboundPushed? || e.DeliveryRecorded?) && Step(t, e).conversation.Some?
    requires e.message.messageId in t.messages
    ensures var c, inbound := Step(t, e).conversation.value, e.InboundPushed?;
      && c.id == e.newId && !c.archived && !c.needsReply && c.unreadCount == 0
      && c.lastMessageAt == e.message.sentAt && c.preview == e.message.preview
  {
    if e.InboundPushed? { InboundAnswers(t, e.message, e.isUnread, e.newId); }
    if e.DeliveryRecorded? { DeliveryAnswers(t, e.artifactId, e.message, e.newId); }
  }

  /** A row comes to be with the first message stored, and only so in a thread without messages. */
  lemma RowsAreMadeByRecording(t: Thread, e: Event)
    requires t.conversation.None? && t.messages == map[]
    ensures Step(t, e).conversation.Some? <==> NewInbound(t, e) || NewOutbound(t, e)
    ensures e.ArtifactsChanged? ==> Step(t, e) == t.(artifacts := e.artifacts)
  {
    if e.InboundPushed? { InboundAnswers(t, e.message, e.isUnread, e.newId); }
    if e.DeliveryRecorded? { DeliveryAnswers(t, e.artifactId, e.message, e.newId); }
  }
}
