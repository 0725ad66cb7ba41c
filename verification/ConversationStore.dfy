/** The conversation store in its own form: one row, moved by one conditional update after
    another, and put back when the transaction is refused. */
module ConversationService {
  import opened ArtifactStatuses
  import opened Options
  import opened Conversations

  class ConversationStore {
    const providerThreadId: string
    var conversation: Option<Conversation>
    var messages: map<string, Message>
    var artifacts: map<string, Artifact>
    ghost var log: seq<Entry>

    ghost function State(): Thread
      reads this
    {
      Thread(providerThreadId, conversation, messages, artifacts, log)
    }

    constructor (providerThreadId: string)
      ensures State() == EmptyThread(providerThreadId)
    {
      this.providerThreadId := providerThreadId;
      conversation, messages, artifacts := None, map[], map[];
      log := [];
    }

    method ApplyInboundConversationState(m: Gmail, isUnread: bool)
      requires conversation.Some?
      modifies this`conversation
      ensures conversation == Some(ApplyInbound(old(conversation).value, m, isUnread))
    {
      var row := conversation.value;
      row := row.(archived := false);
      if isUnread { row := row.(unreadCount := row.unreadCount + 1); }
      if row.lastInboundAt.None? || row.lastInboundAt.value < m.sentAt {
        row := row.(lastInboundAt := Some(m.sentAt));
      }
      if row.sequenceStoppedAt.None? || row.sequenceStoppedAt.value > m.sentAt {
        row := row.(sequenceStoppedAt := Some(m.sentAt));
      }
      if row.sequenceStopReason.None? {
        row := row.(sequenceStopReason := Some("gmail_reply_received"));
      }
      if row.lastMessageAt <= m.sentAt && (row.lastOutboundAt.None? || row.lastOutboundAt.value <= m.sentAt) {
        row := row.(preview := m.preview, lastMessageAt := m.sentAt, needsReply := true);
      }
      if row.lastMessageAt <= m.sentAt && row.lastOutboundAt.Some? && row.lastOutboundAt.value > m.sentAt {
        row := row.(preview := m.preview, lastMessageAt := m.sentAt, needsReply := false);
      }
      conversation := Some(row);
    }

    method ApplyOutboundConversationState(m: Gmail)
      requires conversation.Some?
      modifies this`conversation
      ensures conversation == Some(ApplyOutbound(old(conversation).value, m))
    {
      var row := conversation.value;
      if row.lastOutboundAt.None? || row.lastOutboundAt.value < m.sentAt {
        row := row.(lastOutboundAt := Some(m.sentAt));
      }
      if row.lastMessageAt <= m.sentAt {
        row := row.(preview := m.preview, lastMessageAt := m.sentAt, needsReply := false);
      }
      conversation := Some(row);
    }

    method RecordInboundGmailMessage(m: Gmail, isUnread: bool, newId: string) returns (reply: Reply)
      modifies this
      ensures (State(), reply) == RecordInbound(old(State()), m, isUnread, newId)
    {
      var row, before := conversation, artifacts;
      if row.None? {
        if !(exists a | a in artifacts :: DeliveredIn(providerThreadId, artifacts[a])) {
          return UnmatchedThread;
        }
        conversation := Some(Conversation(newId, m.sentAt, Some(m.sentAt), None, None, None, m.preview, 0, false, false));
      }
      artifacts := Attach(providerThreadId, artifacts, conversation.value.id);
      var inserted := m.messageId !in messages;
      if inserted {
        messages := messages[m.messageId := Message(INBOUND, m.sentAt, m.preview, None)];
      }
      if messages[m.messageId].direction != INBOUND {
        conversation, artifacts := row, before;
        return Conflict;
      }
      if !inserted { return Stored(false); }
      log := log + [Recorded(m.messageId, INBOUND, isUnread)];
      ApplyInboundConversationState(m, isUnread);
      return Stored(true);
    }

    method RecordDeliveredGmailArtifact(artifactId: string, m: Gmail, newId: string) returns (reply: Reply)
      modifies this
      ensures (State(), reply) == RecordDelivered(old(State()), artifactId, m, newId)
    {
      if artifactId !in artifacts { return NotFound; }
      var artifact := artifacts[artifactId];
      var row, before := conversation, artifacts;
      if row.None? {
        conversation := Some(Conversation(newId, m.sentAt, None, Some(m.sentAt), None, None, m.preview, 0, false, false));
      }
      var id := conversation.value.id;
      var recordable := MayRecord(artifact, m, id);
      if !recordable {
        conversation := row;
        return Conflict;
      }
      artifacts := artifacts[artifactId := artifact.(status := SENT, sentAt := Some(m.sentAt),
        receiptId := Some(m.messageId), providerThreadId := Some(providerThreadId), conversationId := Some(id))];

      reply := MaterializeDelivery(artifactId, m);
      if reply == Conflict {
        conversation, artifacts := row, before;
      }
    }

    /** The checks on the artifact, in the order they are made. */
    method MayRecord(artifact: Artifact, m: Gmail, id: string) returns (ok: bool)
      ensures ok == Recordable(State(), artifact, m, id)
    {
      if !artifact.isEmailSend { return false; }
      if artifact.status != SENDING && artifact.status != SENT { return false; }
      if artifact.receiptId.Some? && artifact.receiptId.value != m.messageId { return false; }
      if artifact.providerThreadId.Some? && artifact.providerThreadId.value != providerThreadId { return false; }
      if artifact.conversationId.Some? && artifact.conversationId.value != id { return false; }
      if artifact.replyTo.Some? && artifact.replyTo.value !in messages { return false; }
      return artifact.sentAt.None? || artifact.sentAt == Some(m.sentAt);
    }

    /** Insert the outbound message unless it is there, check that it is this delivery, and project it. */
    method MaterializeDelivery(artifactId: string, m: Gmail) returns (reply: Reply)
      requires conversation.Some?
      modifies this`messages, this`conversation, this`log
      ensures m.messageId !in old(messages) && !HasMessage(old(messages), artifactId) ==>
        && reply == Stored(true)
        && messages == old(messages)[m.messageId := Message(OUTBOUND, m.sentAt, m.preview, Some(artifactId))]
        && conversation == Some(ApplyOutbound(old(conversation).value, m))
        && log == old(log) + [Recorded(m.messageId, OUTBOUND, false)]
      ensures m.messageId in old(messages) || HasMessage(old(messages), artifactId) ==>
        && messages == old(messages) && conversation == old(conversation) && log == old(log)
        && reply == (if && m.messageId in messages && messages[m.messageId].artifact == Some(artifactId)
                        && messages[m.messageId].direction == OUTBOUND
                     then Stored(false) else Conflict)
    {
      var inserted := m.messageId !in messages && !HasMessage(messages, artifactId);
      if inserted {
        messages := messages[m.messageId := Message(OUTBOUND, m.sentAt, m.preview, Some(artifactId))];
      }
      if || m.messageId !in messages
         || messages[m.messageId].artifact != Some(artifactId)
         || messages[m.messageId].direction != OUTBOUND
      {
        return Conflict;
      }
      if !inserted { return Stored(false); }
      log := log + [Recorded(m.messageId, OUTBOUND, false)];
      ApplyOutboundConversationState(m);
      return Stored(true);
    }
  }
}
