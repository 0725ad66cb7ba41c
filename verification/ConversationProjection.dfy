/** The conversation row is a closed form of the messages recorded so far, whatever order
    they arrived in and however often they were repeated. */
module ConversationProjection {
  import opened Options
  import opened Conversations

  ghost predicate Has(messages: map<string, Message>, d: Direction) {
    exists id :: id in messages && messages[id].direction == d
  }

  /** `at` is the latest time a message of direction d was sent, or None when there is none. */
  ghost predicate IsLatest(at: Option<int>, messages: map<string, Message>, d: Direction) {
    && (at.None? <==> !Has(messages, d))
    && (at.Some? ==>
          && (exists id :: id in messages && messages[id].direction == d && messages[id].sentAt == at.value)
          && forall id | id in messages && messages[id].direction == d :: messages[id].sentAt <= at.value)
  }

  ghost predicate IsEarliest(at: Option<int>, messages: map<string, Message>, d: Direction) {
    && (at.None? <==> !Has(messages, d))
    && (at.Some? ==>
          && (exists id :: id in messages && messages[id].direction == d && messages[id].sentAt == at.value)
          && forall id | id in messages && messages[id].direction == d :: at.value <= messages[id].sentAt)
  }

  /** The inbound ids recorded unread since the last read or archive. */
  function UnreadSinceReset(log: seq<Entry>): set<string> {
    if log == [] then {}
    else
      var last := log[|log| - 1];
      if last.UnreadReset? then {}
      else if last.direction == INBOUND && last.unread then UnreadSinceReset(log[..|log| - 1]) + {last.messageId}
      else UnreadSinceReset(log[..|log| - 1])
  }

  ghost predicate LatestInboundIsNewer(c: Conversation) {
    c.lastInboundAt.Some? && (c.lastOutboundAt.Some? ==> c.lastOutboundAt.value < c.lastInboundAt.value)
  }

  ghost predicate Tied(c: Conversation) {
    c.lastInboundAt.Some? && c.lastInboundAt == c.lastOutboundAt
  }

  /** `at` and `preview` are those of a message no other message is later than. */
  ghost predicate IsNewest(at: int, preview: string, messages: map<string, Message>) {
    && (exists id :: id in messages && messages[id].sentAt == at && messages[id].preview == preview)
    && (forall id | id in messages :: messages[id].sentAt <= at)
  }

  ghost predicate RowIsClosedForm(c: Conversation, messages: map<string, Message>, log: seq<Entry>) {
    && IsLatest(c.lastInboundAt, messages, INBOUND)
    && IsLatest(c.lastOutboundAt, messages, OUTBOUND)
    && IsEarliest(c.sequenceStoppedAt, messages, INBOUND)
    && (c.sequenceStopReason.Some? <==> c.sequenceStoppedAt.Some?)
    && IsNewest(c.lastMessageAt, c.preview, messages)
    && (!Tied(c) ==> (c.needsReply <==> LatestInboundIsNewer(c)))
    && c.unreadCount == |UnreadSinceReset(log)|
    && (c.archived ==> c.unreadCount == 0)
  }

  ghost predicate LogIsStored(messages: map<string, Message>, log: seq<Entry>) {
    forall i | 0 <= i < |log| && log[i].Recorded? :: log[i].messageId in messages
  }

  /** Entry i recorded the newest message, and of several equally new ones the last. */
  ghost predicate IsLastNewest(messages: map<string, Message>, log: seq<Entry>, i: nat)
    requires LogIsStored(messages, log)
  {
    && i < |log| && log[i].Recorded?
    && (forall j | 0 <= j < i && log[j].Recorded? :: messages[log[j].messageId].sentAt <= messages[log[i].messageId].sentAt)
    && (forall j | i < j < |log| && log[j].Recorded? :: messages[log[j].messageId].sentAt < messages[log[i].messageId].sentAt)
  }

  /** Time, preview and needsReply are those of the message of entry i. */
  ghost predicate DecidedBy(c: Conversation, messages: map<string, Message>, log: seq<Entry>, i: nat)
    requires LogIsStored(messages, log)
  {
    && IsLastNewest(messages, log, i)
    && c.lastMessageAt == messages[log[i].messageId].sentAt
    && c.preview == messages[log[i].messageId].preview
    && (c.needsReply <==> messages[log[i].messageId].direction == INBOUND)
  }

  /** Ties included: of the newest messages the one recorded last decides. */
  ghost predicate NewestDecides(c: Conversation, messages: map<string, Message>, log: seq<Entry>)
    requires LogIsStored(messages, log)
  {
    exists i: nat :: DecidedBy(c, messages, log, i)
  }

  ghost predicate Inv(t: Thread) {
    && (t.conversation.None? ==> t.messages == map[] && t.log == [])
    && (t.conversation.Some? ==> RowIsClosedForm(t.conversation.value, t.messages, t.log))
    && LogIsStored(t.messages, t.log)
    && (t.conversation.Some? ==> NewestDecides(t.conversation.value, t.messages, t.log))
  }

  lemma {:induction false} UnreadIdsAreLogged(log: seq<Entry>, id: string)
    requires id in UnreadSinceReset(log)
    ensures exists i :: 0 <= i < |log| && log[i] == Recorded(id, INBOUND, true)
  {
    var last := log[|log| - 1];
    if last != Recorded(id, INBOUND, true) {
      UnreadIdsAreLogged(log[..|log| - 1], id);
    }
  }

  lemma AppendedUnread(log: seq<Entry>, e: Entry)
    ensures UnreadSinceReset(log + [e]) ==
              if e.UnreadReset? then {}
              else if e.direction == INBOUND && e.unread then UnreadSinceReset(log) + {e.messageId}
              else UnreadSinceReset(log)
  {
    assert (log + [e])[..|log|] == log;
  }

  /** Recording a new message keeps each watermark the extreme it was. */
  lemma LatestAfter(at: Option<int>, messages: map<string, Message>, d: Direction, id: string, m: Message)
    requires IsLatest(at, messages, d) && id !in messages
    ensures IsLatest(if m.direction == d then Advance(at, m.sentAt) else at, messages[id := m], d)
  {
    var messages' := messages[id := m];
    if m.direction == d {
      assert messages'[id].direction == d;
      if at.Some? && at.value >= m.sentAt {
        var w :| w in messages && messages[w].direction == d && messages[w].sentAt == at.value;
        assert messages'[w] == messages[w];
      }
    } else if at.Some? {
      var w :| w in messages && messages[w].direction == d && messages[w].sentAt == at.value;
      assert messages'[w] == messages[w];
    }
  }

  lemma EarliestAfter(at: Option<int>, messages: map<string, Message>, d: Direction, id: string, m: Message)
    requires IsEarliest(at, messages, d) && id !in messages
    ensures IsEarliest(if m.direction == d then Retreat(at, m.sentAt) else at, messages[id := m], d)
  {
    var messages' := messages[id := m];
    if m.direction == d {
      assert messages'[id].direction == d;
      if at.Some? && at.value <= m.sentAt {
        var w :| w in messages && messages[w].direction == d && messages[w].sentAt == at.value;
        assert messages'[w] == messages[w];
      }
    } else if at.Some? {
      var w :| w in messages && messages[w].direction == d && messages[w].sentAt == at.value;
      assert messages'[w] == messages[w];
    }
  }

  /** The row an upsert would create, before its first message is stored, loses nothing. */
  lemma FirstMessage(m: Message, id: string)
    ensures IsLatest(if m.direction == INBOUND then Some(m.sentAt) else None, map[id := m], INBOUND)
    ensures IsLatest(if m.direction == OUTBOUND then Some(m.sentAt) else None, map[id := m], OUTBOUND)
    ensures IsEarliest(if m.direction == INBOUND then Some(m.sentAt) else None, map[id := m], INBOUND)
  {
    var messages := map[id := m];
    assert messages[id] == m;
  }

  lemma NewestAfter(at: int, preview: string, messages: map<string, Message>, id: string, m: Message)
    requires IsNewest(at, preview, messages) && id !in messages
    ensures if at <= m.sentAt then IsNewest(m.sentAt, m.preview, messages[id := m]) else IsNewest(at, preview, messages[id := m])
  {
    var messages' := messages[id := m];
    assert messages'[id] == m;
    if at > m.sentAt {
      var k :| k in messages && messages[k].sentAt == at && messages[k].preview == preview;
      assert messages'[k] == messages[k];
    }
  }

  /** The newest message is the newer of the newest inbound and the newest outbound. */
  lemma WatermarksMeet(c: Conversation, messages: map<string, Message>, log: seq<Entry>)
    requires RowIsClosedForm(c, messages, log)
    ensures c.lastInboundAt.Some? ==> c.lastInboundAt.value <= c.lastMessageAt
    ensures c.lastOutboundAt.Some? ==> c.lastOutboundAt.value <= c.lastMessageAt
    ensures c.lastInboundAt == Some(c.lastMessageAt) || c.lastOutboundAt == Some(c.lastMessageAt)
  {
    var k :| k in messages && messages[k].sentAt == c.lastMessageAt && messages[k].preview == c.preview;
    assert messages[k].direction == INBOUND || messages[k].direction == OUTBOUND;
  }

  /** What recording one more message does to the three newest-message columns. */
  ghost predicate Shows(c: Conversation, c': Conversation, m: Message) {
    if c.lastMessageAt <= m.sentAt
    then c'.lastMessageAt == m.sentAt && c'.preview == m.preview && (c'.needsReply <==> m.direction == INBOUND)
    else c'.lastMessageAt == c.lastMessageAt && c'.preview == c.preview && c'.needsReply == c.needsReply
  }

  lemma NewestDecidesAfter(c: Conversation, c': Conversation, messages: map<string, Message>, log: seq<Entry>,
                           e: Entry, m: Message)
    requires LogIsStored(messages, log) && NewestDecides(c, messages, log)
    requires e.Recorded? && e.messageId !in messages && Shows(c, c', m)
    ensures LogIsStored(messages[e.messageId := m], log + [e])
    ensures NewestDecides(c', messages[e.messageId := m], log + [e])
  {
    var messages', log' := messages[e.messageId := m], log + [e];
    var i: nat :| DecidedBy(c, messages, log, i);
    assert forall j | 0 <= j < |log| && log[j].Recorded? ::
      log'[j] == log[j] && messages'[log[j].messageId] == messages[log[j].messageId];
    assert DecidedBy(c', messages', log', if c.lastMessageAt <= m.sentAt then |log| else i);
  }

  lemma ResetKeepsNewest(c: Conversation, c': Conversation, messages: map<string, Message>, log: seq<Entry>)
    requires LogIsStored(messages, log) && NewestDecides(c, messages, log)
    requires c'.lastMessageAt == c.lastMessageAt && c'.preview == c.preview && c'.needsReply == c.needsReply
    ensures LogIsStored(messages, log + [UnreadReset])
    ensures NewestDecides(c', messages, log + [UnreadReset])
  {
    var log' := log + [UnreadReset];
    var i: nat :| DecidedBy(c, messages, log, i);
    assert forall j | 0 <= j < |log| :: log'[j] == log[j];
    assert DecidedBy(c', messages, log', i);
  }

  lemma FirstMessageDecides(c: Conversation, e: Entry, m: Message)
    requires e.Recorded? && c.lastMessageAt == m.sentAt && c.preview == m.preview && (c.needsReply <==> m.direction == INBOUND)
    ensures LogIsStored(map[e.messageId := m], [e]) && NewestDecides(c, map[e.messageId := m], [e])
  {
    assert DecidedBy(c, map[e.messageId := m], [e], 0);
  }

  lemma InboundRow(c: Conversation, messages: map<string, Message>, log: seq<Entry>, m: Gmail, isUnread: bool)
    requires RowIsClosedForm(c, messages, log) && m.messageId !in messages
    requires m.messageId !in UnreadSinceReset(log)
    ensures RowIsClosedForm(ApplyInbound(c, m, isUnread),
                            messages[m.messageId := Message(INBOUND, m.sentAt, m.preview, None)],
                            log + [Recorded(m.messageId, INBOUND, isUnread)])
  {
    var row := Message(INBOUND, m.sentAt, m.preview, None);
    WatermarksMeet(c, messages, log);
    LatestAfter(c.lastInboundAt, messages, INBOUND, m.messageId, row);
    LatestAfter(c.lastOutboundAt, messages, OUTBOUND, m.messageId, row);
    EarliestAfter(c.sequenceStoppedAt, messages, INBOUND, m.messageId, row);
    NewestAfter(c.lastMessageAt, c.preview, messages, m.messageId, row);
    AppendedUnread(log, Recorded(m.messageId, INBOUND, isUnread));
  }

  lemma OutboundRow(c: Conversation, messages: map<string, Message>, log: seq<Entry>, m: Gmail, artifactId: string)
    requires RowIsClosedForm(c, messages, log) && m.messageId !in messages
    ensures RowIsClosedForm(ApplyOutbound(c, m),
                            messages[m.messageId := Message(OUTBOUND, m.sentAt, m.preview, Some(artifactId))],
                            log + [Recorded(m.messageId, OUTBOUND, false)])
  {
    var row := Message(OUTBOUND, m.sentAt, m.preview, Some(artifactId));
    WatermarksMeet(c, messages, log);
    LatestAfter(c.lastInboundAt, messages, INBOUND, m.messageId, row);
    LatestAfter(c.lastOutboundAt, messages, OUTBOUND, m.messageId, row);
    EarliestAfter(c.sequenceStoppedAt, messages, INBOUND, m.messageId, row);
    NewestAfter(c.lastMessageAt, c.preview, messages, m.messageId, row);
    AppendedUnread(log, Recorded(m.messageId, OUTBOUND, false));
  }

  lemma FirstInboundRow(m: Gmail, isUnread: bool, newId: string)
    ensures RowIsClosedForm(
      ApplyInbound(Conversation(newId, m.sentAt, Some(m.sentAt), None, None, None, m.preview, 0, false, false), m, isUnread),
      map[m.messageId := Message(INBOUND, m.sentAt, m.preview, None)], [Recorded(m.messageId, INBOUND, isUnread)])
  {
    FirstMessage(Message(INBOUND, m.sentAt, m.preview, None), m.messageId);
    assert [Recorded(m.messageId, INBOUND, isUnread)] == [] + [Recorded(m.messageId, INBOUND, isUnread)];
    AppendedUnread([], Recorded(m.messageId, INBOUND, isUnread));
  }

  lemma FirstOutboundRow(m: Gmail, artifactId: string, newId: string)
    ensures RowIsClosedForm(
      ApplyOutbound(Conversation(newId, m.sentAt, None, Some(m.sentAt), None, None, m.preview, 0, false, false), m),
      map[m.messageId := Message(OUTBOUND, m.sentAt, m.preview, Some(artifactId))], [Recorded(m.messageId, OUTBOUND, false)])
  {
    FirstMessage(Message(OUTBOUND, m.sentAt, m.preview, Some(artifactId)), m.messageId);
    assert [Recorded(m.messageId, OUTBOUND, false)] == [] + [Recorded(m.messageId, OUTBOUND, false)];
    AppendedUnread([], Recorded(m.messageId, OUTBOUND, false));
  }

  lemma InboundKeeps(t: Thread, m: Gmail, isUnread: bool, newId: string)
    requires Inv(t)
    ensures Inv(RecordInbound(t, m, isUnread, newId).0)
  {
    if RecordInbound(t, m, isUnread, newId).1 == Stored(true) {
      var e, row := Recorded(m.messageId, INBOUND, isUnread), Message(INBOUND, m.sentAt, m.preview, None);
      var c' := ApplyInbound(InboundRowFor(t, m, newId), m, isUnread);
      if t.conversation.None? {
        FirstInboundRow(m, isUnread, newId);
        FirstMessageDecides(c', e, row);
        assert t.log + [e] == [e];
      } else {
        var c := t.conversation.value;
        if m.messageId in UnreadSinceReset(t.log) { UnreadIdsAreLogged(t.log, m.messageId); }
        InboundRow(c, t.messages, t.log, m, isUnread);
        WatermarksMeet(c, t.messages, t.log);
        NewestDecidesAfter(c, c', t.messages, t.log, e, row);
      }
    }
  }

  lemma DeliveryKeeps(t: Thread, artifactId: string, m: Gmail, newId: string)
    requires Inv(t)
    ensures Inv(RecordDelivered(t, artifactId, m, newId).0)
  {
    if RecordDelivered(t, artifactId, m, newId).1 == Stored(true) {
      var e, row := Recorded(m.messageId, OUTBOUND, false), Message(OUTBOUND, m.sentAt, m.preview, Some(artifactId));
      if t.conversation.None? {
        FirstOutboundRow(m, artifactId, newId);
        FirstMessageDecides(RecordDelivered(t, artifactId, m, newId).0.conversation.value, e, row);
        assert t.log + [e] == [e];
      } else {
        var c := t.conversation.value;
        OutboundRow(c, t.messages, t.log, m, artifactId);
        NewestDecidesAfter(c, ApplyOutbound(c, m), t.messages, t.log, e, row);
      }
    }
  }

  lemma ResetKeeps(t: Thread, e: Event)
    requires Inv(t) && (e.Read? || e.Archived?)
    ensures Inv(Step(t, e))
  {
    AppendedUnread(t.log, UnreadReset);
    if t.conversation.Some? && Step(t, e) != t {
      ResetKeepsNewest(t.conversation.value, Step(t, e).conversation.value, t.messages, t.log);
    }
  }

  lemma StepKeeps(t: Thread, e: Event)
    requires Inv(t)
    ensures Inv(Step(t, e))
  {
    match e
    case InboundPushed(m, isUnread, newId) => InboundKeeps(t, m, isUnread, newId);
    case DeliveryRecorded(a, m, newId) => DeliveryKeeps(t, a, m, newId);
    case Read => ResetKeeps(t, e);
    case Archived => ResetKeeps(t, e);
    case Unarchived => UnarchiveKeeps(t);
    case ArtifactsChanged(_) =>
  }

  lemma UnarchiveKeeps(t: Thread)
    requires Inv(t)
    ensures Inv(Unarchive(t))
  {
    if t.conversation.Some? {
      var c := t.conversation.value;
      var i: nat :| DecidedBy(c, t.messages, t.log, i);
      assert DecidedBy(Unarchive(t).conversation.value, t.messages, t.log, i);
    }
  }

  /** Every reachable conversation row is the closed form of its messages. */
  lemma {:induction false} RunIsClosedForm(t: Thread, events: seq<Event>)
    requires Inv(t)
    ensures Inv(Run(t, events))
    decreases |events|
  {
    if events != [] {
      StepKeeps(t, events[0]);
      RunIsClosedForm(Step(t, events[0]), events[1..]);
    }
  }

  // ---------------------------------------------------------------- what the closed form gives

  /** In every reachable thread, for every inbound push, onto a stored row or a new one: after the
      first five updates the guard of the "needsReply: false" update is false, so it never fires. */
  lemma NeedsReplyIsNeverSuppressed(thread: string, events: seq<Event>, m: Gmail, isUnread: bool, newId: string)
    ensures var c := InboundRowFor(Run(EmptyThread(thread), events), m, newId);
      && !SuppressesNeedsReply(BeforeLastInboundUpdate(c, m, isUnread), m)
      && ApplyInbound(c, m, isUnread) == BeforeLastInboundUpdate(c, m, isUnread)
  {
    RunIsClosedForm(EmptyThread(thread), events);
    var t := Run(EmptyThread(thread), events);
    if t.conversation.Some? { WatermarksMeet(t.conversation.value, t.messages, t.log); }
  }

  /** In every reachable thread, ties included: time, preview and needsReply are those of the newest
      message, and of several equally new ones the one that was recorded last. */
  lemma LastRecordedOfTheNewestDecides(thread: string, events: seq<Event>) returns (i: nat)
    requires Run(EmptyThread(thread), events).conversation.Some?
    ensures var t := Run(EmptyThread(thread), events);
      && LogIsStored(t.messages, t.log) && IsLastNewest(t.messages, t.log, i)
      && t.conversation.value.lastMessageAt == t.messages[t.log[i].messageId].sentAt
      && t.conversation.value.preview == t.messages[t.log[i].messageId].preview
      && (t.conversation.value.needsReply <==> t.messages[t.log[i].messageId].direction == INBOUND)
  {
    RunIsClosedForm(EmptyThread(thread), events);
    var t := Run(EmptyThread(thread), events);
    var c := t.conversation.value;
    i :| DecidedBy(c, t.messages, t.log, i);
  }

  /** A closed form over the same messages is the same, in whatever order they were recorded. */
  lemma ClosedFormsAgree(ca: Conversation, cb: Conversation, messages: map<string, Message>, a: seq<Entry>, b: seq<Entry>)
    requires RowIsClosedForm(ca, messages, a) && RowIsClosedForm(cb, messages, b)
    ensures ca.lastInboundAt == cb.lastInboundAt && ca.lastOutboundAt == cb.lastOutboundAt
    ensures ca.lastMessageAt == cb.lastMessageAt && ca.sequenceStoppedAt == cb.sequenceStoppedAt
    ensures !Tied(ca) ==> ca.needsReply == cb.needsReply
  {
  }

  /** Two histories of one thread that recorded the same messages show the same watermarks, and
      the same needsReply unless the newest inbound and outbound tie. */
  lemma ArrivalOrderDoesNotMatter(thread: string, a: seq<Event>, b: seq<Event>)
    requires var ta, tb := Run(EmptyThread(thread), a), Run(EmptyThread(thread), b);
      ta.conversation.Some? && tb.conversation.Some? && ta.messages == tb.messages
    ensures var ca, cb := Run(EmptyThread(thread), a).conversation.value, Run(EmptyThread(thread), b).conversation.value;
      && ca.lastInboundAt == cb.lastInboundAt
      && ca.lastOutboundAt == cb.lastOutboundAt
      && ca.lastMessageAt == cb.lastMessageAt
      && ca.sequenceStoppedAt == cb.sequenceStoppedAt
      && (!Tied(ca) ==> ca.needsReply == cb.needsReply)
  {
    RunIsClosedForm(EmptyThread(thread), a);
    RunIsClosedForm(EmptyThread(thread), b);
    var ta, tb := Run(EmptyThread(thread), a), Run(EmptyThread(thread), b);
    ClosedFormsAgree(ta.conversation.value, tb.conversation.value, ta.messages, ta.log, tb.log);
  }

  /** The tie is a real exception: of an inbound and a delivery stamped with the same time,
      whichever is recorded last decides needsReply. */
  lemma TieFollowsArrival(c: Conversation, inbound: Gmail, outbound: Gmail, isUnread: bool)
    requires inbound.sentAt == outbound.sentAt && c.lastMessageAt <= inbound.sentAt
    requires c.lastOutboundAt.Some? ==> c.lastOutboundAt.value <= c.lastMessageAt
    ensures !ApplyOutbound(ApplyInbound(c, inbound, isUnread), outbound).needsReply
    ensures ApplyInbound(ApplyOutbound(c, outbound), inbound, isUnread).needsReply
  {
  }

  /** A repeated push changes no derived column. */
  lemma RepeatedInboundChangesNothing(t: Thread, m: Gmail, isUnread: bool, newId: string)
    requires Inv(t) && m.messageId in t.messages
    ensures RecordInbound(t, m, isUnread, newId).0.conversation == t.conversation
    ensures RecordInbound(t, m, isUnread, newId).0.messages == t.messages
    ensures RecordInbound(t, m, isUnread, newId).0.log == t.log
  {
  }
}
