/** The reply transactions in their own form, one guarded update after another. */
module ReplyServices {
  import opened ArtifactStatuses
  import opened Options
  import opened Ordering
  import opened Replies

  /** orderBy createdAt asc, id asc: a nonempty set of rows has a first row. */
  lemma {:induction false} OldestExists(d: Desk, rows: set<string>)
    requires rows <= d.artifacts.Keys && rows != {}
    ensures exists k :: IsOldest(d, rows, k)
    decreases |rows|
  {
    var row :| row in rows;
    var rest := rows - {row};
    if rest == {} {
      assert rows == {row};
      TextOrderIsTotal(row, row);
      assert IsOldest(d, rows, row);
    } else {
      OldestExists(d, rest);
      var k :| IsOldest(d, rest, k);
      if Older(d, row, k) {
        forall other | other in rows ensures !Older(d, other, row) {
          OlderIsAnOrder(d, other, row, k);
          TextOrderIsTotal(row, row);
        }
        assert IsOldest(d, rows, row);
      } else {
        assert IsOldest(d, rows, k);
      }
    }
  }

  predicate IsOldest(d: Desk, rows: set<string>, k: string)
    requires rows <= d.artifacts.Keys
  {
    k in rows && forall other | other in rows :: !Older(d, other, k)
  }

  lemma OlderIsAnOrder(d: Desk, a: string, b: string, c: string)
    requires a in d.artifacts && b in d.artifacts && c in d.artifacts
    ensures Older(d, a, b) && Older(d, b, c) ==> Older(d, a, c)
    ensures !(Older(d, a, b) && Older(d, b, a))
  {
    TextOrderIsTotal(a, b);
    if TextBefore(a, b) && TextBefore(b, c) { TextOrderIsTransitive(a, b, c); }
  }

  class ReplyDesk {
    const conversationId: string
    const providerThreadId: string
    var archived: bool
    var inbound: map<string, int>
    var artifacts: map<string, Artifact>
    var claims: set<string>

    function State(): Desk
      reads this
    {
      Desk(conversationId, providerThreadId, archived, inbound, artifacts, claims)
    }

    constructor (conversationId: string, providerThreadId: string)
      ensures State() == Desk(conversationId, providerThreadId, false, map[], map[], {})
    {
      this.conversationId, this.providerThreadId := conversationId, providerThreadId;
      archived, inbound, artifacts, claims := false, map[], map[], {};
    }

    /** The blocking row a repeated draft request is answered with: the oldest one. */
    method FindBlockingReplyArtifact(source: string) returns (found: Option<string>)
      ensures found.None? <==> forall k | k in artifacts :: !Blocks(State(), artifacts[k], source)
      ensures found.Some? ==>
        && found.value in artifacts && Blocks(State(), artifacts[found.value], source)
        && forall k | k in artifacts && Blocks(State(), artifacts[k], source) :: !Older(State(), k, found.value)
    {
      var blocking := set k | k in artifacts && Blocks(State(), artifacts[k], source);
      if blocking == {} {
        forall k | k in artifacts ensures !Blocks(State(), artifacts[k], source) {
          assert k !in blocking;
        }
        return None;
      }
      OldestExists(State(), blocking);
      var first :| first in blocking && IsOldest(State(), blocking, first);
      return Some(first);
    }

    method PersistReplyArtifact(id: string, source: string, now: nat) returns (reply: DraftReply, existing: Option<string>)
      modifies this`artifacts
      ensures (State(), reply) == PersistReply(old(State()), id, source, now)
      ensures existing.Some? <==> reply == Existing
      ensures reply == Existing ==>
        && existing.value in artifacts && Blocks(State(), artifacts[existing.value], source)
        && forall k | k in artifacts && Blocks(State(), artifacts[k], source) :: !Older(State(), k, existing.value)
    {
      if archived { return ConversationArchived, None; }
      if !IsLatestInbound(State(), source) { return StaleSource, None; }
      existing := FindBlockingReplyArtifact(source);
      if existing.Some? { return Existing, existing; }
      if id in artifacts { return IdTaken, None; }
      artifacts := map k | k in artifacts ::
        if && (artifacts[k].conversationId == Some(conversationId) || artifacts[k].providerThreadId == Some(providerThreadId))
           && artifacts[k].status in {DRAFT, PENDING_REVIEW, APPROVED}
           && artifacts[k].replyTo.Some? && artifacts[k].replyTo.value != source
        then artifacts[k].(status := SUPPRESSED, unknownMarker := false)
        else artifacts[k];
      assert artifacts == Superseded(old(State()), source);
      artifacts := artifacts[id :=
        Artifact(PENDING_REVIEW, false, Some(conversationId), Some(providerThreadId), Some(source), now)];
      return Created, None;
    }

    method ArchiveConversation() returns (reply: ArchiveReply)
      modifies this`artifacts, this`archived
      ensures (State(), reply) == Archive(old(State()))
    {
      if archived { return Unchanged; }
      if exists k | k in artifacts :: InThread(State(), artifacts[k]) && InFlight(artifacts[k]) {
        return DeliveryInProgress;
      }
      artifacts := map k | k in artifacts ::
        if && (artifacts[k].conversationId == Some(conversationId) || artifacts[k].providerThreadId == Some(providerThreadId))
           && artifacts[k].status in {DRAFT, PENDING_REVIEW, APPROVED}
        then artifacts[k].(status := SUPPRESSED, unknownMarker := false)
        else artifacts[k];
      assert artifacts == Stopped(old(State()));
      archived := true;
      return Changed;
    }

    method UnarchiveConversation() returns (affected: nat)
      modifies this`archived
      ensures State() == Step(old(State()), Unarchived)
      ensures affected == if old(archived) then 1 else 0
    {
      if !archived { return 0; }
      archived := false;
      return 1;
    }

    /** The last gate before the provider: claim the row, stop it, or leave it for another day. */
    method ReserveForDispatch(id: string, recipientSuppressed: bool, capReached: bool) returns (reply: Reservation)
      modifies this`artifacts, this`claims
      ensures (State(), reply) == Reserve(old(State()), id, recipientSuppressed, capReached)
    {
      if id !in artifacts || artifacts[id].status != APPROVED { return Skipped; }
      var artifact := artifacts[id];
      var stop := recipientSuppressed || (artifact.conversationId.None? && artifact.providerThreadId.None?);
      if !stop && artifact.conversationId == Some(conversationId) && artifact.replyTo.Some? {
        stop := !IsLatestInbound(State(), artifact.replyTo.value);
      }
      if !stop {
        stop := exists k | k in artifacts :: Outranks(State(), k, id);
      }
      if stop {
        artifacts := artifacts[id := artifact.(status := SUPPRESSED, unknownMarker := false)];
        return Refused;
      }
      if capReached { return DailyCap; }
      artifacts := artifacts[id := artifact.(status := SENDING, unknownMarker := false)];
      claims := claims + {id};
      return Claimed;
    }
  }
}
