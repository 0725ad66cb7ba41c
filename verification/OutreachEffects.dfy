/** What the outreach node answers for one target, told from the target's rows, and which leads it
    targets. */
module OutreachEffects {
  import opened ArtifactStatuses
  import opened Options
  import opened OutreachRecipient
  import opened OutreachStage

  // ---------------------------------------------------------------- who is targeted

  ghost predicate TopTier(lead: ScoredLead) { lead.tier == A || lead.tier == B }

  /** These places of the list, in their order. */
  ghost predicate Picks(leads: seq<ScoredLead>, places: seq<nat>, targets: seq<string>) {
    && |places| == |targets|
    && (forall i | 0 <= i < |places| :: places[i] < |leads| && targets[i] == leads[places[i]].personId)
    && (forall i, j | 0 <= i < j < |places| :: places[i] < places[j])
  }

  /** Exactly the top-tier places up to the last one picked, and all of them if fewer than ten. */
  ghost predicate PicksTopTier(leads: seq<ScoredLead>, places: seq<nat>) {
    && |places| <= 10
    && (forall i | 0 <= i < |places| :: places[i] < |leads| && TopTier(leads[places[i]]))
    && (forall p: nat | p < |leads| && TopTier(leads[p]) && p !in places :: |places| == 10 && places[9] < p)
  }

  ghost predicate AllTop(leads: seq<ScoredLead>, places: seq<nat>) {
    && (forall i | 0 <= i < |places| :: places[i] < |leads| && TopTier(leads[places[i]]))
    && (forall p: nat | p < |leads| && TopTier(leads[p]) :: p in places)
  }

  lemma {:induction false} QualifiedSnoc(leads: seq<ScoredLead>, lead: ScoredLead)
    ensures Qualified(leads + [lead]) == Qualified(leads) + if TopTier(lead) then [lead.personId] else []
  {
    if leads == [] {
      assert [lead][1..] == [] && Qualified([]) == [];
    } else {
      assert (leads + [lead])[1..] == leads[1..] + [lead];
      QualifiedSnoc(leads[1..], lead);
    }
  }

  lemma PicksSnoc(leads: seq<ScoredLead>, lead: ScoredLead, places: seq<nat>, targets: seq<string>)
    requires Picks(leads, places, targets)
    ensures Picks(leads + [lead], places, targets)
    ensures Picks(leads + [lead], places + [|leads|], targets + [lead.personId])
  {
  }

  lemma AllTopSnoc(leads: seq<ScoredLead>, lead: ScoredLead, places: seq<nat>)
    requires AllTop(leads, places)
    ensures AllTop(leads + [lead], if TopTier(lead) then places + [|leads|] else places)
  {
    var all, n := leads + [lead], |places|;
    var more := if TopTier(lead) then places + [|leads|] else places;
    forall i | 0 <= i < |more| ensures more[i] < |all| && TopTier(all[more[i]]) {
      if i < n { assert more[i] == places[i] && all[places[i]] == leads[places[i]]; }
    }
    forall p: nat | p < |all| && TopTier(all[p]) ensures p in more {
      if p < |leads| {
        assert all[p] == leads[p];
        var i :| 0 <= i < n && places[i] == p;
        assert more[i] == p;
      } else {
        assert more[n] == p;
      }
    }
  }

  lemma {:induction false} QualifiedPicks(leads: seq<ScoredLead>) returns (places: seq<nat>)
    ensures Picks(leads, places, Qualified(leads)) && AllTop(leads, places)
  {
    places := [];
    if leads != [] {
      var n := |leads| - 1;
      var before, lead := leads[..n], leads[n];
      places := QualifiedPicks(before);
      assert before + [lead] == leads;
      QualifiedSnoc(before, lead);
      PicksSnoc(before, lead, places, Qualified(before));
      AllTopSnoc(before, lead, places);
      if TopTier(lead) { places := places + [n]; }
    }
  }

  lemma FirstOnesArePicked(leads: seq<ScoredLead>, all: seq<nat>, targets: seq<string>)
    requires Picks(leads, all, targets) && AllTop(leads, all) && |all| > 10
    ensures Picks(leads, all[..10], targets[..10]) && PicksTopTier(leads, all[..10])
  {
    var places := all[..10];
    assert forall k | 0 <= k < 10 :: places[k] == all[k] && places[k] in places;
    forall p: nat | p < |leads| && TopTier(leads[p]) && p !in places ensures places[9] < p {
      var i :| 0 <= i < |all| && all[i] == p;
      assert i >= 10;
    }
  }

  /** The first ten leads of the two top tiers, in score order. */
  lemma TargetsAreTheFirstTen(leads: seq<ScoredLead>) returns (places: seq<nat>)
    ensures Picks(leads, places, Targets(leads)) && PicksTopTier(leads, places)
  {
    places := QualifiedPicks(leads);
    if |places| > 10 {
      FirstOnesArePicked(leads, places, Qualified(leads));
      places := places[..10];
    }
  }

  // ---------------------------------------------------------------- the recipient of a target

  /** The snapshot of the enrichment stage is the current selection; or there is no snapshot, and the
      address it recorded is, in normal form, the current one. */
  ghost predicate StillStands(candidates: seq<Candidate>, enriched: Option<Enriched>) {
    && enriched.Some? && Select(candidates).Some?
    && match enriched.value.recipient
       case Some(snapshot) => snapshot == Select(candidates).value
       case None => enriched.value.email.Some? && Normalize(enriched.value.email.value) == Some(Select(candidates).value.email)
  }

  ghost function WhyNobody(enriched: Option<Enriched>): string {
    match enriched
    case Some(Enriched(Some(_), _)) => "recipient_snapshot_requires_reconciliation"
    case Some(Enriched(None, Some(_))) => "legacy_recipient_requires_reconciliation"
    case _ => "no_eligible_email"
  }

  lemma RecipientMeans(candidates: seq<Candidate>, enriched: Option<Enriched>)
    ensures Recipient(candidates, enriched) == if StillStands(candidates, enriched) then Select(candidates) else None
    ensures RecipientError(enriched) == WhyNobody(enriched)
  {
  }

  // ---------------------------------------------------------------- the status of an artifact

  /** A row rejected by the system for an unknown delivery, or after a failed send. */
  ghost predicate LostTrack(row: Existing) { row.status == REJECTED && row.note == UnknownDelivery }

  ghost predicate FailedSend(row: Existing) {
    row.status == FAILED || (row.status == REJECTED && row.note == AutoFailed && row.failedAt)
  }

  /** What an artifact of this run is reported as. */
  ghost predicate ReportsRow(r: Result, row: Existing) {
    && r.agentRunId == Some(row.id)
    && (r.artifactStatus == Some(DELIVERY_UNKNOWN) <==> LostTrack(row) || row.status == DELIVERY_UNKNOWN)
    && (r.artifactStatus == Some(FAILED) <==> FailedSend(row))
    && (!LostTrack(row) && !FailedSend(row) ==> r.artifactStatus == Some(row.status))
    && (r.status == Failed <==> FailedSend(row))
    && (r.status == Queued <==> row.status == PENDING_REVIEW)
    && (r.status == Sent <==> row.status == SENT)
    && r.error == (if !FailedSend(row) then None else if row.reason.Some? then row.reason else Some("dispatch_failed"))
  }

  /** What a fresh draft is reported as: an artifact waits for review unless it says otherwise. */
  ghost predicate ReportsDraft(r: Result, drafted: Drafted) {
    match drafted
    case Crashed(message) => r.status == Failed && r.error == Some(message) && r.agentRunId.None? && r.artifactStatus.None?
    case Finished(id, status, issues) =>
      if id in {None, Some("")} then
        r.status == Failed && r.error == Some("qa_failed: " + issues) && r.agentRunId == id && r.artifactStatus.None?
      else
        && r.agentRunId == id
        && r.artifactStatus == (if status.None? then Some(PENDING_REVIEW) else status)
        && (r.status == Queued <==> status in {None, Some(PENDING_REVIEW)})
        && (r.status == Sent <==> status == Some(SENT))
        && (r.status == Failed <==> status == Some(FAILED))
        && r.error == (if status == Some(FAILED) then Some("dispatch_failed") else None)
  }

  // ---------------------------------------------------------------- one target

  ghost predicate SaysOnly(r: Result, personId: string, error: string, recipient: Option<Selected>) {
    r == Result(personId, None, Failed, None, Some(error), recipient)
  }

  /** From a settled recipient on: an artifact of the run at the address must be this person's, and
      the address must not be claimed; then the artifact is taken over, or a draft is made. */
  ghost predicate Settles(personId: string, existing: Option<Existing>, drafted: Drafted, recipient: Selected,
                          claimed: map<string, string>, r: Result, claimed': map<string, string>) {
    var holder := if recipient.email in claimed then claimed[recipient.email] else "";
    if existing.Some? && existing.value.payloadPersonId != Some(personId) then
      && claimed' == claimed
      && SaysOnly(r, personId,
           if existing.value.payloadPersonId in {None, Some("")} then "existing_artifact_requires_reconciliation"
           else "recipient_already_targeted_in_run", Some(recipient))
    else if holder != "" then
      && claimed' == claimed
      && SaysOnly(r, personId,
           if holder == personId then "duplicate_target_in_run" else "recipient_already_targeted_in_run", Some(recipient))
    else
      && r.personId == personId && r.recipient == Some(recipient) && claimed' == claimed[recipient.email := personId]
      && if existing.Some? then ReportsRow(r, existing.value) else ReportsDraft(r, drafted)
  }

  /** Everything one target can come to, and what it claims; rows are looked for only within a run. */
  ghost predicate Answers(inputs: Inputs, personId: string, world: World, claimed: map<string, string>,
                          r: Result, claimed': map<string, string>) {
    if personId !in inputs.people then
      SaysOnly(r, personId, "person_not_found_or_cross_org", None) && claimed' == claimed
    else if !StillStands(inputs.people[personId], Lookup(inputs.enriched, personId)) then
      SaysOnly(r, personId, WhyNobody(Lookup(inputs.enriched, personId)), None) && claimed' == claimed
    else
      Settles(personId, if inputs.graphRunId in {None, Some("")} then None else world.existing, world.drafted,
        Select(inputs.people[personId]).value, claimed, r, claimed')
  }

  lemma SettleAnswers(personId: string, inRun: bool, world: World, recipient: Selected, claimed: map<string, string>)
    ensures var (r, claimed') := Settle(personId, inRun, world, recipient, claimed);
      Settles(personId, if inRun then world.existing else None, world.drafted, recipient, claimed, r, claimed')
  {
    if world.existing.Some? { RowIsReported(personId, world.existing.value, recipient); }
    DraftIsReported(personId, world.drafted, recipient);
  }

  lemma RowIsReported(personId: string, row: Existing, recipient: Selected)
    ensures ReportsRow(FromExisting(personId, row, recipient), row)
  {
  }

  lemma DraftIsReported(personId: string, drafted: Drafted, recipient: Selected)
    ensures ReportsDraft(FromDraft(personId, drafted, recipient), drafted)
  {
  }

  /** Each exit of the loop body, with its own reason; only a target that gets through claims its address. */
  lemma TargetAnswers(inputs: Inputs, personId: string, world: World, claimed: map<string, string>)
    ensures var (r, claimed') := Target(inputs, personId, world, claimed);
      Answers(inputs, personId, world, claimed, r, claimed')
  {
    if personId in inputs.people {
      RecipientMeans(inputs.people[personId], Lookup(inputs.enriched, personId));
      if StillStands(inputs.people[personId], Lookup(inputs.enriched, personId)) {
        SettleAnswers(personId, Truthy(inputs.graphRunId), world, Select(inputs.people[personId]).value, claimed);
      }
    }
  }

  /** The results of a list are those of its targets, one after the other, each seeing the claims of
      the targets before it. */
  lemma {:induction false} OutcomesAnswer(inputs: Inputs, targets: seq<string>, worlds: seq<World>, i: nat)
    requires |worlds| == |targets| && i < |targets|
    ensures Outcomes(inputs, targets, worlds).0[..i] == Outcomes(inputs, targets[..i], worlds[..i]).0
    ensures Answers(inputs, targets[i], worlds[i], Outcomes(inputs, targets[..i], worlds[..i]).1,
              Outcomes(inputs, targets, worlds).0[i], Outcomes(inputs, targets[..i + 1], worlds[..i + 1]).1)
    decreases |targets|
  {
    var n := |targets| - 1;
    var (results, claimed) := Outcomes(inputs, targets[..n], worlds[..n]);
    TargetAnswers(inputs, targets[n], worlds[n], claimed);
    var (r, claimed') := Target(inputs, targets[n], worlds[n], claimed);
    assert Outcomes(inputs, targets, worlds).0 == results + [r];
    if i == n {
      assert (results + [r])[..n] == results && targets[..n] == targets[..i];
      assert targets[..n + 1] == targets && worlds[..n + 1] == worlds && Outcomes(inputs, targets, worlds).1 == claimed';
    } else {
      OutcomesAnswer(inputs, targets[..n], worlds[..n], i);
      assert targets[..n][..i] == targets[..i] && worlds[..n][..i] == worlds[..i];
      assert targets[..n][..i + 1] == targets[..i + 1] && worlds[..n][..i + 1] == worlds[..i + 1];
      assert Outcomes(inputs, targets, worlds).0[..i] == results[..i];
      assert targets[..n][i] == targets[i] && worlds[..n][i] == worlds[i] && Outcomes(inputs, targets, worlds).0[i] == results[i];
    }
  }
}
