/** The outreach loop of the pipeline: one outcome per qualified lead, in score order. */
module OutreachStage {
  import opened ArtifactStatuses
  import opened Options
  import opened OutreachRecipient

  const MAX_OUTREACH: nat := 10

  datatype Tier = A | B | C

  datatype ScoredLead = ScoredLead(personId: string, tier: Tier)

  datatype Enriched = Enriched(recipient: Option<Selected>, email: Option<string>)

  /** An artifact row as the loop reads it back; `note` is the reviewer note's reserved prefix. */
  datatype Note = AutoFailed | UnknownDelivery | Other

  datatype Existing = Existing(
    id: string, payloadPersonId: Option<string>, status: ArtifactStatus, note: Note, failedAt: bool, reason: Option<string>)

  /** What the drafting subgraph does for one lead. */
  datatype Drafted =
    | Finished(artifactId: Option<string>, artifactStatus: Option<ArtifactStatus>, qaIssues: string)
    | Crashed(message: string)

  /** What the outside world answers when the loop is at one target. */
  datatype World = World(existing: Option<Existing>, drafted: Drafted)

  datatype Inputs = Inputs(
    people: map<string, seq<Candidate>>,
    enriched: map<string, Enriched>,
    graphRunId: Option<string>)

  datatype OutcomeStatus = Queued | Sent | Persisted | Failed

  datatype Result = Result(
    personId: string,
    agentRunId: Option<string>,
    status: OutcomeStatus,
    artifactStatus: Option<ArtifactStatus>,
    error: Option<string>,
    recipient: Option<Selected>)

  datatype StageStatus = COMPLETE | PARTIAL | FAILED_STAGE

  // ---------------------------------------------------------------- artifact status

  function EffectiveStatus(status: ArtifactStatus, note: Note, failedAt: bool): ArtifactStatus {
    if status == REJECTED && note == UnknownDelivery then DELIVERY_UNKNOWN
    else if status == REJECTED && note == AutoFailed && failedAt then FAILED
    else status
  }

  function OutcomeOf(effective: ArtifactStatus): OutcomeStatus {
    match effective
    case FAILED => Failed
    case PENDING_REVIEW => Queued
    case SENT => Sent
    case _ => Persisted
  }

  /** A string that JavaScript takes for true. */
  predicate Truthy(s: Option<string>) { s.Some? && s.value != "" }

  // ---------------------------------------------------------------- one target

  function Fail(personId: string, error: string, recipient: Option<Selected>): Result {
    Result(personId, None, Failed, None, Some(error), recipient)
  }

  /** The recipient snapshot of the enrichment stage, if it still stands. */
  function Recipient(candidates: seq<Candidate>, enriched: Option<Enriched>): (r: Option<Selected>)
  {
    if enriched.None? then None
    else if enriched.value.recipient.Some? then
      if Select(candidates) == enriched.value.recipient then enriched.value.recipient else None
    else if enriched.value.email.Some? && Select(candidates).Some?
            && Normalize(enriched.value.email.value) == Some(Select(candidates).value.email)
    then Select(candidates)
    else None
  }

  function RecipientError(enriched: Option<Enriched>): string {
    if enriched.Some? && enriched.value.recipient.Some? then "recipient_snapshot_requires_reconciliation"
    else if enriched.Some? && enriched.value.email.Some? then "legacy_recipient_requires_reconciliation"
    else "no_eligible_email"
  }

  function Taken(claimed: map<string, string>, email: string): bool {
    Truthy(Lookup(claimed, email))
  }

  function TakenError(claimed: map<string, string>, email: string, personId: string): string {
    if Lookup(claimed, email) == Some(personId) then "duplicate_target_in_run" else "recipient_already_targeted_in_run"
  }

  function FromExisting(personId: string, row: Existing, recipient: Selected): Result {
    var effective := EffectiveStatus(row.status, row.note, row.failedAt);
    Result(personId, Some(row.id), OutcomeOf(effective), Some(effective),
      if effective == FAILED then Some(if row.reason.Some? then row.reason.value else "dispatch_failed") else None,
      Some(recipient))
  }

  function FromDraft(personId: string, drafted: Drafted, recipient: Selected): Result {
    match drafted
    case Crashed(message) => Fail(personId, message, Some(recipient))
    case Finished(artifactId, artifactStatus, qaIssues) =>
      if !Truthy(artifactId) then
        Result(personId, artifactId, Failed, None, Some("qa_failed: " + qaIssues), Some(recipient))
      else
        var status := if artifactStatus.Some? then artifactStatus.value else PENDING_REVIEW;
        Result(personId, artifactId, OutcomeOf(status), Some(status),
          if status == FAILED then Some("dispatch_failed") else None, Some(recipient))
  }

  /** From a settled recipient on: an artifact of this run is taken over, a claimed address is
      refused, anything else is drafted. */
  function Settle(personId: string, inRun: bool, world: World, recipient: Selected, claimed: map<string, string>)
    : (Result, map<string, string>)
  {
    var email := recipient.email;
    var existing := if inRun then world.existing else None;
    if existing.Some? && existing.value.payloadPersonId != Some(personId) then
      (Fail(personId, if Truthy(existing.value.payloadPersonId) then "recipient_already_targeted_in_run"
                      else "existing_artifact_requires_reconciliation", Some(recipient)), claimed)
    else if Taken(claimed, email) then (Fail(personId, TakenError(claimed, email, personId), Some(recipient)), claimed)
    else if existing.Some? then (FromExisting(personId, existing.value, recipient), claimed[email := personId])
    else (FromDraft(personId, world.drafted, recipient), claimed[email := personId])
  }

  /** The outcome for one target and the recipients claimed after it. */
  function Target(inputs: Inputs, personId: string, world: World, claimed: map<string, string>): (Result, map<string, string>) {
    if personId !in inputs.people then (Fail(personId, "person_not_found_or_cross_org", None), claimed)
    else
      var enriched := Lookup(inputs.enriched, personId);
      match Recipient(inputs.people[personId], enriched)
      case None => (Fail(personId, RecipientError(enriched), None), claimed)
      case Some(recipient) => Settle(personId, Truthy(inputs.graphRunId), world, recipient, claimed)
  }

  /** All outcomes so far and the claims they leave. */
  function Outcomes(inputs: Inputs, targets: seq<string>, worlds: seq<World>): (r: (seq<Result>, map<string, string>))
    requires |worlds| == |targets|
    ensures |r.0| == |targets|
    decreases |targets|
  {
    if targets == [] then ([], map[])
    else
      var n := |targets| - 1;
      var (results, claimed) := Outcomes(inputs, targets[..n], worlds[..n]);
      var (result, claimed') := Target(inputs, targets[n], worlds[n], claimed);
      (results + [result], claimed')
  }

  // ---------------------------------------------------------------- counting

  /** Map construction from pairs: the last result of an artifact stands for it. */
  function ByArtifact(results: seq<Result>): map<string, Result> {
    if results == [] then map[]
    else
      var r, before := results[|results| - 1], ByArtifact(results[..|results| - 1]);
      if Truthy(r.agentRunId) then before[r.agentRunId.value := r] else before
  }

  predicate IsPending(r: Result) { r.artifactStatus == Some(PENDING_REVIEW) }

  predicate IsSent(r: Result) { r.artifactStatus == Some(SENT) }

  predicate IsFailed(r: Result) { r.status == Failed }

  predicate IsOther(r: Result) { r.status == Persisted }

  ghost function Having(m: map<string, Result>, p: Result -> bool): set<string> {
    set k | k in m && p(m[k])
  }

  function FailedCount(results: seq<Result>): (n: nat)
    ensures n <= |results|
    ensures n == 0 <==> forall i | 0 <= i < |results| :: results[i].status != Failed
    ensures n == |results| <==> forall i | 0 <= i < |results| :: results[i].status == Failed
  {
    if results == [] then 0
    else
      var last := results[|results| - 1];
      assert forall i | 0 <= i < |results| :: results[i] == if i < |results| - 1 then results[..|results| - 1][i] else last;
      FailedCount(results[..|results| - 1]) + if last.status == Failed then 1 else 0
  }

  /** The counts of the stage message. */
  datatype Summary = Summary(generated: nat, pending: nat, sent: nat, failed: nat, other: int)

  datatype Reply =
    | Skipped(stage: StageStatus)
    | Ran(results: seq<Result>, summary: Summary, stage: StageStatus)

  function Qualified(leads: seq<ScoredLead>): seq<string> {
    if leads == [] then []
    else if leads[0].tier == A || leads[0].tier == B then [leads[0].personId] + Qualified(leads[1..])
    else Qualified(leads[1..])
  }

  function Targets(leads: seq<ScoredLead>): seq<string> {
    var q := Qualified(leads);
    if |q| <= MAX_OUTREACH then q else q[..MAX_OUTREACH]
  }
}
