/** What the outreach loop guarantees about the results it leaves. */
module OutreachOutcomes {
  import opened ArtifactStatuses
  import opened Options
  import opened OutreachRecipient
  import opened OutreachStage

  // ---------------------------------------------------------------- recipients

  ghost predicate Succeeded(r: Result) { r.status != Failed }

  /** Each claim is backed, and every result that did not fail holds the claim on its address. */
  ghost predicate Claims(results: seq<Result>, claimed: map<string, string>) {
    && (forall i | 0 <= i < |results| && Succeeded(results[i]) ::
          && results[i].recipient.Some?
          && results[i].recipient.value.email in claimed
          && (claimed[results[i].recipient.value.email] == results[i].personId || results[i].personId == ""))
    && (forall i, j | 0 <= i < j < |results| && Succeeded(results[i]) && Succeeded(results[j])
          && results[i].recipient.value.email == results[j].recipient.value.email :: results[i].personId == "")
  }

  lemma SettleKeepsClaims(personId: string, inRun: bool, world: World, recipient: Selected,
                          results: seq<Result>, claimed: map<string, string>)
    requires Claims(results, claimed)
    ensures var (r, claimed') := Settle(personId, inRun, world, recipient, claimed); Claims(results + [r], claimed')
  {
    var (r, claimed') := Settle(personId, inRun, world, recipient, claimed);
    var all := results + [r];
    forall i | 0 <= i < |all| && Succeeded(all[i])
      ensures all[i].recipient.Some? && all[i].recipient.value.email in claimed'
      ensures claimed'[all[i].recipient.value.email] == all[i].personId || all[i].personId == ""
    {
      assert i < |results| ==> all[i] == results[i];
    }
  }

  lemma TargetKeepsClaims(inputs: Inputs, personId: string, world: World, results: seq<Result>, claimed: map<string, string>)
    requires Claims(results, claimed)
    ensures var (r, claimed') := Target(inputs, personId, world, claimed); Claims(results + [r], claimed')
  {
    if personId in inputs.people && Recipient(inputs.people[personId], Lookup(inputs.enriched, personId)).Some? {
      var recipient := Recipient(inputs.people[personId], Lookup(inputs.enriched, personId)).value;
      SettleKeepsClaims(personId, Truthy(inputs.graphRunId), world, recipient, results, claimed);
    } else {
      FailureKeepsClaims(Target(inputs, personId, world, claimed).0, results, claimed);
    }
  }

  lemma FailureKeepsClaims(r: Result, results: seq<Result>, claimed: map<string, string>)
    requires Claims(results, claimed) && !Succeeded(r)
    ensures Claims(results + [r], claimed)
  {
    forall i | 0 <= i < |results + [r]| && Succeeded((results + [r])[i]) ensures i < |results| {}
  }

  /** One outcome per target, in target order. */
  lemma {:induction false} OneOutcomePerTarget(inputs: Inputs, targets: seq<string>, worlds: seq<World>)
    requires |worlds| == |targets|
    ensures |Outcomes(inputs, targets, worlds).0| == |targets|
    ensures forall i | 0 <= i < |targets| :: Outcomes(inputs, targets, worlds).0[i].personId == targets[i]
    decreases |targets|
  {
    if targets != [] {
      var n := |targets| - 1;
      OneOutcomePerTarget(inputs, targets[..n], worlds[..n]);
      var (results, claimed) := Outcomes(inputs, targets[..n], worlds[..n]);
      OutcomesSnoc(inputs, targets, worlds);
      TargetNamesItsPerson(inputs, targets[n], worlds[n], claimed);
      assert forall i | 0 <= i < n :: results[i].personId == targets[..n][i];
    }
  }

  lemma OutcomesSnoc(inputs: Inputs, targets: seq<string>, worlds: seq<World>)
    requires |worlds| == |targets| && targets != []
    ensures var n := |targets| - 1;
      var (results, claimed) := Outcomes(inputs, targets[..n], worlds[..n]);
      && |results| == n
      && Outcomes(inputs, targets, worlds).0 == results + [Target(inputs, targets[n], worlds[n], claimed).0]
  {
  }

  lemma SettleNamesItsTarget(personId: string, inRun: bool, world: World, recipient: Selected, claimed: map<string, string>)
    ensures var r := Settle(personId, inRun, world, recipient, claimed).0;
      r.personId == personId && r.recipient == Some(recipient)
  {
  }

  lemma TargetNamesItsPerson(inputs: Inputs, personId: string, world: World, claimed: map<string, string>)
    ensures Target(inputs, personId, world, claimed).0.personId == personId
  {
    if personId in inputs.people && Recipient(inputs.people[personId], Lookup(inputs.enriched, personId)).Some? {
      var recipient := Recipient(inputs.people[personId], Lookup(inputs.enriched, personId)).value;
      SettleNamesItsTarget(personId, Truthy(inputs.graphRunId), world, recipient, claimed);
    }
  }

  /** No two results that did not fail share a recipient address: the later target fails instead.
      A claim by an empty person id would not count as one; no row has such an id. */
  lemma {:induction false} RecipientsAreDistinct(inputs: Inputs, targets: seq<string>, worlds: seq<World>)
    requires |worlds| == |targets|
    ensures var (results, claimed) := Outcomes(inputs, targets, worlds); Claims(results, claimed)
    decreases |targets|
  {
    if targets != [] {
      var n := |targets| - 1;
      RecipientsAreDistinct(inputs, targets[..n], worlds[..n]);
      var (results, claimed) := Outcomes(inputs, targets[..n], worlds[..n]);
      TargetKeepsClaims(inputs, targets[n], worlds[n], results, claimed);
    }
  }

  /** A claim made for an empty person id does not count as one: with such an id in the list, two
      targets with the same address are both written to, for whatever address they share. */
  lemma EmptyIdsShareAnAddress(candidates: seq<Candidate>, personId: string, first: string, second: string)
    requires Select(candidates).Some? && personId != "" && first != "" && second != ""
    ensures var recipient := Select(candidates);
      var inputs := Inputs(map["" := candidates, personId := candidates],
        map["" := Enriched(recipient, None), personId := Enriched(recipient, None)], None);
      var worlds := [World(None, Finished(Some(first), Some(SENT), "")), World(None, Finished(Some(second), Some(SENT), ""))];
      var results := Outcomes(inputs, ["", personId], worlds).0;
      && Succeeded(results[0]) && Succeeded(results[1])
      && results[0].recipient == results[1].recipient == recipient
  {
    var recipient := Select(candidates);
    var inputs := Inputs(map["" := candidates, personId := candidates],
      map["" := Enriched(recipient, None), personId := Enriched(recipient, None)], None);
    var worlds := [World(None, Finished(Some(first), Some(SENT), "")), World(None, Finished(Some(second), Some(SENT), ""))];
    var targets := ["", personId];
    assert targets[..1] == [""] && worlds[..1] == [worlds[0]] && targets[..1][..0] == [] && worlds[..1][..0] == [];
    assert Outcomes(inputs, [""], [worlds[0]]).1 == map[recipient.value.email := ""];
  }

  lemma RecipientIsCurrent(candidates: seq<Candidate>, enriched: Option<Enriched>)
    ensures Recipient(candidates, enriched).Some? ==> Recipient(candidates, enriched) == Select(candidates)
  {
  }

  lemma TargetIsCurrent(inputs: Inputs, personId: string, world: World, claimed: map<string, string>)
    ensures var r := Target(inputs, personId, world, claimed).0;
      Succeeded(r) ==> personId in inputs.people && r.recipient.Some? && r.recipient == Select(inputs.people[personId])
  {
    if personId in inputs.people && Recipient(inputs.people[personId], Lookup(inputs.enriched, personId)).Some? {
      RecipientIsCurrent(inputs.people[personId], Lookup(inputs.enriched, personId));
      var recipient := Recipient(inputs.people[personId], Lookup(inputs.enriched, personId)).value;
      SettleNamesItsTarget(personId, Truthy(inputs.graphRunId), world, recipient, claimed);
    }
  }

  ghost predicate IsCurrent(inputs: Inputs, r: Result) {
    Succeeded(r) ==> r.personId in inputs.people && r.recipient.Some? && r.recipient == Select(inputs.people[r.personId])
  }

  /** A result that did not fail goes to the address the ranking selects now, whatever the
      enrichment snapshot said. */
  lemma {:induction false} RecipientsAreCurrent(inputs: Inputs, targets: seq<string>, worlds: seq<World>)
    requires |worlds| == |targets|
    ensures forall i | 0 <= i < |targets| :: IsCurrent(inputs, Outcomes(inputs, targets, worlds).0[i])
    decreases |targets|
  {
    if targets != [] {
      var n := |targets| - 1;
      RecipientsAreCurrent(inputs, targets[..n], worlds[..n]);
      var (results, claimed) := Outcomes(inputs, targets[..n], worlds[..n]);
      OutcomesSnoc(inputs, targets, worlds);
      TargetIsCurrent(inputs, targets[n], worlds[n], claimed);
      TargetNamesItsPerson(inputs, targets[n], worlds[n], claimed);
      assert forall i | 0 <= i < n :: Outcomes(inputs, targets, worlds).0[i] == results[i];
    }
  }

  /** An artifact id comes with its status, and the outcome is the one that status calls for. */
  ghost predicate Consistent(r: Result) {
    && (Truthy(r.agentRunId) ==> r.artifactStatus.Some?)
    && (r.artifactStatus.Some? ==> r.status == OutcomeOf(r.artifactStatus.value))
    && (r.artifactStatus.None? ==> r.status == Failed)
    && (r.status == Failed <==> r.error.Some?)
  }

  lemma SettleIsConsistent(personId: string, inRun: bool, world: World, recipient: Selected, claimed: map<string, string>)
    ensures Consistent(Settle(personId, inRun, world, recipient, claimed).0)
  {
  }

  lemma TargetIsConsistent(inputs: Inputs, personId: string, world: World, claimed: map<string, string>)
    ensures Consistent(Target(inputs, personId, world, claimed).0)
  {
    if personId in inputs.people && Recipient(inputs.people[personId], Lookup(inputs.enriched, personId)).Some? {
      var recipient := Recipient(inputs.people[personId], Lookup(inputs.enriched, personId)).value;
      SettleIsConsistent(personId, Truthy(inputs.graphRunId), world, recipient, claimed);
    }
  }

  ghost predicate AllConsistent(results: seq<Result>) {
    forall i | 0 <= i < |results| :: Consistent(results[i])
  }

  lemma {:induction false} ResultsAreConsistent(inputs: Inputs, targets: seq<string>, worlds: seq<World>)
    requires |worlds| == |targets|
    ensures AllConsistent(Outcomes(inputs, targets, worlds).0)
    decreases |targets|
  {
    if targets != [] {
      var n := |targets| - 1;
      ResultsAreConsistent(inputs, targets[..n], worlds[..n]);
      var (results, claimed) := Outcomes(inputs, targets[..n], worlds[..n]);
      OutcomesSnoc(inputs, targets, worlds);
      TargetIsConsistent(inputs, targets[n], worlds[n], claimed);
      ConsistentSnoc(results, Target(inputs, targets[n], worlds[n], claimed).0);
    }
  }

  lemma ConsistentSnoc(results: seq<Result>, r: Result)
    requires AllConsistent(results) && Consistent(r)
    ensures AllConsistent(results + [r])
  {
  }

  // ---------------------------------------------------------------- counts

  lemma {:induction false} ByArtifactHolds(results: seq<Result>)
    requires AllConsistent(results)
    ensures forall k | k in ByArtifact(results) ::
      Consistent(ByArtifact(results)[k]) && ByArtifact(results)[k].agentRunId == Some(k) && k != ""
    ensures forall i | 0 <= i < |results| && Truthy(results[i].agentRunId) :: results[i].agentRunId.value in ByArtifact(results)
    ensures |ByArtifact(results)| <= |results|
  {
    if results != [] {
      var n := |results| - 1;
      ByArtifactHolds(results[..n]);
      forall i | 0 <= i < |results| && Truthy(results[i].agentRunId)
        ensures results[i].agentRunId.value in ByArtifact(results)
      {
        if i < n { assert results[..n][i] == results[i]; }
      }
    }
  }

  /** As many artifacts as results only if every result has one of its own. */
  lemma {:induction false} FullCountMeansDistinct(results: seq<Result>)
    requires AllConsistent(results)
    requires |ByArtifact(results)| == |results|
    ensures forall i | 0 <= i < |results| :: Truthy(results[i].agentRunId)
    ensures forall i, j | 0 <= i < j < |results| :: results[i].agentRunId != results[j].agentRunId
  {
    if results != [] {
      var n := |results| - 1;
      var before, last := results[..n], results[n];
      ByArtifactHolds(before);
      assert |ByArtifact(before)| == n && Truthy(last.agentRunId) && last.agentRunId.value !in ByArtifact(before);
      assert AllConsistent(before);
      FullCountMeansDistinct(before);
      forall i | 0 <= i < n ensures Truthy(results[i].agentRunId) && results[i].agentRunId != last.agentRunId {
        assert before[i] == results[i];
      }
      forall i, j | 0 <= i < j < |results| ensures results[i].agentRunId != results[j].agentRunId {
        if j < n { assert before[i] == results[i] && before[j] == results[j]; }
      }
    }
  }

  lemma CountsPartition(m: map<string, Result>)
    requires forall k | k in m :: Consistent(m[k]) && m[k].artifactStatus.Some?
    ensures |m| == |Having(m, IsPending)| + |Having(m, IsSent)| + |Having(m, IsFailed)| + |Having(m, IsOther)|
  {
    var pending, sent, failed, other := Having(m, IsPending), Having(m, IsSent), Having(m, IsFailed), Having(m, IsOther);
    forall k | k in m
      ensures IsPending(m[k]) || IsSent(m[k]) || IsFailed(m[k]) || IsOther(m[k])
      ensures !(IsPending(m[k]) && IsSent(m[k])) && !(IsFailed(m[k]) && IsOther(m[k]))
      ensures !((IsPending(m[k]) || IsSent(m[k])) && (IsFailed(m[k]) || IsOther(m[k])))
    {
      OneCategory(m[k]);
    }
    assert m.Keys == (pending + sent) + (failed + other);
    assert pending !! sent;
    assert failed !! other;
    assert (pending + sent) !! (failed + other);
    assert |m| == |m.Keys|;
  }

  lemma OneCategory(r: Result)
    requires Consistent(r) && r.artifactStatus.Some?
    ensures IsPending(r) || IsSent(r) || IsFailed(r) || IsOther(r)
    ensures !(IsPending(r) && IsSent(r)) && !(IsFailed(r) && IsOther(r))
    ensures !((IsPending(r) || IsSent(r)) && (IsFailed(r) || IsOther(r)))
  {
    match r.artifactStatus.value
    case _ =>
  }

  lemma {:induction false} DistinctMeansFullCount(results: seq<Result>)
    requires forall i | 0 <= i < |results| :: Truthy(results[i].agentRunId)
    requires forall i, j | 0 <= i < j < |results| :: results[i].agentRunId != results[j].agentRunId
    ensures |ByArtifact(results)| == |results|
    ensures forall k | k in ByArtifact(results) :: exists i :: 0 <= i < |results| && results[i].agentRunId == Some(k)
  {
    if results != [] {
      var n := |results| - 1;
      var before, last := results[..n], results[n];
      DistinctMeansFullCount(before);
      assert last.agentRunId.value !in ByArtifact(before);
      forall k | k in ByArtifact(results) ensures exists i :: 0 <= i < |results| && results[i].agentRunId == Some(k) {
        if k in ByArtifact(before) {
          var i :| 0 <= i < |before| && before[i].agentRunId == Some(k);
          assert results[i] == before[i];
        } else {
          assert results[n].agentRunId == Some(k);
        }
      }
    }
  }

  // ---------------------------------------------------------------- the stage

  ghost predicate HasOwnArtifact(results: seq<Result>, i: nat)
    requires i < |results|
  {
    && Truthy(results[i].agentRunId)
    && forall j | 0 <= j < |results| && j != i :: results[j].agentRunId != results[i].agentRunId
  }

  lemma CompleteMeansOwnArtifacts(results: seq<Result>)
    requires AllConsistent(results)
    ensures |ByArtifact(results)| == |results| <==> forall i | 0 <= i < |results| :: HasOwnArtifact(results, i)
  {
    if |ByArtifact(results)| == |results| {
      FullCountMeansDistinct(results);
    }
    if forall i | 0 <= i < |results| :: HasOwnArtifact(results, i) {
      forall i | 0 <= i < |results| ensures Truthy(results[i].agentRunId) {
        assert HasOwnArtifact(results, i);
      }
      forall i, j | 0 <= i < j < |results| ensures results[i].agentRunId != results[j].agentRunId {
        assert HasOwnArtifact(results, i);
      }
      DistinctMeansFullCount(results);
    }
  }

  lemma CountingSnoc(results: seq<Result>, i: nat)
    requires i < |results|
    ensures ByArtifact(results[..i + 1]) ==
      if Truthy(results[i].agentRunId) then ByArtifact(results[..i])[results[i].agentRunId.value := results[i]]
      else ByArtifact(results[..i])
    ensures FailedCount(results[..i + 1]) == FailedCount(results[..i]) + if results[i].status == Failed then 1 else 0
  {
    assert results[..i + 1][..i] == results[..i];
  }

  /** Counts over the results: they are counts of the artifacts, and they add up. */
  method Summarize(results: seq<Result>) returns (s: Summary)
    requires AllConsistent(results)
    ensures var m := ByArtifact(results);
      && s.generated == |m| <= |results|
      && s.pending == |Having(m, IsPending)| && s.sent == |Having(m, IsSent)| && s.other == |Having(m, IsOther)|
      && s.generated == s.pending + s.sent + |Having(m, IsFailed)| + s.other
      && s.failed == FailedCount(results)
  {
    var artifactsById: map<string, Result> := map[];
    var failedOutcomes: nat := 0;
    for i := 0 to |results|
      invariant artifactsById == ByArtifact(results[..i])
      invariant failedOutcomes == FailedCount(results[..i])
    {
      CountingSnoc(results, i);
      if Truthy(results[i].agentRunId) {
        artifactsById := artifactsById[results[i].agentRunId.value := results[i]];
      }
      if results[i].status == Failed { failedOutcomes := failedOutcomes + 1; }
    }
    assert results[..|results|] == results;
    ByArtifactHolds(results);
    s := CountArtifacts(artifactsById, failedOutcomes);
  }

  method CountArtifacts(artifactsById: map<string, Result>, failedOutcomes: nat) returns (s: Summary)
    requires forall k | k in artifactsById :: Consistent(artifactsById[k]) && artifactsById[k].artifactStatus.Some?
    ensures var m := artifactsById;
      && s.generated == |m|
      && s.pending == |Having(m, IsPending)| && s.sent == |Having(m, IsSent)| && s.other == |Having(m, IsOther)|
      && s.generated == s.pending + s.sent + |Having(m, IsFailed)| + s.other
      && s.failed == failedOutcomes
  {
    CountsPartition(artifactsById);
    var generated := |artifactsById|;
    var pending := set k | k in artifactsById && artifactsById[k].artifactStatus == Some(PENDING_REVIEW);
    var sent := set k | k in artifactsById && artifactsById[k].artifactStatus == Some(SENT);
    var failedPersisted := set k | k in artifactsById && artifactsById[k].status == Failed;
    assert pending == Having(artifactsById, IsPending) && sent == Having(artifactsById, IsSent);
    assert failedPersisted == Having(artifactsById, IsFailed);
    var other := generated - |pending| - |sent| - |failedPersisted|;
    return Summary(generated, |pending|, |sent|, failedOutcomes, other);
  }

  /** The node: skipped stages report so; otherwise one outcome per target, in target order, counts
      that add up, and COMPLETE exactly when no target failed and each has its own artifact. */
  method OutreachAgent(upstreamFailed: bool, approved: bool, leads: seq<ScoredLead>, inputs: Inputs, worlds: seq<World>)
    returns (reply: Reply)
    requires |worlds| == |Targets(leads)|
    ensures reply == Skipped(FAILED_STAGE) <==> upstreamFailed
    ensures reply == Skipped(COMPLETE) <==> !upstreamFailed && (!approved || Targets(leads) == [])
    ensures reply.Ran? ==>
      && reply.results == Outcomes(inputs, Targets(leads), worlds).0
      && |reply.results| == |Targets(leads)|
      && (forall i | 0 <= i < |reply.results| :: reply.results[i].personId == Targets(leads)[i])
      && (reply.stage == COMPLETE <==>
            forall i | 0 <= i < |reply.results| :: Succeeded(reply.results[i]) && HasOwnArtifact(reply.results, i))
      && (reply.stage == FAILED_STAGE <==> forall i | 0 <= i < |reply.results| :: !Succeeded(reply.results[i]))
    ensures reply.Ran? ==>
      var s, m := reply.summary, ByArtifact(reply.results);
      && s.generated == |m| <= |reply.results|
      && s.pending == |Having(m, IsPending)| && s.sent == |Having(m, IsSent)| && s.other == |Having(m, IsOther)|
      && s.generated == s.pending + s.sent + |Having(m, IsFailed)| + s.other
      && s.failed == FailedCount(reply.results)
  {
    if upstreamFailed { return Skipped(FAILED_STAGE); }
    if !approved { return Skipped(COMPLETE); }
    var targets := Targets(leads);
    if |targets| == 0 { return Skipped(COMPLETE); }
    var results, claimed := RunTargets(inputs, targets, worlds);
    OneOutcomePerTarget(inputs, targets, worlds);
    ResultsAreConsistent(inputs, targets, worlds);
    CompleteMeansOwnArtifacts(results);
    var summary := Summarize(results);
    var stage :=
      if summary.failed == 0 && summary.generated == |targets| then COMPLETE
      else if |results| - summary.failed > 0 then PARTIAL
      else FAILED_STAGE;
    return Ran(results, summary, stage);
  }

  /** The loop over the targets. */
  method RunTargets(inputs: Inputs, targets: seq<string>, worlds: seq<World>)
    returns (results: seq<Result>, claimed: map<string, string>)
    requires |worlds| == |targets|
    ensures (results, claimed) == Outcomes(inputs, targets, worlds)
  {
    results, claimed := [], map[];
    for i := 0 to |targets|
      invariant (results, claimed) == Outcomes(inputs, targets[..i], worlds[..i])
    {
      assert targets[..i + 1][..i] == targets[..i] && worlds[..i + 1][..i] == worlds[..i];
      var result;
      result, claimed := OneTarget(inputs, targets[i], worlds[i], claimed);
      results := results + [result];
    }
    assert targets[..|targets|] == targets && worlds[..|worlds|] == worlds;
  }

  /** The body of the loop, with its early exits. */
  method OneTarget(inputs: Inputs, personId: string, world: World, before: map<string, string>)
    returns (result: Result, claimed: map<string, string>)
    ensures (result, claimed) == Target(inputs, personId, world, before)
  {
    claimed := before;
    if personId !in inputs.people { return Fail(personId, "person_not_found_or_cross_org", None), claimed; }
    var enriched := Lookup(inputs.enriched, personId);
    var recipient := if enriched.Some? then enriched.value.recipient else None;
    var current := SelectOutreachRecipient(inputs.people[personId]);
    if recipient.Some? && current != recipient {
      return Fail(personId, "recipient_snapshot_requires_reconciliation", None), claimed;
    }
    if recipient.None? && enriched.Some? && enriched.value.email.Some? {
      var legacy := Normalize(enriched.value.email.value);
      if legacy.None? || current.None? || current.value.email != legacy.value {
        return Fail(personId, "legacy_recipient_requires_reconciliation", None), claimed;
      }
      recipient := current;
    }
    if recipient.None? { return Fail(personId, "no_eligible_email", None), claimed; }
    assert recipient == Recipient(inputs.people[personId], enriched);
    result, claimed := ClaimAndDraft(personId, Truthy(inputs.graphRunId), world, recipient.value, before);
  }

  /** From a settled recipient on. */
  method ClaimAndDraft(personId: string, inRun: bool, world: World, recipient: Selected, before: map<string, string>)
    returns (result: Result, claimed: map<string, string>)
    ensures (result, claimed) == Settle(personId, inRun, world, recipient, before)
  {
    claimed := before;
    var email := recipient.email;
    var existing := if inRun then world.existing else None;
    if existing.Some? && existing.value.payloadPersonId != Some(personId) {
      return Fail(personId,
        if Truthy(existing.value.payloadPersonId) then "recipient_already_targeted_in_run"
        else "existing_artifact_requires_reconciliation", Some(recipient)), claimed;
    }
    if email in claimed && claimed[email] != "" {
      return Fail(personId,
        if claimed[email] == personId then "duplicate_target_in_run" else "recipient_already_targeted_in_run",
        Some(recipient)), claimed;
    }
    claimed := claimed[email := personId];
    result := if existing.Some? then FromExisting(personId, existing.value, recipient)
              else FromDraft(personId, world.drafted, recipient);
  }
}
