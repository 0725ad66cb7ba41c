/** The pipeline's state channels: their reducers, the merge the agent node does by hand, and the
    delta the node returns.  Rows are represented by their ids. */
module PipelineState {
  import opened Options

  /** Set at graph entry; no stage is meant to write these. */
  datatype Context = Context(
    orgId: string, runId: string, icpProfileIds: seq<string>, approved: bool, approvedBy: Option<string>)

  /** Channels a stage replaces. */
  datatype Output = Output(
    sourcedCompanies: seq<string>, sourcedPersonIds: seq<string>, enrichedPeople: seq<string>,
    enrichedPersonIds: seq<string>, scoredLeads: seq<string>, outreachResults: seq<string>)

  datatype State = State(
    context: Context,
    output: Output,
    stagesCompleted: seq<string>,
    stageStatuses: map<string, string>,
    messages: seq<string>,
    errors: seq<string>)

  /** A partial update: None for a key that is absent. */
  datatype ContextUpdate = ContextUpdate(
    orgId: Option<string>, runId: Option<string>, icpProfileIds: Option<seq<string>>,
    approved: Option<bool>, approvedBy: Option<Option<string>>)

  datatype OutputUpdate = OutputUpdate(
    sourcedCompanies: Option<seq<string>>, sourcedPersonIds: Option<seq<string>>, enrichedPeople: Option<seq<string>>,
    enrichedPersonIds: Option<seq<string>>, scoredLeads: Option<seq<string>>, outreachResults: Option<seq<string>>)

  datatype Update = Update(
    context: ContextUpdate,
    output: OutputUpdate,
    stagesCompleted: Option<seq<string>>,
    stageStatuses: Option<map<string, string>>,
    messages: Option<seq<string>>,
    errors: Option<seq<string>>)

  function Or<T>(update: Option<T>, current: T): T { if update.Some? then update.value else current }

  function ReplaceContext(c: Context, u: ContextUpdate): Context {
    Context(Or(u.orgId, c.orgId), Or(u.runId, c.runId), Or(u.icpProfileIds, c.icpProfileIds),
      Or(u.approved, c.approved), Or(u.approvedBy, c.approvedBy))
  }

  function ReplaceOutput(o: Output, u: OutputUpdate): Output {
    Output(Or(u.sourcedCompanies, o.sourcedCompanies), Or(u.sourcedPersonIds, o.sourcedPersonIds),
      Or(u.enrichedPeople, o.enrichedPeople), Or(u.enrichedPersonIds, o.enrichedPersonIds),
      Or(u.scoredLeads, o.scoredLeads), Or(u.outreachResults, o.outreachResults))
  }

  /** Set construction: the first of equal entries stays. */
  function Dedupe(list: seq<string>): seq<string> {
    if list == [] then []
    else
      var last, before := list[|list| - 1], Dedupe(list[..|list| - 1]);
      if last in before then before else before + [last]
  }

  // ---------------------------------------------------------------- the two ways to apply an update

  /** The channel reducers: a channel without a write keeps its value. */
  function Reduce(s: State, u: Update): State {
    State(
      ReplaceContext(s.context, u.context),
      ReplaceOutput(s.output, u.output),
      if u.stagesCompleted.Some? then Dedupe(s.stagesCompleted + u.stagesCompleted.value) else s.stagesCompleted,
      s.stageStatuses + Or(u.stageStatuses, map[]),
      s.messages + Or(u.messages, []),
      s.errors + Or(u.errors, []))
  }

  /** mergePipelineState: the same, except that stages are always put through the set. */
  function Merge(s: State, u: Update): State {
    State(
      ReplaceContext(s.context, u.context),
      ReplaceOutput(s.output, u.output),
      Dedupe(s.stagesCompleted + Or(u.stagesCompleted, [])),
      s.stageStatuses + Or(u.stageStatuses, map[]),
      s.messages + Or(u.messages, []),
      s.errors + Or(u.errors, []))
  }

  function Merged(s: State, updates: seq<Update>): State {
    if updates == [] then s else Merge(Merged(s, updates[..|updates| - 1]), updates[|updates| - 1])
  }

  function Reduced(s: State, updates: seq<Update>): State {
    if updates == [] then s else Reduce(Reduced(s, updates[..|updates| - 1]), updates[|updates| - 1])
  }

  // ---------------------------------------------------------------- the returned delta

  function Without(list: seq<string>, seen: seq<string>): seq<string> {
    if list == [] then []
    else (if list[0] in seen then [] else [list[0]]) + Without(list[1..], seen)
  }

  const NO_CONTEXT: ContextUpdate := ContextUpdate(None, None, None, None, None)

  function Delta(before: State, after: State): Update
    requires |before.messages| <= |after.messages| && |before.errors| <= |after.errors|
  {
    Update(
      NO_CONTEXT,
      OutputUpdate(Some(after.output.sourcedCompanies), Some(after.output.sourcedPersonIds), Some(after.output.enrichedPeople),
        Some(after.output.enrichedPersonIds), Some(after.output.scoredLeads), Some(after.output.outreachResults)),
      Some(Without(after.stagesCompleted, before.stagesCompleted)),
      Some(after.stageStatuses),
      Some(after.messages[|before.messages|..]),
      Some(after.errors[|before.errors|..]))
  }

  // ---------------------------------------------------------------- lists without repeats

  ghost predicate Distinct(list: seq<string>) {
    forall i, j | 0 <= i < j < |list| :: list[i] != list[j]
  }

  lemma {:induction false} DedupeIsDistinct(list: seq<string>)
    ensures Distinct(Dedupe(list))
    ensures forall x :: x in Dedupe(list) <==> x in list
    ensures Dedupe(list) == list <==> Distinct(list)
  {
    if list != [] {
      var n := |list| - 1;
      DedupeIsDistinct(list[..n]);
      assert list == list[..n] + [list[n]];
      assert |Dedupe(list[..n])| <= n by { DedupeIsShorter(list[..n]); }
      if Distinct(list) {
        assert list[n] !in list[..n];
      }
    }
  }

  lemma {:induction false} DedupeIsShorter(list: seq<string>)
    ensures |Dedupe(list)| <= |list|
  {
    if list != [] { DedupeIsShorter(list[..|list| - 1]); }
  }

  /** Stages already completed keep their place when more are added. */
  lemma {:induction false} DedupeGrows(list: seq<string>, more: seq<string>)
    ensures Dedupe(list) <= Dedupe(list + more)
    decreases |more|
  {
    if more == [] {
      assert list + more == list;
    } else {
      var n := |more| - 1;
      DedupeGrows(list, more[..n]);
      assert (list + more)[..|list + more| - 1] == list + more[..n];
    }
  }

  lemma {:induction false} DedupeAppend(list: seq<string>, added: seq<string>)
    requires Distinct(added) && forall x | x in added :: x !in list
    ensures Dedupe(list + added) == Dedupe(list) + added
    decreases |added|
  {
    DedupeIsDistinct(list);
    if added == [] {
      assert list + added == list;
    } else {
      var n := |added| - 1;
      DedupeAppend(list, added[..n]);
      assert (list + added)[..|list + added| - 1] == list + added[..n];
      assert added[n] !in added[..n];
      assert added == added[..n] + [added[n]];
    }
  }

  lemma {:induction false} WithoutConcat(a: seq<string>, b: seq<string>, seen: seq<string>)
    requires forall x | x in a :: x in seen
    requires forall x | x in b :: x !in seen
    ensures Without(a + b, seen) == b
    decreases |a| + |b|
  {
    if a != [] {
      assert (a + b)[1..] == a[1..] + b && (a + b)[0] == a[0];
      WithoutConcat(a[1..], b, seen);
    } else if b != [] {
      assert (a + b)[1..] == a + b[1..] && (a + b)[0] == b[0];
      WithoutConcat(a, b[1..], seen);
    }
  }

  /** Sending only the new stages through the reducer gives back the whole list, order included. */
  lemma NewStagesSuffice(list: seq<string>, after: seq<string>)
    requires Distinct(after) && Dedupe(list) <= after
    ensures Dedupe(list + Without(after, list)) == after
  {
    DedupeIsDistinct(list);
    var known := |Dedupe(list)|;
    var added := after[known..];
    assert after == Dedupe(list) + added;
    assert forall j | 0 <= j < |added| :: added[j] == after[known + j];
    assert forall i, j | 0 <= i < known && 0 <= j < |added| :: Dedupe(list)[i] != added[j];
    WithoutConcat(Dedupe(list), added, list);
    DedupeAppend(list, added);
  }

  // ---------------------------------------------------------------- the theorem

  lemma {:induction false} MergedGrows(s: State, updates: seq<Update>)
    ensures s.messages <= Merged(s, updates).messages && s.errors <= Merged(s, updates).errors
    ensures s.stageStatuses.Keys <= Merged(s, updates).stageStatuses.Keys
    ensures updates != [] ==> Distinct(Merged(s, updates).stagesCompleted)
    ensures updates != [] ==> Dedupe(s.stagesCompleted) <= Merged(s, updates).stagesCompleted
    decreases |updates|
  {
    if updates != [] {
      var n := |updates| - 1;
      var before, u := Merged(s, updates[..n]), updates[n];
      MergedGrows(s, updates[..n]);
      DedupeIsDistinct(before.stagesCompleted + Or(u.stagesCompleted, []));
      DedupeIsDistinct(before.stagesCompleted);
      DedupeGrows(before.stagesCompleted, Or(u.stagesCompleted, []));
    }
  }

  lemma DeltaChannels(s: State, after: State)
    requires s.messages <= after.messages && s.errors <= after.errors
    requires s.stageStatuses.Keys <= after.stageStatuses.Keys
    requires Distinct(after.stagesCompleted) && Dedupe(s.stagesCompleted) <= after.stagesCompleted
    ensures Reduce(s, Delta(s, after)) == after.(context := s.context)
  {
    var delta := Delta(s, after);
    NewStagesSuffice(s.stagesCompleted, after.stagesCompleted);
    assert s.stageStatuses + after.stageStatuses == after.stageStatuses;
    assert s.messages + after.messages[|s.messages|..] == after.messages;
    assert s.errors + after.errors[|s.errors|..] == after.errors;
    assert ReplaceOutput(s.output, delta.output) == after.output;
  }

  /** The channels do to the input state and the returned delta exactly what the node did by
      repeated merging if and only if the merging left the five context channels alone:
      the delta does not carry those. */
  lemma DeltaReproducesState(s: State, updates: seq<Update>)
    requires updates != []
    ensures var after := Merged(s, updates);
      && |s.messages| <= |after.messages| && |s.errors| <= |after.errors|
      && (Reduce(s, Delta(s, after)) == after <==> after.context == s.context)
  {
    MergedGrows(s, updates);
    DeltaChannels(s, Merged(s, updates));
  }

  /** Updates that do not write the context leave it alone. */
  lemma {:induction false} StagesKeepContext(s: State, updates: seq<Update>)
    requires forall i | 0 <= i < |updates| :: updates[i].context == NO_CONTEXT
    ensures Merged(s, updates).context == s.context
    decreases |updates|
  {
    if updates != [] { StagesKeepContext(s, updates[..|updates| - 1]); }
  }

  /** One merge is one reducer step exactly when the update writes stages or none is repeated. */
  lemma MergeIsReduce(s: State, u: Update)
    ensures Merge(s, u) == Reduce(s, u) <==> u.stagesCompleted.Some? || Distinct(s.stagesCompleted)
  {
    DedupeIsDistinct(s.stagesCompleted);
    assert s.stagesCompleted + [] == s.stagesCompleted;
  }

  /** Run as separate graph nodes, the stages would reach the same state. */
  lemma {:induction false} StagesAsNodesAgree(s: State, updates: seq<Update>)
    requires Distinct(s.stagesCompleted)
    ensures Reduced(s, updates) == Merged(s, updates)
    ensures Distinct(Merged(s, updates).stagesCompleted)
    decreases |updates|
  {
    if updates != [] {
      var n := |updates| - 1;
      StagesAsNodesAgree(s, updates[..n]);
      MergeIsReduce(Merged(s, updates[..n]), updates[n]);
      MergedGrows(s, updates);
    }
  }

  /** The node: merge stage after stage, then return what the channels do not hold yet. */
  method AutonomousSdrAgent(s: State, updates: seq<Update>) returns (delta: Update)
    requires updates != []
    ensures Reduce(s, delta) == Merged(s, updates) <==> Merged(s, updates).context == s.context
    ensures (forall i | 0 <= i < |updates| :: updates[i].context == NO_CONTEXT) ==> Reduce(s, delta) == Merged(s, updates)
  {
    var current := s;
    for i := 0 to |updates|
      invariant current == Merged(s, updates[..i])
    {
      assert updates[..i + 1][..i] == updates[..i];
      current := Merge(current, updates[i]);
    }
    assert updates[..|updates|] == updates;
    DeltaReproducesState(s, updates);
    if forall i | 0 <= i < |updates| :: updates[i].context == NO_CONTEXT {
      StagesKeepContext(s, updates);
    }
    delta := Delta(s, current);
  }
}
