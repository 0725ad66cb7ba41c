/** Which address outreach may use for a person: the eligible candidate that ranks first. */
module OutreachRecipient {
  import opened Options
  import opened Ordering

  datatype Source = TEAM_PAGE | GITHUB_COMMIT | VERIFIED_PATTERN | PATTERN_GUESS | HUNTER | SEC_FILING | PRESS_RELEASE

  datatype Verification = VALID | INVALID | CATCH_ALL | UNKNOWN

  datatype Basis = VerifiedValid | SourceConfirmed | VerifiedPattern

  /** confidence is None when it is not finite; a date is None when it is missing or unreadable. */
  datatype Candidate = Candidate(
    id: string,
    email: string,
    source: Source,
    verified: bool,
    verificationResult: Verification,
    confidence: Option<real>,
    verifiedAt: Option<int>,
    createdAt: Option<int>)

  datatype Warning = PatternWarning(result: Verification) | PublishedWarning(result: Verification)

  datatype Selected = Selected(
    candidateId: string,
    email: string,
    source: Source,
    verified: bool,
    verificationResult: Verification,
    confidence: Option<real>,
    verifiedAt: Option<int>,
    basis: Basis,
    warning: Option<Warning>)

  datatype Ranked = Ranked(candidate: Candidate, email: string, basis: Basis)

  // ---------------------------------------------------------------- normal form of an address

  predicate IsSpace(c: char) { c == ' ' || '\t' <= c <= '\r' }

  function Lower(s: string): (r: string)
    ensures |r| == |s|
  {
    if s == "" then ""
    else [if 'A' <= s[0] <= 'Z' then s[0] - 'A' + 'a' else s[0]] + Lower(s[1..])
  }

  function TrimStart(s: string): string {
    if s != "" && IsSpace(s[0]) then TrimStart(s[1..]) else s
  }

  function TrimEnd(s: string): string {
    if s != "" && IsSpace(s[|s| - 1]) then TrimEnd(s[..|s| - 1]) else s
  }

  /** One @ with text on both sides, no white space, at most 512 characters. */
  predicate IsAddress(s: string) {
    && 0 < |s| <= 512
    && (forall c | c in s :: !IsSpace(c))
    && exists at :: 0 < at < |s| - 1 && s[at] == '@' && forall k | 0 <= k < |s| && s[k] == '@' :: k == at
  }

  function Normalize(email: string): Option<string> {
    var s := Lower(TrimEnd(TrimStart(email)));
    if IsAddress(s) then Some(s) else None
  }

  // ---------------------------------------------------------------- eligibility and rank

  function SelectionBasis(c: Candidate): Option<Basis> {
    if c.verified && c.verificationResult == VALID then Some(VerifiedValid)
    else if c.source in {TEAM_PAGE, GITHUB_COMMIT, SEC_FILING, PRESS_RELEASE} then Some(SourceConfirmed)
    else if c.source == VERIFIED_PATTERN && (c.verificationResult == CATCH_ALL || c.verificationResult == UNKNOWN)
    then Some(VerifiedPattern)
    else None
  }

  predicate Eligible(c: Candidate) {
    c.verificationResult != INVALID && Normalize(c.email).Some? && SelectionBasis(c).Some?
  }

  function Rank(c: Candidate): Ranked
    requires Eligible(c)
  {
    Ranked(c, Normalize(c.email).value, SelectionBasis(c).value)
  }

  function BasisRank(b: Basis): int {
    match b case VerifiedValid => 0 case SourceConfirmed => 1 case VerifiedPattern => 2
  }

  function Confidence(c: Candidate): real { if c.confidence.Some? then c.confidence.value else 0.0 }

  function DateRank(d: Option<int>): int { if d.Some? then d.value else 0 }

  /** compareRanked(a, b) < 0 */
  predicate Before(a: Ranked, b: Ranked) {
    if a.basis != b.basis then BasisRank(a.basis) < BasisRank(b.basis)
    else if Confidence(a.candidate) != Confidence(b.candidate) then Confidence(a.candidate) > Confidence(b.candidate)
    else if DateRank(a.candidate.verifiedAt) != DateRank(b.candidate.verifiedAt) then
      DateRank(a.candidate.verifiedAt) > DateRank(b.candidate.verifiedAt)
    else if DateRank(a.candidate.createdAt) != DateRank(b.candidate.createdAt) then
      DateRank(a.candidate.createdAt) < DateRank(b.candidate.createdAt)
    else if a.candidate.id != b.candidate.id then TextBefore(a.candidate.id, b.candidate.id)
    else TextBefore(a.email, b.email)
  }

  function OperatorWarning(r: Ranked): Option<Warning> {
    var result := r.candidate.verificationResult;
    if result != CATCH_ALL && result != UNKNOWN then None
    else Some(if r.basis == VerifiedPattern then PatternWarning(result) else PublishedWarning(result))
  }

  function Snapshot(r: Ranked): Selected {
    var c := r.candidate;
    Selected(c.id, r.email, c.source, c.verified, c.verificationResult, c.confidence,
      if DateRank(c.verifiedAt) > 0 then c.verifiedAt else None, r.basis, OperatorWarning(r))
  }

  // ---------------------------------------------------------------- the plain scan

  /** The first of the best-ranked eligible candidates, by one scan. */
  function Best(candidates: seq<Candidate>): Option<Ranked> {
    if candidates == [] then None
    else
      var c, best := candidates[|candidates| - 1], Best(candidates[..|candidates| - 1]);
      if !Eligible(c) then best
      else if best.None? || Before(Rank(c), best.value) then Some(Rank(c))
      else best
  }

  function Select(candidates: seq<Candidate>): Option<Selected> {
    match Best(candidates) case None => None case Some(r) => Some(Snapshot(r))
  }

  lemma BeforeIsAsymmetric(a: Ranked, b: Ranked)
    ensures !(Before(a, b) && Before(b, a))
    ensures !Before(a, b) && !Before(b, a) ==> a.candidate.id == b.candidate.id && a.email == b.email
  {
    TextOrderIsTotal(a.candidate.id, b.candidate.id);
    TextOrderIsTotal(a.email, b.email);
  }

  lemma BeforeIsTransitive(a: Ranked, b: Ranked, c: Ranked)
    requires Before(a, b) && Before(b, c)
    ensures Before(a, c)
  {
    TextOrderIsTotal(a.candidate.id, a.candidate.id);
    if TextBefore(a.candidate.id, b.candidate.id) && TextBefore(b.candidate.id, c.candidate.id) {
      TextOrderIsTransitive(a.candidate.id, b.candidate.id, c.candidate.id);
      TextOrderIsTotal(a.candidate.id, c.candidate.id);
    }
    if TextBefore(a.email, b.email) && TextBefore(b.email, c.email) {
      TextOrderIsTransitive(a.email, b.email, c.email);
    }
  }

  /** Not being outranked is transitive as well. */
  lemma NotBeforeIsTransitive(a: Ranked, b: Ranked, c: Ranked)
    requires !Before(b, a) && !Before(c, b)
    ensures !Before(c, a)
  {
    BeforeIsAsymmetric(a, b);
    BeforeIsAsymmetric(b, c);
    if Before(c, a) {
      if Before(a, b) {
        BeforeIsTransitive(c, a, b);
      }
    }
  }

  // ---------------------------------------------------------------- what is selected

  ghost predicate IsBest(candidates: seq<Candidate>, r: Ranked) {
    && r.candidate in candidates && Eligible(r.candidate) && r == Rank(r.candidate)
    && forall c | c in candidates && Eligible(c) :: !Before(Rank(c), r)
  }

  /** The scan finds a best candidate exactly when one is eligible. */
  lemma {:induction false} BestIsBest(candidates: seq<Candidate>)
    ensures Best(candidates).None? <==> forall c | c in candidates :: !Eligible(c)
    ensures Best(candidates).Some? ==> IsBest(candidates, Best(candidates).value)
  {
    if candidates != [] {
      var c, before := candidates[|candidates| - 1], candidates[..|candidates| - 1];
      BestIsBest(before);
      assert candidates == before + [c];
      if Eligible(c) && Best(before).Some? {
        var old_ := Best(before).value;
        BeforeIsAsymmetric(Rank(c), Rank(c));
        if Before(Rank(c), old_) {
          forall d | d in candidates && Eligible(d) ensures !Before(Rank(d), Rank(c)) {
            if d in before && Before(Rank(d), Rank(c)) { BeforeIsTransitive(Rank(d), Rank(c), old_); }
          }
        }
      } else if Eligible(c) {
        BeforeIsAsymmetric(Rank(c), Rank(c));
      }
    }
  }

  ghost predicate DistinctIds(candidates: seq<Candidate>) {
    forall c, d | c in candidates && d in candidates && c.id == d.id :: c == d
  }

  /** With one row per id there is one best candidate, so the order in which rows arrive, and
      repeated rows, cannot change the recipient. */
  lemma RowOrderDoesNotMatter(a: seq<Candidate>, b: seq<Candidate>)
    requires DistinctIds(a)
    requires forall c :: c in a <==> c in b
    ensures Select(a) == Select(b)
  {
    BestIsBest(a);
    BestIsBest(b);
    if Best(a).Some? && Best(b).Some? {
      var x, y := Best(a).value, Best(b).value;
      assert !Before(Rank(y.candidate), x) && !Before(Rank(x.candidate), y);
      BeforeIsAsymmetric(x, y);
    } else {
      assert forall c | c in a :: c in b;
      assert forall c | c in b :: c in a;
    }
  }

  // ---------------------------------------------------------------- best per address, then sorted

  function InsertRanked(r: Ranked, sorted: seq<Ranked>): (s: seq<Ranked>)
    ensures |s| == |sorted| + 1
  {
    if sorted == [] || !Before(sorted[0], r) then [r] + sorted else [sorted[0]] + InsertRanked(r, sorted[1..])
  }

  function SortRanked(rs: seq<Ranked>): (s: seq<Ranked>)
    ensures |s| == |rs|
  {
    if rs == [] then [] else InsertRanked(rs[0], SortRanked(rs[1..]))
  }

  lemma {:induction false} SortedHeadIsBest(rs: seq<Ranked>)
    requires rs != []
    ensures SortRanked(rs)[0] in rs
    ensures forall r | r in rs :: !Before(r, SortRanked(rs)[0])
  {
    BeforeIsAsymmetric(rs[0], rs[0]);
    if |rs| > 1 {
      SortedHeadIsBest(rs[1..]);
      var head := SortRanked(rs[1..])[0];
      assert forall r | r in rs :: r == rs[0] || r in rs[1..];
      if Before(head, rs[0]) {
        BeforeIsAsymmetric(head, rs[0]);
      } else {
        forall r | r in rs[1..] ensures !Before(r, rs[0]) {
          NotBeforeIsTransitive(rs[0], head, r);
        }
      }
    }
  }

  /** The scan restricted to one address. */
  function BestAt(candidates: seq<Candidate>, email: string): Option<Ranked> {
    if candidates == [] then None
    else
      var c, best := candidates[|candidates| - 1], BestAt(candidates[..|candidates| - 1], email);
      if !Eligible(c) || Rank(c).email != email then best
      else if best.None? || Before(Rank(c), best.value) then Some(Rank(c))
      else best
  }

  lemma {:induction false} BestAtIsEligible(candidates: seq<Candidate>, email: string)
    ensures BestAt(candidates, email).Some? ==>
      var r := BestAt(candidates, email).value;
      r.email == email && r.candidate in candidates && Eligible(r.candidate) && r == Rank(r.candidate)
  {
    if candidates != [] { BestAtIsEligible(candidates[..|candidates| - 1], email); }
  }

  /** The best candidate is the best one at its own address. */
  lemma {:induction false} BestIsBestAtItsAddress(candidates: seq<Candidate>)
    ensures Best(candidates).Some? ==> BestAt(candidates, Best(candidates).value.email) == Best(candidates)
  {
    if candidates != [] {
      var c, seen := candidates[|candidates| - 1], candidates[..|candidates| - 1];
      BestIsBestAtItsAddress(seen);
      if Eligible(c) && (Best(seen).None? || Before(Rank(c), Best(seen).value)) {
        BestIsBest(seen);
        BestAtIsEligible(seen, Rank(c).email);
        if BestAt(seen, Rank(c).email).Some? {
          var here := BestAt(seen, Rank(c).email).value;
          assert here.candidate in seen && Best(seen).Some?;
          if !Before(Rank(c), here) {
            NotBeforeIsTransitive(Best(seen).value, here, Rank(c));
          }
        }
      }
    }
  }

  /** Keeping the best candidate of each address and sorting those refines the plain scan. */
  method SelectOutreachRecipient(candidates: seq<Candidate>) returns (r: Option<Selected>)
    ensures r == Select(candidates)
  {
    var byAddress: map<string, Ranked> := map[];
    var order: seq<string> := [];
    for i := 0 to |candidates|
      invariant forall e :: Lookup(byAddress, e) == BestAt(candidates[..i], e)
      invariant forall e :: e in order <==> e in byAddress
    {
      var candidate := candidates[i];
      assert candidates[..i + 1][..i] == candidates[..i];
      if candidate.verificationResult == INVALID { continue; }
      var email := Normalize(candidate.email);
      if email.None? { continue; }
      var basis := SelectionBasis(candidate);
      if basis.None? { continue; }
      var ranked := Ranked(candidate, email.value, basis.value);
      assert ranked == Rank(candidate);
      if ranked.email !in byAddress { order := order + [ranked.email]; }
      assert Lookup(byAddress, ranked.email) == BestAt(candidates[..i], ranked.email);
      if ranked.email !in byAddress || Before(ranked, byAddress[ranked.email]) {
        byAddress := byAddress[ranked.email := ranked];
      }
    }
    assert candidates[..|candidates|] == candidates;
    var values := seq(|order|, k requires 0 <= k < |order| && order[k] in byAddress => byAddress[order[k]]);
    SortedValuesStartWithBest(candidates, byAddress, order, values);
    if values == [] { return None; }
    return Some(Snapshot(SortRanked(values)[0]));
  }

  lemma SortedValuesStartWithBest(candidates: seq<Candidate>, byAddress: map<string, Ranked>, order: seq<string>,
                                  values: seq<Ranked>)
    requires forall e :: Lookup(byAddress, e) == BestAt(candidates, e)
    requires forall e :: e in order <==> e in byAddress
    requires |values| == |order| && forall k | 0 <= k < |order| :: values[k] == byAddress[order[k]]
    ensures values == [] <==> Best(candidates).None?
    ensures values != [] ==> Best(candidates) == Some(SortRanked(values)[0])
  {
    BestIsBest(candidates);
    BestIsBestAtItsAddress(candidates);
    if values != [] {
      assert order[0] in order && Lookup(byAddress, order[0]).Some?;
      BestAtIsEligible(candidates, order[0]);
    }
    if Best(candidates).Some? {
      var r := Best(candidates).value;
      assert Lookup(byAddress, r.email) == Some(r) && r.email in order;
      var k :| 0 <= k < |order| && order[k] == r.email;
      assert values[k] == r;
      SortedHeadIsBest(values);
      var head := SortRanked(values)[0];
      var h :| 0 <= h < |values| && values[h] == head;
      assert Lookup(byAddress, order[h]) == Some(head);
      BestAtIsEligible(candidates, order[h]);
      assert !Before(Rank(head.candidate), r);
      BeforeIsAsymmetric(r, head);
    }
  }
}
