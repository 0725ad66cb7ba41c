/** Which candidate outreach writes to, told from the candidates' own columns. */
module RecipientRanking {
  import opened Options
  import opened Ordering
  import opened OutreachRecipient

  // ---------------------------------------------------------------- usable addresses

  /** Space, tab, line feed, vertical tab, form feed, carriage return. */
  predicate IsWhite(c: char) { c as int in {32, 9, 10, 11, 12, 13} }

  predicate White(s: string) {
    forall c | c in s :: IsWhite(c)
  }

  /** The same text with the ASCII capitals made small. */
  predicate Lowered(core: string, s: string) {
    && |core| == |s|
    && forall i | 0 <= i < |s| ::
         if 'A' <= core[i] <= 'Z' then s[i] as int == core[i] as int + 32 else s[i] == core[i]
  }

  /** Something, one @, something; at most 512 characters, none of them white. */
  ghost predicate PlainAddress(s: string) {
    && |s| <= 512
    && (forall c | c in s :: !IsWhite(c))
    && exists user, host :: s == user + "@" + host && user != "" && host != "" && '@' !in user && '@' !in host
  }

  ghost predicate NormalForm(email: string, s: string) {
    PlainAddress(s) && exists before, core, after :: email == before + core + after && White(before) && White(after) && Lowered(core, s)
  }

  lemma WhiteIsSpace(c: char)
    ensures IsWhite(c) <==> IsSpace(c)
  {
    assert ' ' as int == 32 && '\t' as int == 9 && '\r' as int == 13;
  }

  lemma {:induction false} LowerIsLowered(s: string)
    ensures Lowered(s, Lower(s))
  {
    if s != "" {
      LowerIsLowered(s[1..]);
      assert forall i | 0 < i < |s| :: s[i] == s[1..][i - 1] && Lower(s)[i] == Lower(s[1..])[i - 1];
    }
  }

  lemma LoweredIsUnique(core: string, s: string, r: string)
    requires Lowered(core, s) && Lowered(core, r)
    ensures s == r
  {
    forall i | 0 <= i < |s| ensures s[i] == r[i] {
      assert s[i] as int == r[i] as int;
    }
  }

  lemma LoweredKeepsSpaces(core: string, s: string)
    requires Lowered(core, s)
    ensures (forall c | c in s :: !IsSpace(c)) <==> (forall c | c in core :: !IsSpace(c))
  {
    assert forall i | 0 <= i < |s| :: IsSpace(s[i]) <==> IsSpace(core[i]);
    if forall c | c in s :: !IsSpace(c) {
      forall c | c in core ensures !IsSpace(c) { var i :| 0 <= i < |core| && core[i] == c; assert s[i] in s; }
    }
    if forall c | c in core :: !IsSpace(c) {
      forall c | c in s ensures !IsSpace(c) { var i :| 0 <= i < |s| && s[i] == c; assert core[i] in core; }
    }
  }

  lemma {:induction false} TrimStartCuts(s: string)
    ensures |TrimStart(s)| <= |s| && s == s[..|s| - |TrimStart(s)|] + TrimStart(s)
    ensures White(s[..|s| - |TrimStart(s)|])
    ensures TrimStart(s) != "" ==> !IsSpace(TrimStart(s)[0])
  {
    if s != "" && IsSpace(s[0]) {
      TrimStartCuts(s[1..]);
      var n := |s| - |TrimStart(s)|;
      assert s[..n] == [s[0]] + s[1..][..n - 1];
      WhiteIsSpace(s[0]);
    }
  }

  lemma {:induction false} TrimEndCuts(s: string)
    ensures |TrimEnd(s)| <= |s| && s == TrimEnd(s) + s[|TrimEnd(s)|..]
    ensures White(s[|TrimEnd(s)|..])
    ensures TrimEnd(s) != "" ==> !IsSpace(TrimEnd(s)[|TrimEnd(s)| - 1])
  {
    if s != "" && IsSpace(s[|s| - 1]) {
      TrimEndCuts(s[..|s| - 1]);
      assert s[|TrimEnd(s)|..] == s[..|s| - 1][|TrimEnd(s)|..] + [s[|s| - 1]];
      WhiteIsSpace(s[|s| - 1]);
    }
  }

  lemma {:induction false} TrimStartSkips(before: string, s: string)
    requires White(before) && s != "" && !IsSpace(s[0])
    ensures TrimStart(before + s) == s
  {
    if before == "" {
      assert before + s == s;
    } else {
      WhiteIsSpace(before[0]);
      assert (before + s)[1..] == before[1..] + s;
      TrimStartSkips(before[1..], s);
    }
  }

  lemma {:induction false} TrimEndSkips(s: string, after: string)
    requires White(after) && s != "" && !IsSpace(s[|s| - 1])
    ensures TrimEnd(s + after) == s
  {
    if after == "" {
      assert s + after == s;
    } else {
      var n := |after| - 1;
      WhiteIsSpace(after[n]);
      assert (s + after)[..|s| + n] == s + after[..n];
      TrimEndSkips(s, after[..n]);
    }
  }

  lemma AddressIsPlain(s: string)
    requires IsAddress(s)
    ensures PlainAddress(s)
  {
    forall c | c in s ensures !IsWhite(c) { WhiteIsSpace(c); }
    var at :| 0 < at < |s| - 1 && s[at] == '@' && forall k | 0 <= k < |s| && s[k] == '@' :: k == at;
    var user, host := s[..at], s[at + 1..];
    assert s == user + "@" + host;
    assert forall k | 0 <= k < |user| :: user[k] == s[k];
    assert forall k | 0 <= k < |host| :: host[k] == s[at + 1 + k];
    assert '@' !in user && '@' !in host;
  }

  lemma PlainIsAddress(s: string)
    requires PlainAddress(s)
    ensures IsAddress(s)
  {
    forall c | c in s ensures !IsSpace(c) { WhiteIsSpace(c); }
    var user, host :| s == user + "@" + host && user != "" && host != "" && '@' !in user && '@' !in host;
    var at := |user|;
    assert s[at] == '@';
    assert forall k | 0 <= k < at :: s[k] == user[k] && user[k] in user;
    assert forall k | at < k < |s| :: s[k] == host[k - at - 1] && host[k - at - 1] in host;
  }

  /** What normalization answers: the address inside the white space, in small letters, if it is one. */
  lemma NormalizeFindsNormalForm(email: string, s: string)
    ensures Normalize(email) == Some(s) <==> NormalForm(email, s)
  {
    if Normalize(email) == Some(s) { NormalizedIsNormal(email, s); }
    if NormalForm(email, s) {
      var before, core, after :| email == before + core + after && White(before) && White(after) && Lowered(core, s);
      PlainIsAddress(s);
      TrimmedIsCore(before, core, after, s);
      LowerIsLowered(core);
      LoweredIsUnique(core, s, Lower(core));
    }
  }

  lemma NormalizedIsNormal(email: string, s: string)
    requires Normalize(email) == Some(s)
    ensures NormalForm(email, s)
  {
    var before, core, after := TrimCuts(email);
    LowerIsLowered(core);
    AddressIsPlain(s);
  }

  lemma TrimCuts(email: string) returns (before: string, core: string, after: string)
    ensures email == before + core + after && White(before) && White(after) && core == TrimEnd(TrimStart(email))
  {
    var t := TrimStart(email);
    TrimStartCuts(email);
    TrimEndCuts(t);
    before, core := email[..|email| - |t|], TrimEnd(t);
    after := t[|core|..];
    Regroup(before, core, after);
  }

  lemma Regroup(a: string, b: string, c: string)
    ensures a + (b + c) == a + b + c
  {
  }

  lemma TrimmedIsCore(before: string, core: string, after: string, s: string)
    requires White(before) && White(after) && Lowered(core, s) && IsAddress(s)
    ensures TrimEnd(TrimStart(before + core + after)) == core
  {
    LoweredKeepsSpaces(core, s);
    assert core[0] in core && core[|core| - 1] in core;
    assert before + core + after == before + (core + after) && (core + after)[0] == core[0];
    TrimStartSkips(before, core + after);
    TrimEndSkips(core, after);
  }

  // ---------------------------------------------------------------- the three classes

  ghost predicate Usable(c: Candidate) {
    c.verificationResult != INVALID && exists s :: NormalForm(c.email, s)
  }

  ghost predicate ProviderVerified(c: Candidate) {
    Usable(c) && c.verified && c.verificationResult == VALID
  }

  ghost predicate Published(c: Candidate) {
    Usable(c) && (c.source == TEAM_PAGE || c.source == GITHUB_COMMIT || c.source == SEC_FILING || c.source == PRESS_RELEASE)
  }

  ghost predicate LearnedPattern(c: Candidate) {
    Usable(c) && c.source == VERIFIED_PATTERN && c.verificationResult != VALID
  }

  ghost predicate Exists(candidates: seq<Candidate>, p: Candidate -> bool) {
    exists c :: c in candidates && p(c)
  }

  /** Within its class nothing has more confidence; at equal confidence nothing a later verification;
      then nothing an earlier creation; then nothing a smaller id.  What is missing counts as zero. */
  ghost predicate NotOutdone(c: Candidate, d: Candidate) {
    var trust, rival := if c.confidence.Some? then c.confidence.value else 0.0, if d.confidence.Some? then d.confidence.value else 0.0;
    var verified, verified' := if c.verifiedAt.Some? then c.verifiedAt.value else 0, if d.verifiedAt.Some? then d.verifiedAt.value else 0;
    var made, made' := if c.createdAt.Some? then c.createdAt.value else 0, if d.createdAt.Some? then d.createdAt.value else 0;
    && rival <= trust
    && (rival == trust ==> verified' <= verified)
    && (rival == trust && verified' == verified ==> made <= made')
    && (rival == trust && verified' == verified && made == made' ==> d.id == c.id || TextBefore(c.id, d.id))
  }

  ghost predicate Wins(candidates: seq<Candidate>, c: Candidate, p: Candidate -> bool) {
    c in candidates && p(c) && forall d | d in candidates && p(d) :: NotOutdone(c, d)
  }

  /** Every column of the answer. */
  ghost predicate Describes(s: Selected, c: Candidate, basis: Basis) {
    && s.candidateId == c.id && NormalForm(c.email, s.email) && s.source == c.source
    && s.verified == c.verified && s.verificationResult == c.verificationResult && s.confidence == c.confidence
    && s.verifiedAt == (if c.verifiedAt.Some? && c.verifiedAt.value > 0 then c.verifiedAt else None)
    && s.basis == basis
    && (s.warning.None? <==> c.verificationResult == VALID)
    && (s.warning.Some? ==>
          s.warning.value == if basis == VerifiedPattern then PatternWarning(c.verificationResult)
                             else PublishedWarning(c.verificationResult))
  }

  ghost function ClassOf(c: Candidate): Basis {
    if ProviderVerified(c) then VerifiedValid else if Published(c) then SourceConfirmed else VerifiedPattern
  }

  lemma EligibleMeans(c: Candidate)
    ensures Eligible(c) <==> ProviderVerified(c) || Published(c) || LearnedPattern(c)
    ensures Eligible(c) ==> NormalForm(c.email, Rank(c).email)
    ensures Eligible(c) ==> Rank(c).basis == ClassOf(c)
  {
    if Normalize(c.email).Some? { NormalizeFindsNormalForm(c.email, Normalize(c.email).value); }
    if s :| NormalForm(c.email, s) { NormalizeFindsNormalForm(c.email, s); }
  }

  lemma RankedSameBasis(c: Candidate, d: Candidate)
    requires Eligible(c) && Eligible(d) && Rank(c).basis == Rank(d).basis && !Before(Rank(d), Rank(c))
    ensures NotOutdone(c, d)
  {
    TextOrderIsTotal(c.id, d.id);
  }

  lemma HigherClassWins(c: Candidate, d: Candidate)
    requires Eligible(c) && Eligible(d) && !Before(Rank(d), Rank(c))
    ensures ProviderVerified(d) ==> ProviderVerified(c)
    ensures Published(d) && !ProviderVerified(c) ==> Published(c)
  {
    EligibleMeans(c);
    EligibleMeans(d);
  }

  lemma WinnerOfClass(candidates: seq<Candidate>, c: Candidate, p: Candidate -> bool)
    requires Eligible(c) && IsBest(candidates, Rank(c)) && p(c)
    requires forall d | d in candidates && p(d) :: Eligible(d) && Rank(d).basis == Rank(c).basis
    ensures Wins(candidates, c, p)
  {
    forall d | d in candidates && p(d) ensures NotOutdone(c, d) { RankedSameBasis(c, d); }
  }

  /** Nobody is selected exactly when there is no verified, published or learned candidate; else
      the first of these classes that is not empty supplies the winner, and the answer describes it. */
  lemma SelectedIsTheWinner(candidates: seq<Candidate>)
    ensures Select(candidates).None? <==>
      !Exists(candidates, ProviderVerified) && !Exists(candidates, Published) && !Exists(candidates, LearnedPattern)
    ensures Select(candidates).Some? ==> exists c ::
      if Exists(candidates, ProviderVerified) then
        Wins(candidates, c, ProviderVerified) && Describes(Select(candidates).value, c, VerifiedValid)
      else if Exists(candidates, Published) then
        Wins(candidates, c, Published) && Describes(Select(candidates).value, c, SourceConfirmed)
      else
        Wins(candidates, c, LearnedPattern) && Describes(Select(candidates).value, c, VerifiedPattern)
  {
    BestIsBest(candidates);
    forall d ensures Eligible(d) <==> ProviderVerified(d) || Published(d) || LearnedPattern(d) { EligibleMeans(d); }
    if Best(candidates).Some? {
      var c := Best(candidates).value.candidate;
      WinnerWins(candidates, c);
    }
  }

  lemma WinnerWins(candidates: seq<Candidate>, c: Candidate)
    requires Eligible(c) && Best(candidates) == Some(Rank(c)) && IsBest(candidates, Rank(c))
    ensures if Exists(candidates, ProviderVerified) then
        Wins(candidates, c, ProviderVerified) && Describes(Select(candidates).value, c, VerifiedValid)
      else if Exists(candidates, Published) then
        Wins(candidates, c, Published) && Describes(Select(candidates).value, c, SourceConfirmed)
      else
        Wins(candidates, c, LearnedPattern) && Describes(Select(candidates).value, c, VerifiedPattern)
  {
    EligibleMeans(c);
    forall d | d in candidates && Eligible(d)
      ensures ProviderVerified(d) ==> ProviderVerified(c)
      ensures Published(d) && !ProviderVerified(c) ==> Published(c)
    {
      HigherClassWins(c, d);
    }
    forall d | d in candidates ensures
      && (Eligible(d) <==> ProviderVerified(d) || Published(d) || LearnedPattern(d))
      && (Eligible(d) ==> Rank(d).basis == ClassOf(d))
    {
      EligibleMeans(d);
    }
    if ProviderVerified(c) {
      WinnerOfClass(candidates, c, ProviderVerified);
    } else if Published(c) {
      WinnerOfClass(candidates, c, Published);
    } else {
      WinnerOfClass(candidates, c, LearnedPattern);
    }
  }
}
