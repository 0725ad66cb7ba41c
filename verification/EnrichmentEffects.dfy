/** Which stored addresses a pass looks at, in which order, and what it stores, told from the
    columns of the rows. */
module EnrichmentEffects {
  import opened Options
  import opened Ordering
  import opened OutreachRecipient
  import opened Enrichment

  // ---------------------------------------------------------------- which addresses are retried

  /** Verified; or, unless it is known to be invalid, published by the company or learned from a pattern. */
  ghost predicate GoodEnough(r: Row) {
    if r.result == VALID && r.verified then true
    else if r.result == INVALID then false
    else match r.source case PATTERN_GUESS => false case HUNTER => false case _ => true
  }

  lemma UsableMeans(r: Row)
    ensures IsUsable(r) <==> GoodEnough(r)
  {
  }

  /** More confidence first, at equal confidence the smaller address. */
  ghost predicate NotAhead(a: Guess, b: Guess) {
    b.confidence <= a.confidence && (b.confidence == a.confidence ==> a.email == b.email || TextBefore(a.email, b.email))
  }

  ghost predicate InRetryOrder(gs: seq<Guess>) {
    forall i, j | 0 <= i < j < |gs| :: NotAhead(gs[i], gs[j])
  }

  lemma {:induction false} InsertKeepsRetryOrder(g: Guess, sorted: seq<Guess>)
    requires InRetryOrder(sorted)
    ensures InRetryOrder(InsertGuess(g, sorted))
  {
    var r := InsertGuess(g, sorted);
    if sorted != [] && Better(sorted[0], g) {
      assert InRetryOrder(sorted[1..]);
      InsertKeepsRetryOrder(g, sorted[1..]);
      forall j | 0 < j < |r| ensures NotAhead(r[0], r[j]) {
        assert r[j] in InsertGuess(g, sorted[1..]);
        if r[j] != g {
          var k :| 0 <= k < |sorted[1..]| && sorted[1..][k] == r[j];
          assert NotAhead(sorted[0], sorted[k + 1]);
        }
      }
    } else if sorted != [] {
      TextOrderIsTotal(g.email, sorted[0].email);
      forall j | 0 < j < |r| ensures NotAhead(g, r[j]) {
        if j > 1 {
          assert NotAhead(sorted[0], sorted[j - 1]);
          ChainAhead(g, sorted[0], r[j]);
        }
      }
    }
  }

  lemma ChainAhead(a: Guess, b: Guess, c: Guess)
    requires NotAhead(a, b) && NotAhead(b, c)
    ensures NotAhead(a, c)
  {
    if TextBefore(a.email, b.email) && TextBefore(b.email, c.email) { TextOrderIsTransitive(a.email, b.email, c.email); }
  }

  /** The addresses to retry are the stored ones that are not good enough, best first. */
  lemma {:induction false} SortedInRetryOrder(gs: seq<Guess>)
    ensures InRetryOrder(SortGuesses(gs)) && multiset(SortGuesses(gs)) == multiset(gs)
  {
    if gs != [] {
      SortedInRetryOrder(gs[1..]);
      InsertKeepsRetryOrder(gs[0], SortGuesses(gs[1..]));
      InsertKeepsBag(gs[0], SortGuesses(gs[1..]));
      assert gs == [gs[0]] + gs[1..];
    }
  }

  lemma {:induction false} InsertKeepsBag(g: Guess, sorted: seq<Guess>)
    ensures multiset(InsertGuess(g, sorted)) == multiset(sorted) + multiset{g}
  {
    if sorted != [] && Better(sorted[0], g) {
      InsertKeepsBag(g, sorted[1..]);
      assert sorted == [sorted[0]] + sorted[1..];
    }
  }

  // ---------------------------------------------------------------- what is stored

  /** Three tenths more for a verified address, up to 0.98; nothing for any other verdict; without a
      verdict everything but the address's source and confidence stays. */
  ghost predicate Records(r: Row, g: Guess, verdict: Option<Verification>, before: Option<Row>) {
    && r.email == g.email && r.source == g.source
    && (verdict.Some? ==> r.result == verdict.value && (r.verified <==> verdict.value == VALID))
    && (verdict == Some(VALID) ==> r.confidence <= 0.98 && r.confidence <= g.confidence + 0.3 && r.confidence in {0.98, g.confidence + 0.3})
    && (verdict.Some? && verdict.value != VALID ==> r.confidence == 0.0)
    && (verdict.None? ==> r.confidence == g.confidence)
    && (verdict.None? && before.Some? ==> r.result == before.value.result && r.verified == before.value.verified)
    && (verdict.None? && before.None? ==> r.result == UNKNOWN && !r.verified)
  }

  lemma StoredRecords(g: Guess, verdict: Option<Verification>, before: Option<Row>)
    ensures Records(Stored(g, verdict, before), g, verdict, before)
  {
  }

  /** Each row of an attempted address after a pass that settled it. */
  lemma SettledRecords(rows: seq<Row>, rows': seq<Row>, g: Guess, verdict: Option<Verification>, r: Row)
    requires Settled(rows, rows', g, verdict) && r in rows' && r.email == g.email
    ensures Records(r, g, verdict, None) || exists before :: before in rows && before.email == g.email && Records(r, g, verdict, Some(before))
  {
    if before :| before in rows && before.email == g.email && r == Stored(g, verdict, Some(before)) {
      StoredRecords(g, verdict, Some(before));
    } else {
      StoredRecords(g, verdict, None);
    }
  }

  /** A failed address yields to every address that still has confidence. */
  lemma FailedAddressYields(g: Guess, verdict: Verification, before: Option<Row>, other: Row)
    requires verdict != VALID && other.confidence > 0.0
    ensures Better(ToGuess(other), ToGuess(Stored(g, Some(verdict), before)))
  {
    StoredRecords(g, Some(verdict), before);
  }
}
