/** The bounded e-mail verification batch of one person, and its progress from pass to pass. */
module Enrichment {
  import opened Options
  import opened Ordering
  import opened OutreachRecipient
  import opened Sets

  const BATCH_LIMIT: nat := 10

  /** A stored address. */
  datatype Row = Row(email: string, source: Source, confidence: real, verified: bool, result: Verification)

  /** An address to verify: a stored one to retry, or a generated one. */
  datatype Guess = Guess(email: string, source: Source, confidence: real)

  /** The key under which two spellings are one address: trimmed and in lower case in the source,
      any function here. */
  type Norm = string -> string

  /** isEligibleOutreachEmail */
  predicate IsUsable(r: Row) {
    || (r.verified && r.result == VALID)
    || (r.result != INVALID && r.source in {TEAM_PAGE, GITHUB_COMMIT, SEC_FILING, PRESS_RELEASE, VERIFIED_PATTERN})
  }

  function ToGuess(r: Row): Guess { Guess(r.email, r.source, r.confidence) }

  // ---------------------------------------------------------------- ranking

  predicate Better(a: Guess, b: Guess) {
    a.confidence > b.confidence || (a.confidence == b.confidence && TextBefore(a.email, b.email))
  }

  function InsertGuess(g: Guess, sorted: seq<Guess>): (r: seq<Guess>)
    ensures |r| == |sorted| + 1
    ensures forall x :: x in r <==> x == g || x in sorted
  {
    if sorted == [] || !Better(sorted[0], g) then [g] + sorted else [sorted[0]] + InsertGuess(g, sorted[1..])
  }

  function SortGuesses(gs: seq<Guess>): (r: seq<Guess>)
    ensures |r| == |gs|
    ensures forall x :: x in r <==> x in gs
  {
    if gs == [] then [] else InsertGuess(gs[0], SortGuesses(gs[1..]))
  }

  lemma BetterIsAnOrder(a: Guess, b: Guess, c: Guess)
    ensures !Better(a, a)
    ensures Better(a, b) ==> !Better(b, a)
    ensures !Better(b, a) && !Better(c, b) ==> !Better(c, a)
  {
    TextOrderIsTotal(a.email, a.email);
    TextOrderIsTotal(a.email, b.email);
    TextOrderIsTotal(b.email, c.email);
    if TextBefore(c.email, a.email) && TextBefore(a.email, b.email) { TextOrderIsTransitive(c.email, a.email, b.email); }
  }

  /** The first of the sorted guesses is outranked by none. */
  lemma {:induction false} SortedHeadIsBest(gs: seq<Guess>)
    requires gs != []
    ensures forall g | g in gs :: !Better(g, SortGuesses(gs)[0])
  {
    BetterIsAnOrder(gs[0], gs[0], gs[0]);
    if |gs| > 1 {
      SortedHeadIsBest(gs[1..]);
      var head := SortGuesses(gs[1..])[0];
      assert forall g | g in gs :: g == gs[0] || g in gs[1..];
      if Better(head, gs[0]) {
        BetterIsAnOrder(head, gs[0], gs[0]);
      } else {
        forall g | g in gs[1..] ensures !Better(g, gs[0]) { BetterIsAnOrder(gs[0], head, g); }
      }
    }
  }

  // ---------------------------------------------------------------- the inputs of a pass

  function ToRetry(rows: seq<Row>): (r: seq<Guess>)
    ensures forall g :: g in r <==> exists row :: row in rows && !IsUsable(row) && g == ToGuess(row)
  {
    if rows == [] then []
    else
      assert forall row :: row in rows <==> row == rows[0] || row in rows[1..];
      (if IsUsable(rows[0]) then [] else [ToGuess(rows[0])]) + ToRetry(rows[1..])
  }

  ghost function Keys(norm: Norm, gs: seq<Guess>): set<string> {
    if gs == [] then {} else Keys(norm, gs[..|gs| - 1]) + {norm(gs[|gs| - 1].email)}
  }

  lemma {:induction false} KeysOfAll(norm: Norm, gs: seq<Guess>)
    ensures forall i | 0 <= i < |gs| :: norm(gs[i].email) in Keys(norm, gs)
    ensures forall k | k in Keys(norm, gs) :: exists i :: 0 <= i < |gs| && norm(gs[i].email) == k
  {
    if gs != [] {
      var n := |gs| - 1;
      KeysOfAll(norm, gs[..n]);
      assert forall i | 0 <= i < n :: gs[..n][i] == gs[i];
      forall k | k in Keys(norm, gs) ensures exists i :: 0 <= i < |gs| && norm(gs[i].email) == k {
        if k in Keys(norm, gs[..n]) {
          var i :| 0 <= i < n && norm(gs[..n][i].email) == k;
          assert norm(gs[i].email) == k;
        } else {
          assert norm(gs[n].email) == k;
        }
      }
    }
  }

  ghost function RowKeys(norm: Norm, rows: seq<Row>): set<string> { set r | r in rows :: norm(r.email) }

  /** Generated addresses no row of this person has yet. */
  ghost function Untried(norm: Norm, rows: seq<Row>, generated: seq<Guess>): set<string> {
    Keys(norm, generated) - RowKeys(norm, rows)
  }

  ghost predicate NoneUsable(rows: seq<Row>) { forall r | r in rows :: !IsUsable(r) }

  // ---------------------------------------------------------------- what a batch must be

  ghost predicate DistinctKeys(norm: Norm, batch: seq<Guess>) {
    forall i, j | 0 <= i < j < |batch| :: norm(batch[i].email) != norm(batch[j].email)
  }

  function Min(a: nat, b: nat): nat { if a < b then a else b }

  ghost predicate IsFirstNew(norm: Norm, retry: seq<Guess>, generated: seq<Guess>, i: nat) {
    && i < |generated| && norm(generated[i].email) !in Keys(norm, retry)
    && forall j | 0 <= j < i :: norm(generated[j].email) in Keys(norm, retry)
  }

  /** Distinct addresses, as many as the limit allows, drawn from both sources; the best retry and
      the first new generated address are among them. */
  ghost predicate IsFairBatch(norm: Norm, batch: seq<Guess>, retry: seq<Guess>, generated: seq<Guess>) {
    && DistinctKeys(norm, batch)
    && (forall g | g in batch :: g in retry || g in generated)
    && Keys(norm, batch) <= Keys(norm, retry) + Keys(norm, generated)
    && |batch| == Min(BATCH_LIMIT, |Keys(norm, retry) + Keys(norm, generated)|)
    && (forall g | g in retry && (forall h | h in retry :: !Better(h, g)) :: norm(g.email) in Keys(norm, batch))
    && (forall i: nat | IsFirstNew(norm, retry, generated, i) :: norm(generated[i].email) in Keys(norm, batch))
  }

  // ---------------------------------------------------------------- choosing the batch

  /** One candidate per address, in the order the addresses were first seen. */
  datatype Candidates = Candidates(byAddress: map<string, Guess>, order: seq<string>)

  ghost predicate Merged(norm: Norm, c: Candidates, keys: set<string>) {
    && c.byAddress.Keys == keys
    && (forall k :: k in c.order <==> k in c.byAddress)
    && (forall k | k in c.byAddress :: norm(c.byAddress[k].email) == k)
  }

  /** Map.set: a known address keeps its place. */
  function Put(norm: Norm, c: Candidates, g: Guess): Candidates {
    var key := norm(g.email);
    Candidates(c.byAddress[key := g], if key in c.byAddress then c.order else c.order + [key])
  }

  lemma PutMerges(norm: Norm, c: Candidates, keys: set<string>, g: Guess)
    requires Merged(norm, c, keys)
    ensures Merged(norm, Put(norm, c, g), keys + {norm(g.email)})
    ensures norm(g.email) in c.byAddress ==> Merged(norm, c, keys + {norm(g.email)})
  {
    if norm(g.email) in c.byAddress { assert keys + {norm(g.email)} == keys; }
  }

  ghost predicate FromInputs(c: Candidates, retry: seq<Guess>, generated: seq<Guess>) {
    forall k | k in c.byAddress :: c.byAddress[k] in retry || c.byAddress[k] in generated
  }

  /** A stored address keeps its stored candidate unless a learned one took it over; every learned
      one did. */
  ghost predicate LearnedWins(norm: Norm, c: Candidates, retry: seq<Guess>, learned: seq<Guess>) {
    && (forall k | k in c.byAddress && k in Keys(norm, retry) ::
          c.byAddress[k] in retry || c.byAddress[k].source == VERIFIED_PATTERN)
    && (forall i | 0 <= i < |learned| && learned[i].source == VERIFIED_PATTERN ::
          norm(learned[i].email) in c.byAddress && c.byAddress[norm(learned[i].email)].source == VERIFIED_PATTERN)
  }

  /** The candidates after these stored and these generated addresses. */
  ghost predicate MergedFrom(norm: Norm, c: Candidates, retry: seq<Guess>, generated: seq<Guess>) {
    && Merged(norm, c, Keys(norm, retry) + Keys(norm, generated))
    && FromInputs(c, retry, generated)
    && LearnedWins(norm, c, retry, generated)
  }

  lemma KeysExtend(norm: Norm, gs: seq<Guess>, g: Guess)
    ensures Keys(norm, gs + [g]) == Keys(norm, gs) + {norm(g.email)}
  {
    assert (gs + [g])[..|gs|] == gs;
  }

  lemma StoredKeeps(norm: Norm, c: Candidates, retry: seq<Guess>, g: Guess)
    requires MergedFrom(norm, c, retry, [])
    ensures MergedFrom(norm, Put(norm, c, g), retry + [g], [])
  {
    KeysExtend(norm, retry, g);
    assert Keys(norm, retry) + {} == Keys(norm, retry);
    PutMerges(norm, c, Keys(norm, retry), g);
    assert Keys(norm, retry + [g]) + {} == Keys(norm, retry + [g]);
  }

  function MergeOne(norm: Norm, c: Candidates, g: Guess): Candidates {
    if norm(g.email) !in c.byAddress || g.source == VERIFIED_PATTERN then Put(norm, c, g) else c
  }

  lemma UnionGroups(a: set<string>, b: set<string>, c: set<string>)
    ensures a + b + c == a + (b + c)
  {
  }

  lemma GeneratedKeepsKeys(norm: Norm, c: Candidates, retry: seq<Guess>, generated: seq<Guess>, g: Guess)
    requires Merged(norm, c, Keys(norm, retry) + Keys(norm, generated))
    ensures Merged(norm, MergeOne(norm, c, g), Keys(norm, retry) + Keys(norm, generated + [g]))
  {
    KeysExtend(norm, generated, g);
    UnionGroups(Keys(norm, retry), Keys(norm, generated), {norm(g.email)});
    PutMerges(norm, c, Keys(norm, retry) + Keys(norm, generated), g);
  }

  lemma GeneratedKeepsSources(norm: Norm, c: Candidates, retry: seq<Guess>, generated: seq<Guess>, g: Guess)
    requires FromInputs(c, retry, generated) && LearnedWins(norm, c, retry, generated)
    requires forall k | k in Keys(norm, retry) :: k in c.byAddress
    ensures FromInputs(MergeOne(norm, c, g), retry, generated + [g])
    ensures LearnedWins(norm, MergeOne(norm, c, g), retry, generated + [g])
  {
  }

  lemma GeneratedKeeps(norm: Norm, c: Candidates, retry: seq<Guess>, generated: seq<Guess>, g: Guess)
    requires MergedFrom(norm, c, retry, generated)
    ensures MergedFrom(norm, MergeOne(norm, c, g), retry, generated + [g])
  {
    GeneratedKeepsKeys(norm, c, retry, generated, g);
    GeneratedKeepsSources(norm, c, retry, generated, g);
  }

  /** Stored addresses first. */
  method MergeStored(norm: Norm, retry: seq<Guess>) returns (c: Candidates)
    ensures MergedFrom(norm, c, retry, [])
  {
    c := Candidates(map[], []);
    ghost var seen := retry[..0];
    for i := 0 to |retry|
      invariant seen == retry[..i] && MergedFrom(norm, c, seen, [])
    {
      StoredKeeps(norm, c, seen, retry[i]);
      seen := seen + [retry[i]];
      c := Put(norm, c, retry[i]);
    }
    assert seen == retry;
  }

  /** A generated address is added when it is new, or takes its place over when it is learned. */
  method MergeCandidates(norm: Norm, retry: seq<Guess>, generated: seq<Guess>) returns (c: Candidates)
    ensures MergedFrom(norm, c, retry, generated)
  {
    c := MergeStored(norm, retry);
    ghost var seen := generated[..0];
    for i := 0 to |generated|
      invariant seen == generated[..i] && MergedFrom(norm, c, retry, seen)
    {
      GeneratedKeeps(norm, c, retry, seen, generated[i]);
      seen := seen + [generated[i]];
      c := MergeOne(norm, c, generated[i]);
    }
    assert seen == generated;
  }

  lemma KeysSnoc(norm: Norm, gs: seq<Guess>, i: nat)
    requires i < |gs|
    ensures Keys(norm, gs[..i + 1]) == Keys(norm, gs[..i]) + {norm(gs[i].email)}
  {
    assert gs[..i + 1][..i] == gs[..i];
  }

  /** The batch so far and the addresses it holds. */
  datatype Batch = Batch(items: seq<Guess>, selected: set<string>)

  ghost predicate ValidBatch(norm: Norm, b: Batch) {
    && b.selected == Keys(norm, b.items) && |b.selected| == |b.items| <= BATCH_LIMIT
    && DistinctKeys(norm, b.items)
  }

  lemma BatchGrows(norm: Norm, b: Batch, g: Guess)
    requires ValidBatch(norm, b) && |b.items| < BATCH_LIMIT && norm(g.email) !in b.selected
    ensures ValidBatch(norm, Batch(b.items + [g], b.selected + {norm(g.email)}))
  {
    var items := b.items + [g];
    assert items[..|b.items|] == b.items;
    assert Keys(norm, items) == b.selected + {norm(g.email)};
    KeysOfAll(norm, b.items);
    forall i, j | 0 <= i < j < |items| ensures norm(items[i].email) != norm(items[j].email) {
      assert items[i] == b.items[i];
    }
  }

  method SelectForVerification(norm: Norm, b: Batch, candidate: Option<Guess>) returns (r: Batch)
    requires ValidBatch(norm, b)
    ensures ValidBatch(norm, r) && b.items <= r.items
    ensures forall g | g in r.items :: g in b.items || candidate == Some(g)
    ensures candidate.Some? && |b.items| < BATCH_LIMIT ==> r.selected == b.selected + {norm(candidate.value.email)}
    ensures candidate.None? || |b.items| == BATCH_LIMIT ==> r == b
  {
    if candidate.None? || |b.items| >= BATCH_LIMIT { return b; }
    var key := norm(candidate.value.email);
    if key in b.selected {
      assert b.selected == b.selected + {key};
      return b;
    }
    BatchGrows(norm, b, candidate.value);
    return Batch(b.items + [candidate.value], b.selected + {key});
  }

  /** Every guess is the candidate its address stands for. */
  ghost predicate Drawn(gs: seq<Guess>, c: Candidates) {
    forall g | g in gs :: exists k :: k in c.byAddress && c.byAddress[k] == g
  }

  lemma DrawnGrows(before: seq<Guess>, after: seq<Guess>, candidate: Option<Guess>, c: Candidates)
    requires Drawn(before, c) && (candidate.Some? ==> Drawn([candidate.value], c))
    requires forall g | g in after :: g in before || candidate == Some(g)
    ensures Drawn(after, c)
  {
    forall g | g in after ensures exists k :: k in c.byAddress && c.byAddress[k] == g {
      if g !in before { assert g in [candidate.value]; }
    }
  }

  lemma DrawnIsFromInputs(gs: seq<Guess>, c: Candidates, retry: seq<Guess>, generated: seq<Guess>)
    requires Drawn(gs, c) && FromInputs(c, retry, generated)
    ensures forall g | g in gs :: g in retry || g in generated
  {
  }

  /** The first new generated address; without one, the best of the generated. */
  method SecondSlot(norm: Norm, c: Candidates, generated: seq<Guess>, n: nat) returns (o: Option<Guess>)
    requires Merged(norm, c, c.byAddress.Keys) && Keys(norm, generated) <= c.byAddress.Keys && n <= |generated|
    ensures o.Some? ==> norm(o.value.email) in c.byAddress
    ensures n < |generated| ==> o.Some? && norm(o.value.email) == norm(generated[n].email)
    ensures o.Some? ==> Drawn([o.value], c)
  {
    KeysOfAll(norm, generated);
    assert forall i | 0 <= i < |generated| :: norm(generated[i].email) in c.byAddress.Keys;
    if n < |generated| { return Some(c.byAddress[norm(generated[n].email)]); }
    var ranked := SortGuesses(seq(|generated|, i requires 0 <= i < |generated| && norm(generated[i].email) in c.byAddress =>
      c.byAddress[norm(generated[i].email)]));
    if |ranked| == 0 { return None; }
    assert ranked[0] in ranked;
    return Some(ranked[0]);
  }

  lemma FullOrComplete(norm: Norm, b: Batch, all: set<string>, order: seq<string>)
    requires ValidBatch(norm, b) && b.selected <= all
    requires forall k :: k in order <==> k in all
    requires forall j | 0 <= j < |order| :: order[j] in b.selected || |b.items| == BATCH_LIMIT
    ensures |b.items| == Min(BATCH_LIMIT, |all|)
  {
    if |b.items| == BATCH_LIMIT {
      assert all == b.selected + (all - b.selected);
    } else {
      assert all == b.selected by { forall k | k in all ensures k in b.selected { assert k in order; } }
    }
  }

  lemma BestSharesKey(g: Guess, h: Guess)
    requires !Better(g, h) && !Better(h, g)
    ensures g.email == h.email
  {
    TextOrderIsTotal(g.email, h.email);
  }

  lemma StoredIffKey(norm: Norm, retry: seq<Guess>, key: string)
    ensures key in Keys(norm, retry) <==> exists g :: g in retry && norm(g.email) == key
  {
    KeysOfAll(norm, retry);
    if key in Keys(norm, retry) {
      var i :| 0 <= i < |retry| && norm(retry[i].email) == key;
      assert retry[i] in retry;
    }
  }

  /** The scan for the first generated address that is not stored. */
  method FirstNew(norm: Norm, retry: seq<Guess>, generated: seq<Guess>) returns (n: nat)
    ensures n <= |generated|
    ensures forall i: nat | IsFirstNew(norm, retry, generated, i) :: i == n
  {
    n := 0;
    while n < |generated| && exists g | g in retry :: norm(g.email) == norm(generated[n].email)
      invariant n <= |generated|
      invariant forall j | 0 <= j < n :: norm(generated[j].email) in Keys(norm, retry)
    {
      StoredIffKey(norm, retry, norm(generated[n].email));
      n := n + 1;
    }
    if n < |generated| { StoredIffKey(norm, retry, norm(generated[n].email)); }
  }

  /** The reserved slot of the best stored address. */
  method FirstSlot(norm: Norm, c: Candidates, retry: seq<Guess>) returns (b: Batch)
    requires Merged(norm, c, c.byAddress.Keys) && Keys(norm, retry) <= c.byAddress.Keys
    ensures ValidBatch(norm, b) && |b.items| <= 1 && b.selected <= c.byAddress.Keys && Drawn(b.items, c)
    ensures retry != [] ==> norm(retry[0].email) in b.selected
  {
    b := Batch([], {});
    if |retry| > 0 {
      KeysOfAll(norm, retry);
      assert norm(retry[0].email) in c.byAddress.Keys;
      b := SelectForVerification(norm, b, Some(c.byAddress[norm(retry[0].email)]));
      assert b.selected == {norm(retry[0].email)};
    }
  }

  /** The two reserved slots: the best stored address and the first new generated one. */
  method ReserveSlots(norm: Norm, c: Candidates, retry: seq<Guess>, generated: seq<Guess>) returns (b: Batch, n: nat)
    requires Merged(norm, c, Keys(norm, retry) + Keys(norm, generated))
    ensures ValidBatch(norm, b) && b.selected <= c.byAddress.Keys && Drawn(b.items, c)
    ensures retry != [] ==> norm(retry[0].email) in b.selected
    ensures n <= |generated| && forall i: nat | IsFirstNew(norm, retry, generated, i) :: i == n
    ensures n < |generated| ==> norm(generated[n].email) in b.selected
  {
    var first := FirstSlot(norm, c, retry);
    n := FirstNew(norm, retry, generated);
    b := AddSecond(norm, c, generated, n, first);
  }

  method AddSecond(norm: Norm, c: Candidates, generated: seq<Guess>, n: nat, first: Batch) returns (b: Batch)
    requires Merged(norm, c, c.byAddress.Keys) && Keys(norm, generated) <= c.byAddress.Keys && n <= |generated|
    requires ValidBatch(norm, first) && |first.items| <= 1 && first.selected <= c.byAddress.Keys && Drawn(first.items, c)
    ensures ValidBatch(norm, b) && first.selected <= b.selected <= c.byAddress.Keys && Drawn(b.items, c)
    ensures n < |generated| ==> norm(generated[n].email) in b.selected
  {
    var second := SecondSlot(norm, c, generated, n);
    b := SelectForVerification(norm, first, second);
    DrawnGrows(first.items, b.items, second, c);
  }

  /** One candidate of the order offered to the batch. */
  lemma FillStep(norm: Norm, c: Candidates, b: Batch, next: Batch, i: nat)
    requires Merged(norm, c, c.byAddress.Keys) && b.selected <= c.byAddress.Keys && Drawn(b.items, c)
    requires i < |c.order| && c.order[i] in c.byAddress && |b.items| <= BATCH_LIMIT
    requires forall j | 0 <= j < i :: c.order[j] in b.selected || |b.items| == BATCH_LIMIT
    requires forall g | g in next.items :: g in b.items || g == c.byAddress[c.order[i]]
    requires if |b.items| < BATCH_LIMIT then next.selected == b.selected + {norm(c.byAddress[c.order[i]].email)} else next == b
    ensures b.selected <= next.selected <= c.byAddress.Keys && Drawn(next.items, c)
    ensures forall j | 0 <= j <= i :: c.order[j] in next.selected || |next.items| == BATCH_LIMIT
  {
  }

  /** Whatever room is left goes to the candidates in their order. */
  method FillBatch(norm: Norm, c: Candidates, reserved: Batch) returns (b: Batch)
    requires Merged(norm, c, c.byAddress.Keys) && ValidBatch(norm, reserved) && reserved.selected <= c.byAddress.Keys
    requires Drawn(reserved.items, c)
    ensures ValidBatch(norm, b) && reserved.selected <= b.selected <= c.byAddress.Keys && Drawn(b.items, c)
    ensures |b.items| == Min(BATCH_LIMIT, |c.byAddress.Keys|)
  {
    b := reserved;
    for i := 0 to |c.order|
      invariant ValidBatch(norm, b) && reserved.selected <= b.selected <= c.byAddress.Keys && Drawn(b.items, c)
      invariant forall j | 0 <= j < i :: c.order[j] in b.selected || |b.items| == BATCH_LIMIT
    {
      assert c.order[i] in c.order;
      var next := SelectForVerification(norm, b, Some(c.byAddress[c.order[i]]));
      FillStep(norm, c, b, next, i);
      b := next;
    }
    FullOrComplete(norm, b, c.byAddress.Keys, c.order);
  }

  /** The batch that goes to the verifier. */
  method SelectBatch(norm: Norm, retry: seq<Guess>, generated: seq<Guess>) returns (batch: seq<Guess>)
    requires retry != [] ==> forall g | g in retry :: !Better(g, retry[0])
    ensures IsFairBatch(norm, batch, retry, generated) && |batch| <= 10
  {
    var c := MergeCandidates(norm, retry, generated);
    var b, n := ReserveSlots(norm, c, retry, generated);
    b := FillBatch(norm, c, b);
    DrawnIsFromInputs(b.items, c, retry, generated);
    ReservedMakesFair(norm, b, retry, generated, n);
    batch := b.items;
  }

  lemma ReservedMakesFair(norm: Norm, b: Batch, retry: seq<Guess>, generated: seq<Guess>, n: nat)
    requires retry != [] ==> forall g | g in retry :: !Better(g, retry[0])
    requires ValidBatch(norm, b) && b.selected <= Keys(norm, retry) + Keys(norm, generated)
    requires forall g | g in b.items :: g in retry || g in generated
    requires |b.items| == Min(BATCH_LIMIT, |Keys(norm, retry) + Keys(norm, generated)|)
    requires retry != [] ==> norm(retry[0].email) in b.selected
    requires n <= |generated| && forall i: nat | IsFirstNew(norm, retry, generated, i) :: i == n
    requires n < |generated| ==> norm(generated[n].email) in b.selected
    ensures IsFairBatch(norm, b.items, retry, generated)
  {
    BestIsReserved(norm, b.selected, retry);
  }

  lemma BestIsReserved(norm: Norm, selected: set<string>, retry: seq<Guess>)
    requires retry != [] ==> (forall g | g in retry :: !Better(g, retry[0])) && norm(retry[0].email) in selected
    ensures forall g | g in retry && (forall h | h in retry :: !Better(h, g)) :: norm(g.email) in selected
  {
    forall g | g in retry && (forall h | h in retry :: !Better(h, g)) ensures norm(g.email) in selected {
      assert retry[0] in retry;
      BestSharesKey(g, retry[0]);
    }
  }

  // ---------------------------------------------------------------- what a pass stores

  /** An attempted address that did not verify drops to confidence 0, behind every other retry. */
  function Adjusted(g: Guess, verdict: Option<Verification>): real {
    match verdict
    case None => g.confidence
    case Some(VALID) => if g.confidence + 0.3 < 0.98 then g.confidence + 0.3 else 0.98
    case Some(_) => 0.0
  }

  function Stored(g: Guess, verdict: Option<Verification>, before: Option<Row>): Row {
    var result := if verdict.Some? then verdict.value else if before.Some? then before.value.result else UNKNOWN;
    var verified := if verdict.Some? then verdict.value == VALID else before.Some? && before.value.verified;
    Row(g.email, g.source, Adjusted(g, verdict), verified, result)
  }

  ghost predicate HasEmail(rows: seq<Row>, email: string) { exists r :: r in rows && r.email == email }

  /** What became of the row of an attempted address. */
  ghost predicate Settled(rows: seq<Row>, rows': seq<Row>, g: Guess, verdict: Option<Verification>) {
    && HasEmail(rows', g.email)
    && (forall r | r in rows' && r.email == g.email ::
          || r == Stored(g, verdict, None)
          || exists before :: before in rows && before.email == g.email && r == Stored(g, verdict, Some(before)))
  }

  /** Settled, and every row of another address as it was. */
  ghost predicate Upserted(rows: seq<Row>, rows': seq<Row>, g: Guess, verdict: Option<Verification>) {
    && (forall r: Row :: r.email != g.email ==> (r in rows <==> r in rows'))
    && Settled(rows, rows', g, verdict)
  }

  method Upsert(rows: seq<Row>, g: Guess, verdict: Option<Verification>) returns (r: seq<Row>)
    ensures Upserted(rows, r, g, verdict)
    ensures !HasEmail(rows, g.email) ==> r == rows + [Stored(g, verdict, None)]
  {
    var found := false;
    r := [];
    for i := 0 to |rows|
      invariant |r| == i
      invariant forall j | 0 <= j < i :: r[j] == if rows[j].email == g.email then Stored(g, verdict, Some(rows[j])) else rows[j]
      invariant found <==> exists j :: 0 <= j < i && rows[j].email == g.email
    {
      if rows[i].email == g.email {
        found := true;
        r := r + [Stored(g, verdict, Some(rows[i]))];
      } else {
        r := r + [rows[i]];
      }
    }
    ghost var updated := r;
    if !found {
      assert r == rows;
      r := r + [Stored(g, verdict, None)];
    }
    UpsertedRows(rows, updated, r, found, g, verdict);
  }

  lemma UpsertedRows(rows: seq<Row>, updated: seq<Row>, r: seq<Row>, found: bool, g: Guess, verdict: Option<Verification>)
    requires |updated| == |rows|
    requires forall j | 0 <= j < |rows| ::
      updated[j] == if rows[j].email == g.email then Stored(g, verdict, Some(rows[j])) else rows[j]
    requires found <==> exists j :: 0 <= j < |rows| && rows[j].email == g.email
    requires r == if found then updated else updated + [Stored(g, verdict, None)]
    ensures Upserted(rows, r, g, verdict)
  {
    forall x: Row | x.email != g.email ensures x in rows <==> x in r {
      if x in rows { var j :| 0 <= j < |rows| && rows[j] == x; assert updated[j] == x && r[j] == x; }
      if x in r { var j :| 0 <= j < |r| && r[j] == x; assert j < |rows| && rows[j] == x; }
    }
    if found {
      var j :| 0 <= j < |rows| && rows[j].email == g.email;
      assert r[j].email == g.email && r[j] in r;
    } else {
      assert r[|rows|] in r && r[|rows|].email == g.email;
    }
    forall x | x in r && x.email == g.email
      ensures x == Stored(g, verdict, None)
           || exists before :: before in rows && before.email == g.email && x == Stored(g, verdict, Some(before))
    {
      var j :| 0 <= j < |r| && r[j] == x;
      if j < |rows| { assert rows[j] in rows; }
    }
  }

  lemma UpsertAddsKey(norm: Norm, rows: seq<Row>, rows': seq<Row>, g: Guess, verdict: Option<Verification>)
    requires Upserted(rows, rows', g, verdict)
    ensures RowKeys(norm, rows') == RowKeys(norm, rows) + {norm(g.email)}
  {
    forall k ensures k in RowKeys(norm, rows') <==> k in RowKeys(norm, rows) + {norm(g.email)} {
      if k in RowKeys(norm, rows) {
        var r :| r in rows && norm(r.email) == k;
        if r.email != g.email { assert r in rows'; }
      }
      if k in RowKeys(norm, rows') {
        var r :| r in rows' && norm(r.email) == k;
        if r.email != g.email { assert r in rows; }
      }
    }
    var x :| x in rows' && x.email == g.email;
    assert norm(x.email) in RowKeys(norm, rows');
  }

  predicate Attempted(batch: seq<Guess>, email: string) {
    exists i :: 0 <= i < |batch| && batch[i].email == email
  }

  ghost predicate Untouched(rows: seq<Row>, rows': seq<Row>, batch: seq<Guess>) {
    forall r: Row :: !Attempted(batch, r.email) ==> (r in rows <==> r in rows')
  }

  lemma UpsertExtends(rows: seq<Row>, r: seq<Row>, next: seq<Row>, batch: seq<Guess>, i: nat,
                      verdicts: map<string, Verification>)
    requires i < |batch| && forall j | 0 <= j < i :: batch[j].email != batch[i].email
    requires Untouched(rows, r, batch[..i])
    requires forall j | 0 <= j < i :: Settled(rows, r, batch[j], Lookup(verdicts, batch[j].email))
    requires Upserted(r, next, batch[i], Lookup(verdicts, batch[i].email))
    ensures Untouched(rows, next, batch[..i + 1])
    ensures forall j | 0 <= j <= i :: Settled(rows, next, batch[j], Lookup(verdicts, batch[j].email))
  {
    var email := batch[i].email;
    assert forall j | 0 <= j < i :: batch[..i][j] == batch[j] && batch[..i + 1][j] == batch[j];
    assert batch[..i + 1][i] == batch[i];
    assert !Attempted(batch[..i], email);
    forall x: Row | !Attempted(batch[..i + 1], x.email) ensures x in rows <==> x in next {
      assert x.email != email;
      assert !Attempted(batch[..i], x.email);
    }
    forall j | 0 <= j <= i ensures Settled(rows, next, batch[j], Lookup(verdicts, batch[j].email)) {
      if j < i {
        assert Settled(rows, r, batch[j], Lookup(verdicts, batch[j].email));
        assert HasEmail(r, batch[j].email);
        var x :| x in r && x.email == batch[j].email;
        assert x in next;
      }
    }
  }

  /** Each attempted address is settled by its own verdict; nothing else is touched. */
  method Persist(norm: Norm, rows: seq<Row>, batch: seq<Guess>, verdicts: map<string, Verification>) returns (r: seq<Row>)
    requires DistinctKeys(norm, batch)
    ensures RowKeys(norm, r) == RowKeys(norm, rows) + Keys(norm, batch)
    ensures Untouched(rows, r, batch)
    ensures forall j | 0 <= j < |batch| :: Settled(rows, r, batch[j], Lookup(verdicts, batch[j].email))
  {
    r := rows;
    for i := 0 to |batch|
      invariant RowKeys(norm, r) == RowKeys(norm, rows) + Keys(norm, batch[..i])
      invariant Untouched(rows, r, batch[..i])
      invariant forall j | 0 <= j < i :: Settled(rows, r, batch[j], Lookup(verdicts, batch[j].email))
    {
      KeysSnoc(norm, batch, i);
      var verdict := Lookup(verdicts, batch[i].email);
      var next := Upsert(r, batch[i], verdict);
      UpsertAddsKey(norm, r, next, batch[i], verdict);
      UpsertExtends(rows, r, next, batch, i, verdicts);
      r := next;
    }
    assert batch[..|batch|] == batch;
  }

  // ---------------------------------------------------------------- passes

  /** What one completed pass does to a person's rows, whatever the verifier answers. */
  ghost predicate Pass(norm: Norm, generated: seq<Guess>, rows: seq<Row>, rows': seq<Row>) {
    if NoneUsable(rows) then
      exists batch :: IsFairBatch(norm, batch, SortGuesses(ToRetry(rows)), generated)
                   && RowKeys(norm, rows') == RowKeys(norm, rows) + Keys(norm, batch)
    else rows' == rows
  }

  method EnrichPerson(norm: Norm, rows: seq<Row>, generated: seq<Guess>, verdicts: map<string, Verification>)
    returns (r: seq<Row>, batch: seq<Guess>)
    ensures Pass(norm, generated, rows, r)
    ensures NoneUsable(rows) ==> IsFairBatch(norm, batch, SortGuesses(ToRetry(rows)), generated)
    ensures !NoneUsable(rows) ==> batch == []
    ensures Untouched(rows, r, batch)
    ensures forall j | 0 <= j < |batch| :: Settled(rows, r, batch[j], Lookup(verdicts, batch[j].email))
  {
    if exists row | row in rows :: IsUsable(row) { return rows, []; }
    var retry := SortGuesses(ToRetry(rows));
    if ToRetry(rows) != [] { SortedHeadIsBest(ToRetry(rows)); }
    batch := SelectBatch(norm, retry, generated);
    r := Persist(norm, rows, batch, verdicts);
  }

  lemma RetryKeys(norm: Norm, rows: seq<Row>)
    requires NoneUsable(rows)
    ensures Keys(norm, SortGuesses(ToRetry(rows))) == RowKeys(norm, rows)
  {
    var retry := SortGuesses(ToRetry(rows));
    KeysOfAll(norm, retry);
    forall k ensures k in Keys(norm, retry) <==> k in RowKeys(norm, rows) {
      if k in Keys(norm, retry) {
        var i :| 0 <= i < |retry| && norm(retry[i].email) == k;
        assert retry[i] in ToRetry(rows);
        var row :| row in rows && retry[i] == ToGuess(row);
      }
      if k in RowKeys(norm, rows) {
        var row :| row in rows && norm(row.email) == k;
        assert ToGuess(row) in ToRetry(rows);
        var i :| 0 <= i < |retry| && retry[i] == ToGuess(row);
      }
    }
  }

  ghost function FirstUntried(norm: Norm, retry: seq<Guess>, generated: seq<Guess>, j: nat): (i: nat)
    requires j < |generated| && norm(generated[j].email) !in Keys(norm, retry)
    ensures i <= j && IsFirstNew(norm, retry, generated, i)
    decreases j
  {
    if m: nat :| m < j && norm(generated[m].email) !in Keys(norm, retry) then FirstUntried(norm, retry, generated, m)
    else j
  }

  /** While a generated address is not stored, a fair batch holds one of those. */
  lemma BatchMakesProgress(norm: Norm, retry: seq<Guess>, generated: seq<Guess>, batch: seq<Guess>)
    requires IsFairBatch(norm, batch, retry, generated)
    requires Keys(norm, generated) - Keys(norm, retry) != {}
    ensures Keys(norm, generated) - (Keys(norm, retry) + Keys(norm, batch)) < Keys(norm, generated) - Keys(norm, retry)
  {
    KeysOfAll(norm, generated);
    var k :| k in Keys(norm, generated) - Keys(norm, retry);
    var j :| 0 <= j < |generated| && norm(generated[j].email) == k;
    var i := FirstUntried(norm, retry, generated, j);
    assert norm(generated[i].email) in (Keys(norm, generated) - Keys(norm, retry)) * Keys(norm, batch);
  }

  /** A pass never makes a tried address untried; while an address is untried and none is usable,
      it tries at least one. */
  lemma PassMakesProgress(norm: Norm, generated: seq<Guess>, rows: seq<Row>, rows': seq<Row>)
    requires Pass(norm, generated, rows, rows')
    ensures Untried(norm, rows', generated) <= Untried(norm, rows, generated)
    ensures NoneUsable(rows) ==>
      if Untried(norm, rows, generated) == {} then Untried(norm, rows', generated) == {}
      else |Untried(norm, rows', generated)| < |Untried(norm, rows, generated)|
  {
    if NoneUsable(rows) {
      var retry := SortGuesses(ToRetry(rows));
      var batch :| IsFairBatch(norm, batch, retry, generated)
                && RowKeys(norm, rows') == RowKeys(norm, rows) + Keys(norm, batch);
      if Untried(norm, rows, generated) != {} {
        RetryKeys(norm, rows);
        BatchMakesProgress(norm, retry, generated, batch);
        SmallerSet(Untried(norm, rows', generated), Untried(norm, rows, generated));
      }
    }
  }

  /** Consecutive passes over one person. */
  ghost predicate Passes(norm: Norm, generated: seq<Guess>, history: seq<seq<Row>>) {
    forall i | 0 <= i < |history| - 1 :: Pass(norm, generated, history[i], history[i + 1])
  }

  lemma LaterPasses(norm: Norm, generated: seq<Guess>, history: seq<seq<Row>>)
    requires Passes(norm, generated, history) && |history| > 1
    ensures Passes(norm, generated, history[1..]) && Pass(norm, generated, history[0], history[1])
  {
    var rest := history[1..];
    forall i | 0 <= i < |rest| - 1 ensures Pass(norm, generated, rest[i], rest[i + 1]) {
      assert Pass(norm, generated, history[i + 1], history[i + 2]);
    }
  }

  ghost predicate BecameUsable(history: seq<seq<Row>>) {
    exists i :: 0 <= i < |history| && !NoneUsable(history[i])
  }

  /** No address starves: after as many passes as there were untried addresses, a usable one has
      turned up or every generated address has been tried. */
  lemma {:induction false} NoAddressStarves(norm: Norm, generated: seq<Guess>, history: seq<seq<Row>>)
    requires |history| > 0 && Passes(norm, generated, history)
    requires |history| - 1 >= |Untried(norm, history[0], generated)|
    ensures BecameUsable(history) || Untried(norm, history[|history| - 1], generated) == {}
    decreases |history|
  {
    if |history| > 1 && NoneUsable(history[0]) {
      LaterPasses(norm, generated, history);
      PassMakesProgress(norm, generated, history[0], history[1]);
      NoAddressStarves(norm, generated, history[1..]);
      UsableLater(history);
    }
  }

  lemma UsableLater(history: seq<seq<Row>>)
    requires |history| > 1
    ensures BecameUsable(history[1..]) ==> BecameUsable(history)
    ensures history[1..][|history| - 2] == history[|history| - 1]
  {
    if i :| 0 <= i < |history[1..]| && !NoneUsable(history[1..][i]) {
      assert !NoneUsable(history[i + 1]);
    }
  }
}
