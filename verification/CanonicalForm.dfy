/** The canonical text itself, character by character: the form JSON.stringify gives to atoms, no
    white space, items in order, keys by code unit. */
module CanonicalForm {
  import opened Decimals
  import opened CanonicalJson
  import opened CanonicalRoundTrip

  // ---------------------------------------------------------------- which values have a text

  /** Integers a double can count without gaps. */
  ghost predicate Counts(n: real, k: int) {
    n == k as real && -9007199254740991 <= k <= 9007199254740991
  }

  ghost predicate IsSafe(n: real) {
    exists k :: Counts(n, k)
  }

  /** Atoms have a text, functions and the like do not, numbers only if they are safe integers;
      arrays and objects have one exactly when all their parts do. */
  lemma WhatHasAText(v: Json)
    ensures Canonical(v).Some? <==>
      match v
      case Unsupported => false
      case Number(n) => IsSafe(n)
      case Array(items) => forall i | 0 <= i < |items| :: Canonical(items[i]).Some?
      case Object(fields) => forall i | 0 <= i < |fields| :: Canonical(fields[i].value).Some?
      case _ => true
  {
    if v.Number? {
      if IsSafeInteger(v.n) { assert Counts(v.n, v.n.Floor); }
      if k :| Counts(v.n, k) { assert v.n.Floor == k; }
    }
  }

  /** Every value but an object that repeats a key is one. */
  lemma WhatIsAValue(v: Json)
    ensures WellFormed(v) <==>
      match v
      case Array(items) => forall i | 0 <= i < |items| :: WellFormed(items[i])
      case Object(fields) =>
        && (forall i | 0 <= i < |fields| :: WellFormed(fields[i].value))
        && forall i, j | 0 <= i < |fields| && 0 <= j < |fields| && fields[i].key == fields[j].key :: i == j
      case _ => true
  {
  }

  // ---------------------------------------------------------------- numbers

  /** Decimal digits without leading zero, after a minus for what is below zero; zero has no sign. */
  lemma DecimalIs(n: int)
    ensures var t, m := Decimal(n), if n < 0 then -n else n;
      && t == (if n < 0 then [45] else []) + Digits(m)
      && (m == 0 ==> Digits(m) == [48])
      && (m > 0 ==> 49 <= Digits(m)[0] <= 57)
      && NumberValue(Digits(m)) == m
  {
    DigitsAreCanonical(if n < 0 then -n else n);
  }

  // ---------------------------------------------------------------- strings

  predicate High(x: Unit) { x / 1024 == 54 }

  predicate Low(x: Unit) { x / 1024 == 55 }

  predicate IsHex(x: Unit) { x in [48, 49, 50, 51, 52, 53, 54, 55, 56, 57, 97, 98, 99, 100, 101, 102] }

  ghost function Nibble(x: Unit): int { if x < 97 then x - 48 else x - 87 }

  lemma HexDigitIs(d: int)
    requires 0 <= d < 16
    ensures IsHex(HexDigit(d)) && Nibble(HexDigit(d)) == d
  {
  }

  lemma FourNibbles(x: Unit)
    ensures 0 <= x / 4096 < 16
    ensures x == 4096 * (x / 4096) + 256 * (x / 256 % 16) + 16 * (x / 16 % 16) + x % 16
  {
    assert x / 256 == 16 * (x / 4096) + x / 256 % 16;
    assert x / 16 == 16 * (x / 256) + x / 16 % 16;
  }

  /** What one code unit becomes: itself; a short escape; or \\u with four small hexadecimal digits,
      for the other control characters and for halves of surrogate pairs. */
  lemma EscapeIs(x: Unit)
    ensures var e := Escape(x);
      if x in [8, 9, 10, 12, 13] then e == [92, if x == 8 then 98 else if x == 9 then 116 else if x == 10 then 110 else if x == 12 then 102 else 114]
      else if x == 34 || x == 92 then e == [92, x]
      else if x < 32 || High(x) || Low(x) then
        && |e| == 6 && e[0] == 92 && e[1] == 117 && (forall i | 2 <= i < 6 :: IsHex(e[i]))
        && x == 4096 * Nibble(e[2]) + 256 * Nibble(e[3]) + 16 * Nibble(e[4]) + Nibble(e[5])
      else e == [x]
  {
    if !(x in [8, 9, 10, 12, 13]) && x != 34 && x != 92 && (x < 32 || High(x) || Low(x)) {
      FourNibbles(x);
      HexDigitIs(x / 4096);
      HexDigitIs(x / 256 % 16);
      HexDigitIs(x / 16 % 16);
      HexDigitIs(x % 16);
    }
  }

  /** A pair of surrogates stays; everything else is escaped unit by unit. */
  lemma QuotedIs(s: Text)
    ensures Quote(s) == [34] + QuoteBody(s) + [34]
    ensures s == [] ==> QuoteBody(s) == []
    ensures |s| >= 2 && High(s[0]) && Low(s[1]) ==> QuoteBody(s) == [s[0], s[1]] + QuoteBody(s[2..])
    ensures s != [] && !(|s| >= 2 && High(s[0]) && Low(s[1])) ==> QuoteBody(s) == Escape(s[0]) + QuoteBody(s[1..])
  {
    if |s| >= 2 && High(s[0]) && Low(s[1]) { QuotedPair(s, s[..2], s[2..]); }
  }

  lemma QuotedPair(s: Text, pair: Text, rest: Text)
    requires |s| >= 2 && High(s[0]) && Low(s[1]) && pair == s[..2] && rest == s[2..]
    ensures QuoteBody(s) == [s[0], s[1]] + QuoteBody(rest)
  {
    assert IsLead(s[0]) && IsTrail(s[1]) && pair == [s[0], s[1]];
    assert QuoteBody(s) == pair + QuoteBody(rest);
  }

  // ---------------------------------------------------------------- arrays and objects

  /** The parts with commas in between. */
  ghost function Joined(parts: seq<Text>): Text {
    if |parts| == 0 then [] else if |parts| == 1 then parts[0] else parts[0] + [44] + Joined(parts[1..])
  }

  ghost function Texts(items: seq<Json>): seq<Text>
    requires forall i | 0 <= i < |items| :: Canonical(items[i]).Some?
  {
    seq(|items|, i requires 0 <= i < |items| => Canonical(items[i]).value)
  }

  ghost function FieldTexts(fields: seq<Field>): seq<Text>
    requires forall i | 0 <= i < |fields| :: Canonical(fields[i].value).Some?
  {
    seq(|fields|, i requires 0 <= i < |fields| => Quote(fields[i].key) + [58] + Canonical(fields[i].value).value)
  }

  lemma {:induction false} ItemsAreJoined(items: seq<Json>, parent: Json)
    requires forall i | 0 <= i < |items| :: items[i] < parent && Supported(items[i]) && Canonical(items[i]).Some?
    ensures RenderItems(items, parent) == Joined(Texts(items))
    decreases |items|
  {
    if |items| > 1 {
      ItemsAreJoined(items[1..], parent);
      assert Texts(items)[1..] == Texts(items[1..]);
    }
  }

  lemma {:induction false} FieldsAreJoined(fields: seq<Field>, parent: Json)
    requires forall f | f in fields :: f.value < parent && Supported(f.value) && Canonical(f.value).Some?
    ensures RenderFields(fields, parent) == Joined(FieldTexts(fields))
    decreases |fields|
  {
    if |fields| > 1 {
      FieldsAreJoined(fields[1..], parent);
      assert FieldTexts(fields)[1..] == FieldTexts(fields[1..]);
    }
  }

  /** The text of each kind of value. */
  lemma CanonicalTextIs(v: Json)
    requires Canonical(v).Some?
    ensures v.Null? ==> Canonical(v).value == [110, 117, 108, 108]
    ensures v.Bool? ==> Canonical(v).value == if v.b then [116, 114, 117, 101] else [102, 97, 108, 115, 101]
    ensures v.Number? ==> Canonical(v).value == Decimal(v.n.Floor)
    ensures v.String? ==> Canonical(v).value == Quote(v.s)
    ensures v.Array? ==>
      (forall i | 0 <= i < |v.items| :: Canonical(v.items[i]).Some?) && Canonical(v).value == [91] + Joined(Texts(v.items)) + [93]
    ensures v.Object? ==>
      var sorted := SortByKey(v.fields);
      && multiset(sorted) == multiset(v.fields)
      && (forall i | 0 <= i < |sorted| :: Canonical(sorted[i].value).Some?)
      && Canonical(v).value == [123] + Joined(FieldTexts(sorted)) + [125]
  {
    WhatHasAText(v);
    match v
    case Array(items) => ItemsAreJoined(items, v);
    case Object(fields) =>
      SortKeepsBag(fields);
      forall f | f in SortByKey(fields) ensures f.value < v && Canonical(f.value).Some? {
        assert f in fields;
        var i :| 0 <= i < |fields| && fields[i] == f;
      }
      FieldsAreJoined(SortByKey(fields), v);
    case _ =>
  }

  lemma {:induction false} SortKeepsBag(fields: seq<Field>)
    ensures multiset(SortByKey(fields)) == multiset(fields)
  {
    if fields != [] {
      SortKeepsBag(fields[1..]);
      InsertKeepsBag(fields[0], SortByKey(fields[1..]));
      assert fields == [fields[0]] + fields[1..];
    }
  }

  lemma {:induction false} InsertKeepsBag(f: Field, sorted: seq<Field>)
    ensures multiset(Insert(f, sorted)) == multiset(sorted) + multiset{f}
  {
    if sorted != [] {
      assert sorted == [sorted[0]] + sorted[1..];
      InsertKeepsBag(f, sorted[1..]);
    }
  }
}
