/** The parser undoes the printer, so the canonical text decides equality of JSON values. */
module CanonicalRoundTrip {
  import opened Decimals
  import opened Options
  import opened Ordering
  import opened CanonicalJson

  // ---------------------------------------------------------------- the value a text stands for

  /** The value with the fields of every object in key order. */
  function Norm(v: Json): Json
    decreases v, 1, 0
  {
    match v
    case Array(items) => Array(NormItems(items, v))
    case Object(fields) => Object(NormFields(SortByKey(fields), v))
    case _ => v
  }

  function NormItems(items: seq<Json>, ghost parent: Json): (r: seq<Json>)
    requires forall i | 0 <= i < |items| :: items[i] < parent
    ensures |r| == |items| && forall i | 0 <= i < |items| :: r[i] == Norm(items[i])
    decreases parent, 0, |items|
  {
    if items == [] then [] else [Norm(items[0])] + NormItems(items[1..], parent)
  }

  function NormFields(fields: seq<Field>, ghost parent: Json): (r: seq<Field>)
    requires forall f | f in fields :: f.value < parent
    ensures |r| == |fields|
    ensures forall i | 0 <= i < |fields| :: r[i] == Field(fields[i].key, Norm(fields[i].value))
    decreases parent, 0, |fields|
  {
    if fields == [] then [] else [Field(fields[0].key, Norm(fields[0].value))] + NormFields(fields[1..], parent)
  }

  // ---------------------------------------------------------------- strings

  lemma HexDigitRoundTrip(d: int)
    requires 0 <= d < 16
    ensures HexValue(HexDigit(d)) == Some(d)
  {
  }

  lemma HexParts(x: Unit)
    ensures 0 <= x / 4096 < 16
    ensures 4096 * (x / 4096) + 256 * (x / 256 % 16) + 16 * (x / 16 % 16) + x % 16 == x
  {
    assert x / 256 == (x / 16) / 16 && x / 4096 == (x / 256) / 16;
  }

  lemma FourHexOf(a: int, b: int, c: int, d: int)
    requires 0 <= a < 16 && 0 <= b < 16 && 0 <= c < 16 && 0 <= d < 16
    ensures FourHex([HexDigit(a), HexDigit(b), HexDigit(c), HexDigit(d)]) == Some(4096 * a + 256 * b + 16 * c + d)
  {
    HexDigitRoundTrip(a);
    HexDigitRoundTrip(b);
    HexDigitRoundTrip(c);
    HexDigitRoundTrip(d);
  }

  lemma HexRoundTrip(x: Unit)
    ensures FourHex(UnicodeEscape(x)[2..6]) == Some(x)
  {
    var a, b, c, d := x / 4096, x / 256 % 16, x / 16 % 16, x % 16;
    HexParts(x);
    FourHexOf(a, b, c, d);
    assert UnicodeEscape(x)[2..6] == [HexDigit(a), HexDigit(b), HexDigit(c), HexDigit(d)];
  }

  lemma UnicodeEscapeRoundTrip(x: Unit, tail: Text)
    ensures ParseString(UnicodeEscape(x) + tail) == Cons(x, ParseString(tail))
  {
    HexRoundTrip(x);
    var s := UnicodeEscape(x) + tail;
    assert s[2..6] == UnicodeEscape(x)[2..6] && s[6..] == tail;
  }

  lemma ShortEscapeRoundTrip(c: Unit, x: Unit, tail: Text)
    requires Unescape(c) == Some(x) && c != 117
    ensures ParseString([BACKSLASH, c] + tail) == Cons(x, ParseString(tail))
  {
    assert ([BACKSLASH, c] + tail)[2..] == tail;
  }

  lemma EscapeRoundTrip(x: Unit, tail: Text)
    ensures ParseString(Escape(x) + tail) == Cons(x, ParseString(tail))
  {
    if Escape(x) == UnicodeEscape(x) {
      UnicodeEscapeRoundTrip(x, tail);
    } else if |Escape(x)| == 2 {
      ShortEscapeRoundTrip(Escape(x)[1], x, tail);
      assert Escape(x) == [BACKSLASH, Escape(x)[1]];
    } else {
      assert ([x] + tail)[1..] == tail;
    }
  }

  lemma PairRoundTrip(x: Unit, y: Unit, tail: Text)
    requires IsLead(x) && IsTrail(y)
    ensures ParseString([x, y] + tail) == Cons(x, Cons(y, ParseString(tail)))
  {
    assert ([x, y] + tail)[1..] == [y] + tail;
    assert ([y] + tail)[1..] == tail;
  }

  lemma {:induction false} StringRoundTrip(s: Text, rest: Text)
    ensures ParseString(QuoteBody(s) + ([QUOTE] + rest)) == Some(Parsed(s, rest))
    decreases |s|
  {
    if s == [] {
      assert QuoteBody(s) + ([QUOTE] + rest) == [QUOTE] + rest;
      assert ([QUOTE] + rest)[1..] == rest;
    } else if |s| > 1 && IsLead(s[0]) && IsTrail(s[1]) {
      StringRoundTrip(s[2..], rest);
      PairThenString(s, QuoteBody(s[2..]), rest);
    } else {
      StringRoundTrip(s[1..], rest);
      UnitThenString(s, QuoteBody(s[1..]), rest);
    }
  }

  lemma PairThenString(s: Text, body: Text, rest: Text)
    requires |s| > 1 && IsLead(s[0]) && IsTrail(s[1])
    requires ParseString(body + ([QUOTE] + rest)) == Some(Parsed(s[2..], rest))
    ensures ParseString(s[..2] + body + ([QUOTE] + rest)) == Some(Parsed(s, rest))
  {
    var t := body + ([QUOTE] + rest);
    assert s[..2] + body + ([QUOTE] + rest) == [s[0], s[1]] + t;
    PairRoundTrip(s[0], s[1], t);
    assert s == [s[0]] + ([s[1]] + s[2..]);
  }

  lemma UnitThenString(s: Text, body: Text, rest: Text)
    requires s != []
    requires ParseString(body + ([QUOTE] + rest)) == Some(Parsed(s[1..], rest))
    ensures ParseString(Escape(s[0]) + body + ([QUOTE] + rest)) == Some(Parsed(s, rest))
  {
    var t := body + ([QUOTE] + rest);
    assert Escape(s[0]) + body + ([QUOTE] + rest) == Escape(s[0]) + t;
    EscapeRoundTrip(s[0], t);
    assert s == [s[0]] + s[1..];
  }

  // ---------------------------------------------------------------- numbers

  /** What may follow a number: anything but a digit. */
  predicate Ends(rest: Text) { rest == [] || !IsDigit(rest[0]) }

  lemma {:induction false} DigitsAreCanonical(n: nat)
    ensures Digits(n) != []
    ensures forall i | 0 <= i < |Digits(n)| :: IsDigit(Digits(n)[i])
    ensures NumberValue(Digits(n)) == n
    ensures n > 0 ==> Digits(n)[0] != 48
    ensures n < 10 ==> |Digits(n)| == 1
  {
    if n < 10 {
      assert Digits(n)[..0] == [];
      assert NumberValue([]) == 0;
    } else {
      DigitsAreCanonical(n / 10);
      assert Digits(n)[..|Digits(n)| - 1] == Digits(n / 10);
    }
  }

  lemma {:induction false} DigitRunStops(digits: Text, rest: Text)
    requires (forall i | 0 <= i < |digits| :: IsDigit(digits[i])) && Ends(rest)
    ensures DigitRun(digits + rest) == |digits|
  {
    if digits == [] {
      assert digits + rest == rest;
    } else {
      assert (digits + rest)[1..] == digits[1..] + rest;
      DigitRunStops(digits[1..], rest);
    }
  }

  lemma DigitsRoundTrip(n: nat, rest: Text)
    requires Ends(rest)
    ensures ParseDigits(Digits(n) + rest) == Some(Parsed(n, rest))
  {
    DigitsAreCanonical(n);
    DigitRunStops(Digits(n), rest);
    var s := Digits(n) + rest;
    assert s[..|Digits(n)|] == Digits(n) && s[|Digits(n)|..] == rest;
  }

  lemma NaturalRoundTrip(m: nat, rest: Text)
    requires Ends(rest)
    ensures ParseNumber(Digits(m) + rest) == Some(Parsed(Number(m as real), rest))
    ensures IsDigit(Digits(m)[0])
  {
    DigitsAreCanonical(m);
    DigitsRoundTrip(m, rest);
  }

  lemma NegativeRoundTrip(m: nat, rest: Text)
    requires Ends(rest)
    ensures ParseNumber([MINUS] + Digits(m) + rest) == Some(Parsed(Number(-(m as real)), rest))
  {
    DigitsRoundTrip(m, rest);
    assert [MINUS] + Digits(m) + rest == [MINUS] + (Digits(m) + rest);
    MinusThenDigits(Digits(m) + rest, m, rest);
  }

  lemma MinusThenDigits(t: Text, m: nat, rest: Text)
    requires ParseDigits(t) == Some(Parsed(m, rest))
    ensures ParseNumber([MINUS] + t) == Some(Parsed(Number(-(m as real)), rest))
  {
    assert ([MINUS] + t)[1..] == t;
  }

  lemma NumberRoundTrip(n: int, rest: Text)
    requires Ends(rest)
    ensures ParseNumber(Decimal(n) + rest) == Some(Parsed(Number(n as real), rest))
    ensures Decimal(n) != [] && (Decimal(n)[0] == MINUS || IsDigit(Decimal(n)[0]))
  {
    if n < 0 {
      NegativeRoundTrip(-n, rest);
      assert -((-n) as real) == n as real;
    } else {
      NaturalRoundTrip(n, rest);
    }
  }

  // ---------------------------------------------------------------- values

  predicate StartsValue(x: Unit) {
    x in {110, 116, 102, QUOTE, 91, 123, MINUS} || IsDigit(x)
  }

  lemma RenderStarts(v: Json)
    requires Supported(v)
    ensures Render(v) != [] && StartsValue(Render(v)[0])
  {
    if v.Number? { NumberRoundTrip(v.n.Floor, []); }
  }

  /** The first code unit tells the parser what to expect. */
  lemma ParseDispatch(t: Text)
    requires t != []
    ensures t[0] == QUOTE ==>
      Parse(t) == match ParseString(t[1..]) case None => None case Some(p) => Some(Parsed(String(p.value), p.rest))
    ensures t[0] == MINUS || IsDigit(t[0]) ==> Parse(t) == ParseNumber(t)
    ensures t[0] == 91 && |t| > 1 && t[1] != 93 ==>
      Parse(t) == match ParseItems(t[1..]) case None => None case Some(p) => Some(Parsed(Array(p.value), p.rest))
    ensures t[0] == 123 && |t| > 1 && t[1] != 125 ==>
      Parse(t) == match ParseFields(t[1..]) case None => None case Some(p) => Some(Parsed(Object(p.value), p.rest))
  {
  }

  lemma ParseQuoted(t: Text, s: Text, rest: Text)
    requires ParseString(t) == Some(Parsed(s, rest))
    ensures Parse([QUOTE] + t) == Some(Parsed(String(s), rest))
  {
    assert ([QUOTE] + t)[1..] == t;
    ParseDispatch([QUOTE] + t);
  }

  lemma ParseStringText(s: Text, rest: Text)
    ensures Parse(Quote(s) + rest) == Some(Parsed(String(s), rest))
  {
    StringRoundTrip(s, rest);
    var t := QuoteBody(s) + ([QUOTE] + rest);
    assert Quote(s) + rest == [QUOTE] + t;
    ParseQuoted(t, s, rest);
  }

  lemma ParseNullText(rest: Text)
    ensures Parse(NULL + rest) == Some(Parsed(Null, rest))
  {
    assert NULL <= NULL + rest && (NULL + rest)[4..] == rest;
  }

  lemma ParseBoolText(b: bool, rest: Text)
    ensures Parse((if b then TRUE else FALSE) + rest) == Some(Parsed(Bool(b), rest))
  {
    if b {
      assert TRUE <= TRUE + rest && (TRUE + rest)[4..] == rest;
      assert (TRUE + rest)[0] == 116;
    } else {
      assert FALSE <= FALSE + rest && (FALSE + rest)[5..] == rest;
      assert (FALSE + rest)[0] == 102;
    }
  }

  lemma ParseNumberText(n: int, rest: Text)
    requires Ends(rest)
    ensures Parse(Decimal(n) + rest) == Some(Parsed(Number(n as real), rest))
  {
    NumberRoundTrip(n, rest);
    ParseDispatch(Decimal(n) + rest);
  }

  lemma ParseEmptyArray(rest: Text)
    ensures Parse([91] + [] + [93] + rest) == Some(Parsed(Array([]), rest))
  {
    var t := [91] + [] + [93] + rest;
    assert t[0] == 91 && t[1] == 93 && t[2..] == rest;
  }

  lemma ParseEmptyObject(rest: Text)
    ensures Parse([123] + [] + [125] + rest) == Some(Parsed(Object([]), rest))
  {
    var t := [123] + [] + [125] + rest;
    assert t[0] == 123 && t[1] == 125 && t[2..] == rest;
  }

  lemma ParseArrayBody(s: Text)
    requires s != [] && s[0] != 93
    ensures Parse([91] + s) == match ParseItems(s) case None => None case Some(p) => Some(Parsed(Array(p.value), p.rest))
  {
    assert ([91] + s)[1..] == s;
    ParseDispatch([91] + s);
  }

  lemma ParseArrayText(body: Text, rest: Text)
    requires body != [] && body[0] != 93
    requires ParseItems(body + ([93] + rest)).Some? && ParseItems(body + ([93] + rest)).value.rest == rest
    ensures Parse([91] + body + [93] + rest) == Some(Parsed(Array(ParseItems(body + ([93] + rest)).value.value), rest))
  {
    var s := body + ([93] + rest);
    assert s[0] == body[0] && [91] + body + [93] + rest == [91] + s;
    ParseArrayBody(s);
  }

  lemma ParseObjectBody(s: Text)
    requires s != [] && s[0] != 125
    ensures Parse([123] + s) == match ParseFields(s) case None => None case Some(p) => Some(Parsed(Object(p.value), p.rest))
  {
    assert ([123] + s)[1..] == s;
    ParseDispatch([123] + s);
  }

  lemma ParseObjectText(body: Text, rest: Text)
    requires body != [] && body[0] != 125
    requires ParseFields(body + ([125] + rest)).Some? && ParseFields(body + ([125] + rest)).value.rest == rest
    ensures Parse([123] + body + [125] + rest) == Some(Parsed(Object(ParseFields(body + ([125] + rest)).value.value), rest))
  {
    var s := body + ([125] + rest);
    assert s[0] == body[0] && [123] + body + [125] + rest == [123] + s;
    ParseObjectBody(s);
  }

  lemma {:induction false} ParseUndoesRender(v: Json, rest: Text)
    requires Supported(v) && Ends(rest)
    ensures Parse(Render(v) + rest) == Some(Parsed(Norm(v), rest))
    decreases v, 1, 0
  {
    match v
    case Null => ParseNullText(rest);
    case Bool(b) => ParseBoolText(b, rest);
    case Number(n) => ParseNumberText(n.Floor, rest);
    case String(x) => ParseStringText(x, rest);
    case Array(items) =>
      if items == [] {
        ParseEmptyArray(rest);
      } else {
        ParseUndoesItems(items, v, rest);
        ParseArrayText(RenderItems(items, v), rest);
      }
    case Object(fields) =>
      if fields == [] {
        ParseEmptyObject(rest);
      } else {
        ParseUndoesFields(SortByKey(fields), v, rest);
        ParseObjectText(RenderFields(SortByKey(fields), v), rest);
      }
  }

  lemma ParseOneItem(item: Text, value: Json, rest: Text)
    requires Parse(item + ([93] + rest)) == Some(Parsed(value, [93] + rest))
    ensures ParseItems(item + ([93] + rest)) == Some(Parsed([value], rest))
  {
    assert ([93] + rest)[1..] == rest;
  }

  /** An item, a comma and more items. */
  lemma ParseItemList(s: Text, value: Json, tail: Text, values: seq<Json>, rest: Text)
    requires Parse(s) == Some(Parsed(value, [COMMA] + tail)) && ParseItems(tail) == Some(Parsed(values, rest))
    ensures ParseItems(s) == Some(Parsed([value] + values, rest))
  {
    assert ([COMMA] + tail)[1..] == tail;
  }

  lemma ParseMoreItems(item: Text, value: Json, others: Text, values: seq<Json>, rest: Text)
    requires var tail := others + ([93] + rest);
      && Parse(item + ([COMMA] + tail)) == Some(Parsed(value, [COMMA] + tail))
      && ParseItems(tail) == Some(Parsed(values, rest))
    ensures ParseItems(item + [COMMA] + others + ([93] + rest)) == Some(Parsed([value] + values, rest))
  {
    var tail := others + ([93] + rest);
    ParseItemList(item + ([COMMA] + tail), value, tail, values, rest);
    Regroup(item, [COMMA], others, [93] + rest);
  }

  lemma {:induction false} ParseUndoesItems(items: seq<Json>, parent: Json, rest: Text)
    requires items != [] && forall i | 0 <= i < |items| :: items[i] < parent && Supported(items[i])
    ensures ParseItems(RenderItems(items, parent) + ([93] + rest)) == Some(Parsed(NormItems(items, parent), rest))
    ensures RenderItems(items, parent) != [] && StartsValue(RenderItems(items, parent)[0])
    decreases parent, 0, |items|
  {
    RenderStarts(items[0]);
    var item := Render(items[0]);
    if |items| == 1 {
      ParseUndoesRender(items[0], [93] + rest);
      ParseOneItem(item, Norm(items[0]), rest);
      assert NormItems(items, parent) == [Norm(items[0])];
    } else {
      var others := RenderItems(items[1..], parent);
      ParseUndoesItems(items[1..], parent, rest);
      ParseUndoesRender(items[0], [COMMA] + (others + ([93] + rest)));
      ParseMoreItems(item, Norm(items[0]), others, NormItems(items[1..], parent), rest);
    }
  }

  /** A quoted key, a colon and a value. */
  lemma ParseMember(s: Text, key: Text, after: Text, value: Json, rest: Text)
    requires s != [] && s[0] == QUOTE
    requires ParseString(s[1..]) == Some(Parsed(key, [COLON] + after)) && Parse(after) == Some(Parsed(value, rest))
    ensures ParseField(s) == Some(Parsed(Field(key, value), rest))
  {
    assert ([COLON] + after)[1..] == after;
  }

  lemma MemberTail(body: Text, value: Text, rest: Text)
    ensures var s := [QUOTE] + body + [QUOTE] + [COLON] + value + rest;
      s[0] == QUOTE && s[1..] == body + ([QUOTE] + ([COLON] + (value + rest)))
  {
  }

  lemma ParseUndoesField(f: Field, rest: Text)
    requires Supported(f.value) && Ends(rest)
    ensures ParseField(RenderField(f) + rest) == Some(Parsed(Field(f.key, Norm(f.value)), rest))
    decreases f.value, 2, 0
  {
    var value := Render(f.value);
    ParseUndoesRender(f.value, rest);
    StringRoundTrip(f.key, [COLON] + (value + rest));
    MemberTail(QuoteBody(f.key), value, rest);
    ParseMember([QUOTE] + QuoteBody(f.key) + [QUOTE] + [COLON] + value + rest, f.key, value + rest, Norm(f.value), rest);
  }

  lemma ParseOneField(member: Text, f: Field, rest: Text)
    requires ParseField(member + ([125] + rest)) == Some(Parsed(f, [125] + rest))
    ensures ParseFields(member + ([125] + rest)) == Some(Parsed([f], rest))
  {
    assert ([125] + rest)[1..] == rest;
  }

  /** A member, a comma and more members. */
  lemma ParseMemberList(s: Text, f: Field, tail: Text, fs: seq<Field>, rest: Text)
    requires ParseField(s) == Some(Parsed(f, [COMMA] + tail)) && ParseFields(tail) == Some(Parsed(fs, rest))
    ensures ParseFields(s) == Some(Parsed([f] + fs, rest))
  {
    assert ([COMMA] + tail)[1..] == tail;
  }

  lemma ParseMoreFields(member: Text, f: Field, others: Text, fs: seq<Field>, rest: Text)
    requires var tail := others + ([125] + rest);
      && ParseField(member + ([COMMA] + tail)) == Some(Parsed(f, [COMMA] + tail))
      && ParseFields(tail) == Some(Parsed(fs, rest))
    ensures ParseFields(member + [COMMA] + others + ([125] + rest)) == Some(Parsed([f] + fs, rest))
  {
    var tail := others + ([125] + rest);
    ParseMemberList(member + ([COMMA] + tail), f, tail, fs, rest);
    Regroup(member, [COMMA], others, [125] + rest);
  }

  lemma Regroup(a: Text, b: Text, c: Text, d: Text)
    ensures a + b + c + d == a + (b + (c + d))
  {
  }

  lemma {:induction false} ParseUndoesFields(fields: seq<Field>, parent: Json, rest: Text)
    requires fields != [] && forall f | f in fields :: f.value < parent && Supported(f.value)
    ensures ParseFields(RenderFields(fields, parent) + ([125] + rest)) == Some(Parsed(NormFields(fields, parent), rest))
    ensures RenderFields(fields, parent) != [] && RenderFields(fields, parent)[0] == QUOTE
    decreases parent, 0, |fields|
  {
    var f := Field(fields[0].key, Norm(fields[0].value));
    var member := RenderField(fields[0]);
    assert member[0] == QUOTE;
    if |fields| == 1 {
      ParseUndoesField(fields[0], [125] + rest);
      ParseOneField(member, f, rest);
      assert NormFields(fields, parent) == [f];
    } else {
      var others := RenderFields(fields[1..], parent);
      ParseUndoesFields(fields[1..], parent, rest);
      ParseUndoesField(fields[0], [COMMA] + (others + ([125] + rest)));
      ParseMoreFields(member, f, others, NormFields(fields[1..], parent), rest);
    }
  }

  /** The round trip: a canonical text reads back as the value, its fields in key order. */
  lemma CanonicalTextParses(v: Json)
    requires Canonical(v).Some?
    ensures Parse(Canonical(v).value) == Some(Parsed(Norm(v), []))
  {
    ParseUndoesRender(v, []);
    assert Render(v) + [] == Render(v);
  }

  // ---------------------------------------------------------------- key order

  predicate Increasing(fields: seq<Field>) {
    forall i, j | 0 <= i < j < |fields| :: CodesBefore(fields[i].key, fields[j].key)
  }

  lemma {:induction false} InsertKeepsIncreasing(f: Field, sorted: seq<Field>)
    requires Increasing(sorted) && forall g | g in sorted :: g.key != f.key
    ensures Increasing(Insert(f, sorted))
  {
    if sorted == [] {
    } else if !CodesBefore(sorted[0].key, f.key) {
      CodeOrderIsTotal(sorted[0].key, f.key);
      assert sorted[0] in sorted;
      forall j | 0 < j < |sorted| ensures CodesBefore(f.key, sorted[j].key) {
        CodeOrderIsTransitive(f.key, sorted[0].key, sorted[j].key);
      }
    } else {
      InsertKeepsIncreasing(f, sorted[1..]);
      var r := Insert(f, sorted[1..]);
      forall j | 0 <= j < |r| ensures CodesBefore(sorted[0].key, r[j].key) {
        if r[j] != f {
          assert r[j] in sorted[1..];
        }
      }
    }
  }

  lemma {:induction false} SortIncreases(fields: seq<Field>)
    requires forall i, j | 0 <= i < j < |fields| :: fields[i].key != fields[j].key
    ensures Increasing(SortByKey(fields))
  {
    if fields != [] {
      SortIncreases(fields[1..]);
      forall g | g in SortByKey(fields[1..]) ensures g.key != fields[0].key {
        var k :| 0 <= k < |fields[1..]| && fields[1..][k] == g;
      }
      InsertKeepsIncreasing(fields[0], SortByKey(fields[1..]));
    }
  }

  /** Two strictly increasing field lists over the same keys agree key by key. */
  lemma {:induction false} IncreasingIsUnique(x: seq<Field>, y: seq<Field>)
    requires Increasing(x) && Increasing(y)
    requires forall i | 0 <= i < |x| :: HasKey(y, x[i].key)
    requires forall j | 0 <= j < |y| :: HasKey(x, y[j].key)
    ensures |x| == |y| && forall i | 0 <= i < |x| :: x[i].key == y[i].key
    decreases |x|
  {
    assert x != [] ==> HasKey(y, x[0].key);
    assert y != [] ==> HasKey(x, y[0].key);
    if x != [] && y != [] {
      CodeOrderIsTotal(x[0].key, y[0].key);
      assert x[0].key == y[0].key;
      KeysOfTail(x, y);
      KeysOfTail(y, x);
      IncreasingIsUnique(x[1..], y[1..]);
    }
  }

  lemma KeysOfTail(x: seq<Field>, y: seq<Field>)
    requires Increasing(x) && x != [] && y != [] && x[0].key == y[0].key
    requires forall i | 0 <= i < |x| :: HasKey(y, x[i].key)
    ensures forall i | 0 <= i < |x[1..]| :: HasKey(y[1..], x[1..][i].key)
  {
    forall i | 0 <= i < |x[1..]| ensures HasKey(y[1..], x[1..][i].key) {
      assert HasKey(y, x[i + 1].key);
      var j :| 0 <= j < |y| && y[j].key == x[i + 1].key;
      CodeOrderIsTotal(x[0].key, x[i + 1].key);
      assert y[1..][j - 1].key == x[1..][i].key;
    }
  }

  // ---------------------------------------------------------------- equality

  lemma SortKeepsKeys(f: seq<Field>, g: seq<Field>)
    requires forall i | 0 <= i < |f| :: HasKey(g, f[i].key)
    ensures forall p | 0 <= p < |f| :: HasKey(SortByKey(g), SortByKey(f)[p].key)
  {
    forall p | 0 <= p < |f| ensures HasKey(SortByKey(g), SortByKey(f)[p].key) {
      assert SortByKey(f)[p] in f;
      var i :| 0 <= i < |f| && f[i] == SortByKey(f)[p];
      assert HasKey(g, f[i].key);
      var j :| 0 <= j < |g| && g[j].key == f[i].key;
      assert g[j] in SortByKey(g);
    }
  }

  lemma MatchIsUnique(f: Field, g: seq<Field>, h: Field)
    requires HasField(g, f) && h in g && h.key == f.key
    requires forall i, j | 0 <= i < j < |g| :: g[i].key != g[j].key
    ensures Same(f.value, h.value)
  {
    var j :| 0 <= j < |g| && SameField(f, g[j]);
    var l :| 0 <= l < |g| && g[l] == h;
  }

  /** The same value in any field order has the same normal form. */
  lemma {:induction false} SameNorm(a: Json, b: Json)
    requires WellFormed(a) && WellFormed(b) && Same(a, b)
    ensures Norm(a) == Norm(b)
    decreases a, 1
  {
    match (a, b)
    case (Array(x), Array(y)) =>
      forall i | 0 <= i < |x| ensures Norm(x[i]) == Norm(y[i]) { SameNorm(x[i], y[i]); }
      assert NormItems(x, a) == NormItems(y, b);
    case (Object(f), Object(g)) => SameNormFields(f, a, g, b);
    case _ =>
  }

  lemma {:induction false} SameNormFields(f: seq<Field>, a: Json, g: seq<Field>, b: Json)
    requires a == Object(f) && b == Object(g)
    requires WellFormed(a) && WellFormed(b) && Same(a, b)
    ensures NormFields(SortByKey(f), a) == NormFields(SortByKey(g), b)
    decreases a, 0
  {
    var sf, sg := SortByKey(f), SortByKey(g);
    SameKeysInOrder(f, g);
    forall p | 0 <= p < |sf| ensures Norm(sf[p].value) == Norm(sg[p].value) {
      var i, l := SamePartner(f, g, p);
      SameNorm(f[i].value, g[l].value);
    }
    NormFieldsAgree(sf, a, sg, b);
  }

  lemma NormFieldsAgree(sf: seq<Field>, a: Json, sg: seq<Field>, b: Json)
    requires (forall f | f in sf :: f.value < a) && (forall g | g in sg :: g.value < b)
    requires |sf| == |sg|
    requires forall p | 0 <= p < |sf| :: sf[p].key == sg[p].key && Norm(sf[p].value) == Norm(sg[p].value)
    ensures NormFields(sf, a) == NormFields(sg, b)
  {
    var nf, ng := NormFields(sf, a), NormFields(sg, b);
    assert forall p | 0 <= p < |nf| :: nf[p] == ng[p];
  }

  lemma SameKeysInOrder(f: seq<Field>, g: seq<Field>)
    requires WellFormed(Object(f)) && WellFormed(Object(g)) && Same(Object(f), Object(g))
    ensures |f| == |g| && forall p | 0 <= p < |f| :: SortByKey(f)[p].key == SortByKey(g)[p].key
  {
    SortIncreases(f);
    SortIncreases(g);
    forall i | 0 <= i < |f| ensures HasKey(g, f[i].key) { assert HasField(g, f[i]); }
    SortKeepsKeys(f, g);
    SortKeepsKeys(g, f);
    IncreasingIsUnique(SortByKey(f), SortByKey(g));
  }

  /** The fields that stand at place p in key order are the same field. */
  lemma SamePartner(f: seq<Field>, g: seq<Field>, p: nat) returns (i: nat, l: nat)
    requires forall j | 0 <= j < |f| :: HasField(g, f[j])
    requires forall j, k | 0 <= j < k < |g| :: g[j].key != g[k].key
    requires p < |f| == |g| && SortByKey(f)[p].key == SortByKey(g)[p].key
    ensures i < |f| && f[i] == SortByKey(f)[p]
    ensures l < |g| && g[l] == SortByKey(g)[p]
    ensures Same(f[i].value, g[l].value)
  {
    assert SortByKey(f)[p] in f && SortByKey(g)[p] in g;
    i :| 0 <= i < |f| && f[i] == SortByKey(f)[p];
    l :| 0 <= l < |g| && g[l] == SortByKey(g)[p];
    assert HasField(g, f[i]);
    MatchIsUnique(f[i], g, g[l]);
  }

  /** Values with one normal form are the same value. */
  lemma {:induction false} NormSame(a: Json, b: Json)
    requires Norm(a) == Norm(b)
    ensures Same(a, b)
    decreases a, 1
  {
    match (a, b)
    case (Array(x), Array(y)) =>
      assert |x| == |NormItems(x, a)| == |NormItems(y, b)| == |y|;
      forall i | 0 <= i < |x| ensures Same(x[i], y[i]) {
        assert NormItems(x, a)[i] == NormItems(y, b)[i];
        NormSame(x[i], y[i]);
      }
    case (Object(f), Object(g)) => NormSameFields(f, a, g, b);
    case _ =>
  }

  lemma {:induction false} NormSameFields(f: seq<Field>, a: Json, g: seq<Field>, b: Json)
    requires a == Object(f) && b == Object(g)
    requires NormFields(SortByKey(f), a) == NormFields(SortByKey(g), b)
    ensures Same(a, b)
    decreases a, 0
  {
    forall i | 0 <= i < |f| ensures HasField(g, f[i]) {
      var j := NormPartner(f, a, g, b, i);
      NormSame(f[i].value, g[j].value);
      assert SameField(f[i], g[j]);
    }
    forall j | 0 <= j < |g| ensures HasKey(f, g[j].key) {
      var i := NormPartner(g, b, f, a, j);
    }
  }

  /** The field of g that stands where field i of f stands, in key order. */
  lemma NormPartner(f: seq<Field>, a: Json, g: seq<Field>, b: Json, i: nat) returns (j: nat)
    requires a == Object(f) && b == Object(g) && i < |f|
    requires NormFields(SortByKey(f), a) == NormFields(SortByKey(g), b)
    ensures j < |g| && g[j].key == f[i].key && Norm(g[j].value) == Norm(f[i].value)
  {
    var sf, sg := SortByKey(f), SortByKey(g);
    var nf, ng := NormFields(sf, a), NormFields(sg, b);
    assert f[i] in sf;
    var p :| 0 <= p < |sf| && sf[p] == f[i];
    assert nf[p] == ng[p] && sg[p] in g;
    j :| 0 <= j < |g| && g[j] == sg[p];
  }

  /** Reordering fields keeps a value printable. */
  lemma {:induction false} SameSupported(a: Json, b: Json)
    requires WellFormed(b) && Same(a, b) && Supported(a)
    ensures Supported(b)
    decreases a
  {
    match (a, b)
    case (Array(x), Array(y)) =>
      forall i | 0 <= i < |y| ensures Supported(y[i]) { SameSupported(x[i], y[i]); }
    case (Object(f), Object(g)) =>
      forall j | 0 <= j < |g| ensures Supported(g[j].value) {
        assert HasKey(f, g[j].key);
        var i :| 0 <= i < |f| && f[i].key == g[j].key;
        assert HasField(g, f[i]);
        MatchIsUnique(f[i], g, g[j]);
        SameSupported(f[i].value, g[j].value);
      }
    case _ =>
  }

  lemma {:induction false} NormDecidesText(a: Json, b: Json)
    requires Supported(a) && Supported(b) && Norm(a) == Norm(b)
    ensures Render(a) == Render(b)
    decreases a, 1, 0
  {
    match (a, b)
    case (Array(x), Array(y)) => NormDecidesItems(x, a, y, b);
    case (Object(f), Object(g)) => NormDecidesFields(SortByKey(f), a, SortByKey(g), b);
    case _ =>
  }

  lemma {:induction false} NormDecidesItems(x: seq<Json>, a: Json, y: seq<Json>, b: Json)
    requires forall i | 0 <= i < |x| :: x[i] < a && Supported(x[i])
    requires forall i | 0 <= i < |y| :: y[i] < b && Supported(y[i])
    requires NormItems(x, a) == NormItems(y, b)
    ensures RenderItems(x, a) == RenderItems(y, b)
    decreases a, 0, |x|
  {
    assert |x| == |NormItems(x, a)| == |NormItems(y, b)| == |y|;
    if x != [] {
      assert NormItems(x, a)[0] == NormItems(y, b)[0];
      NormDecidesText(x[0], y[0]);
      assert NormItems(x, a)[1..] == NormItems(x[1..], a) && NormItems(y, b)[1..] == NormItems(y[1..], b);
      NormDecidesItems(x[1..], a, y[1..], b);
    }
  }

  lemma {:induction false} NormDecidesFields(f: seq<Field>, a: Json, g: seq<Field>, b: Json)
    requires forall x | x in f :: x.value < a && Supported(x.value)
    requires forall y | y in g :: y.value < b && Supported(y.value)
    requires NormFields(f, a) == NormFields(g, b)
    ensures RenderFields(f, a) == RenderFields(g, b)
    decreases a, 0, |f|
  {
    assert |f| == |NormFields(f, a)| == |NormFields(g, b)| == |g|;
    if f != [] {
      assert NormFields(f, a)[0] == NormFields(g, b)[0];
      NormDecidesText(f[0].value, g[0].value);
      assert NormFields(f, a)[1..] == NormFields(f[1..], a) && NormFields(g, b)[1..] == NormFields(g[1..], b);
      NormDecidesFields(f[1..], a, g[1..], b);
    }
  }

  /** The text does not depend on the order of keys, and it loses nothing else: two evidence
      values have one text exactly when they are equal as JSON values. */
  lemma CanonicalTextDecidesEquality(a: Json, b: Json)
    requires WellFormed(a) && WellFormed(b) && Canonical(a).Some?
    ensures Canonical(a) == Canonical(b) <==> Same(a, b)
  {
    CanonicalTextParses(a);
    if Canonical(b).Some? && Render(a) == Render(b) {
      CanonicalTextParses(b);
      NormSame(a, b);
    }
    if Same(a, b) {
      SameSupported(a, b);
      SameNorm(a, b);
      NormDecidesText(a, b);
    }
  }
}
