/** The canonical text of the bootstrap evidence, and a JSON parser to read it back with.

    Texts are sequences of UTF-16 code units.  Numbers are real: only safe integers are printed. */
module CanonicalJson {
  import opened Decimals
  import opened Options
  import opened Ordering

  type Unit = x: int | 0 <= x < 0x10000
  type Text = seq<Unit>

  datatype Field = Field(key: Text, value: Json)

  /** A JavaScript value; the fields of an object stand in insertion order. */
  datatype Json =
    | Null
    | Bool(b: bool)
    | Number(n: real)
    | String(s: Text)
    | Array(items: seq<Json>)
    | Object(fields: seq<Field>)
    | Unsupported

  const MAX_SAFE_INTEGER: int := 9007199254740991

  const TRUE: Text := [116, 114, 117, 101]
  const FALSE: Text := [102, 97, 108, 115, 101]
  const NULL: Text := [110, 117, 108, 108]
  const QUOTE: Unit := 34
  const BACKSLASH: Unit := 92
  const COMMA: Unit := 44
  const COLON: Unit := 58
  const MINUS: Unit := 45

  // ---------------------------------------------------------------- what a value is

  predicate IsSafeInteger(n: real) {
    n == n.Floor as real && -MAX_SAFE_INTEGER <= n.Floor <= MAX_SAFE_INTEGER
  }

  /** No key twice, at any depth: what a JavaScript object is. */
  predicate WellFormed(v: Json) {
    match v
    case Array(items) => forall i | 0 <= i < |items| :: WellFormed(items[i])
    case Object(fields) =>
      && (forall i | 0 <= i < |fields| :: WellFormed(fields[i].value))
      && (forall i, j | 0 <= i < j < |fields| :: fields[i].key != fields[j].key)
    case _ => true
  }

  predicate Supported(v: Json) {
    match v
    case Unsupported => false
    case Number(n) => IsSafeInteger(n)
    case Array(items) => forall i | 0 <= i < |items| :: Supported(items[i])
    case Object(fields) => forall i | 0 <= i < |fields| :: Supported(fields[i].value)
    case _ => true
  }

  predicate HasKey(fields: seq<Field>, key: Text) {
    exists i :: 0 <= i < |fields| && fields[i].key == key
  }

  ghost predicate SameField(f: Field, g: Field)
    decreases f.value, 1
  {
    f.key == g.key && Same(f.value, g.value)
  }

  ghost predicate HasField(fields: seq<Field>, f: Field)
    decreases f.value, 2
  {
    exists j :: 0 <= j < |fields| && SameField(f, fields[j])
  }

  /** Equal as JSON values: the same keys with the same values, in any order. */
  ghost predicate Same(a: Json, b: Json)
    decreases a, 0
  {
    match (a, b)
    case (Array(x), Array(y)) => |x| == |y| && forall i | 0 <= i < |x| :: Same(x[i], y[i])
    case (Object(f), Object(g)) =>
      && (forall i | 0 <= i < |f| :: HasField(g, f[i]))
      && (forall j | 0 <= j < |g| :: HasKey(f, g[j].key))
    case _ => a == b
  }

  // ---------------------------------------------------------------- sorting keys

  /** Array.prototype.sort orders keys by code unit. */
  function Insert(f: Field, sorted: seq<Field>): (r: seq<Field>)
    ensures |r| == |sorted| + 1
    ensures forall g :: g in r <==> g == f || g in sorted
  {
    if sorted == [] || !CodesBefore(sorted[0].key, f.key) then [f] + sorted
    else [sorted[0]] + Insert(f, sorted[1..])
  }

  function SortByKey(fields: seq<Field>): (r: seq<Field>)
    ensures |r| == |fields|
    ensures forall f :: f in r <==> f in fields
  {
    if fields == [] then [] else Insert(fields[0], SortByKey(fields[1..]))
  }

  // ---------------------------------------------------------------- printing

  predicate IsLead(x: Unit) { 0xD800 <= x < 0xDC00 }

  predicate IsTrail(x: Unit) { 0xDC00 <= x < 0xE000 }

  function HexDigit(d: int): Unit
    requires 0 <= d < 16
  {
    if d < 10 then 48 + d else 87 + d
  }

  function UnicodeEscape(x: Unit): Text {
    [BACKSLASH, 117, HexDigit(x / 4096), HexDigit(x / 256 % 16), HexDigit(x / 16 % 16), HexDigit(x % 16)]
  }

  function Escape(x: Unit): Text {
    if x == 8 then [BACKSLASH, 98]
    else if x == 9 then [BACKSLASH, 116]
    else if x == 10 then [BACKSLASH, 110]
    else if x == 12 then [BACKSLASH, 102]
    else if x == 13 then [BACKSLASH, 114]
    else if x == QUOTE || x == BACKSLASH then [BACKSLASH, x]
    else if x < 32 || IsLead(x) || IsTrail(x) then UnicodeEscape(x)
    else [x]
  }

  /** JSON.stringify keeps surrogate pairs and escapes lone surrogates. */
  function QuoteBody(s: Text): Text {
    if s == [] then []
    else if |s| > 1 && IsLead(s[0]) && IsTrail(s[1]) then s[..2] + QuoteBody(s[2..])
    else Escape(s[0]) + QuoteBody(s[1..])
  }

  function Quote(s: Text): Text { [QUOTE] + QuoteBody(s) + [QUOTE] }

  function Decimal(n: int): Text {
    if n < 0 then [MINUS] + Digits(-n) else Digits(n)
  }

  function Render(v: Json): Text
    requires Supported(v)
    decreases v, 1, 0
  {
    match v
    case Null => NULL
    case Bool(b) => if b then TRUE else FALSE
    case Number(n) => Decimal(n.Floor)
    case String(s) => Quote(s)
    case Array(items) => [91] + RenderItems(items, v) + [93]
    case Object(fields) => [123] + RenderFields(SortByKey(fields), v) + [125]
  }

  function RenderItems(items: seq<Json>, ghost parent: Json): Text
    requires forall i | 0 <= i < |items| :: items[i] < parent && Supported(items[i])
    decreases parent, 0, |items|
  {
    if items == [] then []
    else if |items| == 1 then Render(items[0])
    else Render(items[0]) + [COMMA] + RenderItems(items[1..], parent)
  }

  function RenderField(f: Field): Text
    requires Supported(f.value)
    decreases f.value, 2, 0
  {
    Quote(f.key) + [COLON] + Render(f.value)
  }

  function RenderFields(fields: seq<Field>, ghost parent: Json): Text
    requires forall f | f in fields :: f.value < parent && Supported(f.value)
    decreases parent, 0, |fields|
  {
    if fields == [] then []
    else if |fields| == 1 then RenderField(fields[0])
    else RenderField(fields[0]) + [COMMA] + RenderFields(fields[1..], parent)
  }

  /** None where the source throws. */
  function Canonical(v: Json): Option<Text> {
    if Supported(v) then Some(Render(v)) else None
  }

  // ---------------------------------------------------------------- parsing, without white space

  predicate IsDigit(x: Unit) { 48 <= x <= 57 }

  function HexValue(x: Unit): Option<int> {
    if IsDigit(x) then Some(x - 48)
    else if 97 <= x <= 102 then Some(x - 87)
    else if 65 <= x <= 70 then Some(x - 55)
    else None
  }

  function FourHex(s: Text): (r: Option<Unit>)
    requires |s| >= 4
  {
    match (HexValue(s[0]), HexValue(s[1]), HexValue(s[2]), HexValue(s[3]))
    case (Some(a), Some(b), Some(c), Some(d)) =>
      if 0 <= a < 16 && 0 <= b < 16 && 0 <= c < 16 && 0 <= d < 16 then Some(4096 * a + 256 * b + 16 * c + d) else None
    case _ => None
  }

  function Unescape(x: Unit): Option<Unit> {
    if x == 98 then Some(8)
    else if x == 116 then Some(9)
    else if x == 110 then Some(10)
    else if x == 102 then Some(12)
    else if x == 114 then Some(13)
    else if x == QUOTE || x == BACKSLASH || x == 47 then Some(x)
    else None
  }

  datatype Parsed<T> = Parsed(value: T, rest: Text)

  function Cons(x: Unit, tail: Option<Parsed<Text>>): Option<Parsed<Text>> {
    if tail.Some? then Some(Parsed([x] + tail.value.value, tail.value.rest)) else None
  }

  /** The rest of a string, after its opening quote. */
  function ParseString(s: Text): (r: Option<Parsed<Text>>)
    ensures r.Some? ==> |r.value.rest| < |s|
    decreases |s|
  {
    if s == [] then None
    else if s[0] == QUOTE then Some(Parsed([], s[1..]))
    else if s[0] == BACKSLASH then
      if |s| >= 6 && s[1] == 117 then
        if FourHex(s[2..6]).Some? then Cons(FourHex(s[2..6]).value, ParseString(s[6..])) else None
      else if |s| >= 2 && Unescape(s[1]).Some? then Cons(Unescape(s[1]).value, ParseString(s[2..]))
      else None
    else if s[0] < 32 then None
    else Cons(s[0], ParseString(s[1..]))
  }

  function DigitRun(s: Text): (n: nat)
    ensures n <= |s|
    ensures forall i | 0 <= i < n :: IsDigit(s[i])
  {
    if s == [] || !IsDigit(s[0]) then 0 else 1 + DigitRun(s[1..])
  }

  function NumberValue(digits: Text): nat
    requires forall i | 0 <= i < |digits| :: IsDigit(digits[i])
  {
    if digits == [] then 0
    else
      assert IsDigit(digits[|digits| - 1]);
      10 * NumberValue(digits[..|digits| - 1]) + (digits[|digits| - 1] - 48)
  }

  function ParseDigits(s: Text): (r: Option<Parsed<nat>>)
    ensures r.Some? ==> |r.value.rest| < |s|
  {
    var n := DigitRun(s);
    if n == 0 || (n > 1 && s[0] == 48) then None else Some(Parsed(NumberValue(s[..n]), s[n..]))
  }

  function ParseNumber(s: Text): (r: Option<Parsed<Json>>)
    ensures r.Some? ==> |r.value.rest| < |s|
  {
    if s != [] && s[0] == MINUS then
      match ParseDigits(s[1..]) case None => None case Some(p) => Some(Parsed(Number(-(p.value as real)), p.rest))
    else
      match ParseDigits(s) case None => None case Some(p) => Some(Parsed(Number(p.value as real), p.rest))
  }

  function Parse(s: Text): (r: Option<Parsed<Json>>)
    ensures r.Some? ==> |r.value.rest| < |s|
    decreases |s|, 0
  {
    if s == [] then None
    else if NULL <= s then Some(Parsed(Null, s[4..]))
    else if TRUE <= s then Some(Parsed(Bool(true), s[4..]))
    else if FALSE <= s then Some(Parsed(Bool(false), s[5..]))
    else if s[0] == QUOTE then
      match ParseString(s[1..]) case None => None case Some(p) => Some(Parsed(String(p.value), p.rest))
    else if s[0] == 91 then
      if |s| > 1 && s[1] == 93 then Some(Parsed(Array([]), s[2..]))
      else match ParseItems(s[1..]) case None => None case Some(p) => Some(Parsed(Array(p.value), p.rest))
    else if s[0] == 123 then
      if |s| > 1 && s[1] == 125 then Some(Parsed(Object([]), s[2..]))
      else match ParseFields(s[1..]) case None => None case Some(p) => Some(Parsed(Object(p.value), p.rest))
    else ParseNumber(s)
  }

  function ParseItems(s: Text): (r: Option<Parsed<seq<Json>>>)
    ensures r.Some? ==> |r.value.rest| < |s|
    decreases |s|, 1
  {
    match Parse(s)
    case None => None
    case Some(p) =>
      if p.rest == [] then None
      else if p.rest[0] == 93 then Some(Parsed([p.value], p.rest[1..]))
      else if p.rest[0] == COMMA then
        match ParseItems(p.rest[1..]) case None => None case Some(t) => Some(Parsed([p.value] + t.value, t.rest))
      else None
  }

  function ParseField(s: Text): (r: Option<Parsed<Field>>)
    ensures r.Some? ==> |r.value.rest| < |s|
    decreases |s|, 1
  {
    if s == [] || s[0] != QUOTE then None
    else match ParseString(s[1..])
      case None => None
      case Some(k) =>
        if k.rest == [] || k.rest[0] != COLON then None
        else match Parse(k.rest[1..]) case None => None case Some(p) => Some(Parsed(Field(k.value, p.value), p.rest))
  }

  function ParseFields(s: Text): (r: Option<Parsed<seq<Field>>>)
    ensures r.Some? ==> |r.value.rest| < |s|
    decreases |s|, 2
  {
    match ParseField(s)
    case None => None
    case Some(p) =>
      if p.rest == [] then None
      else if p.rest[0] == 125 then Some(Parsed([p.value], p.rest[1..]))
      else if p.rest[0] == COMMA then
        match ParseFields(p.rest[1..]) case None => None case Some(t) => Some(Parsed([p.value] + t.value, t.rest))
      else None
  }
}
