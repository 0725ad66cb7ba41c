/** The order in which texts are compared: by code unit, shorter prefix first. */
module Ordering {
  predicate CodesBefore(a: seq<int>, b: seq<int>) {
    if b == [] then false
    else if a == [] then true
    else if a[0] != b[0] then a[0] < b[0]
    else CodesBefore(a[1..], b[1..])
  }

  lemma {:induction false} CodeOrderIsTotal(a: seq<int>, b: seq<int>)
    ensures !(CodesBefore(a, b) && CodesBefore(b, a))
    ensures a == b <==> !CodesBefore(a, b) && !CodesBefore(b, a)
  {
    if a != [] && b != [] && a[0] == b[0] {
      CodeOrderIsTotal(a[1..], b[1..]);
      assert a == [a[0]] + a[1..] && b == [b[0]] + b[1..];
    }
  }

  lemma {:induction false} CodeOrderIsTransitive(a: seq<int>, b: seq<int>, c: seq<int>)
    requires CodesBefore(a, b) && CodesBefore(b, c)
    ensures CodesBefore(a, c)
  {
    if a != [] && a[0] == b[0] == c[0] {
      CodeOrderIsTransitive(a[1..], b[1..], c[1..]);
    }
  }

  function Codes(s: string): seq<int> {
    seq(|s|, i requires 0 <= i < |s| => s[i] as int)
  }

  predicate TextBefore(a: string, b: string) {
    CodesBefore(Codes(a), Codes(b))
  }

  lemma TextOrderIsTotal(a: string, b: string)
    ensures !(TextBefore(a, b) && TextBefore(b, a))
    ensures a == b <==> !TextBefore(a, b) && !TextBefore(b, a)
  {
    CodeOrderIsTotal(Codes(a), Codes(b));
    if Codes(a) == Codes(b) {
      assert forall i | 0 <= i < |a| :: Codes(a)[i] == a[i] as int && Codes(b)[i] == b[i] as int;
    }
  }

  lemma TextOrderIsTransitive(a: string, b: string, c: string)
    requires TextBefore(a, b) && TextBefore(b, c)
    ensures TextBefore(a, c)
  {
    CodeOrderIsTransitive(Codes(a), Codes(b), Codes(c));
  }

  /** The texts agree up to some place; there the first ends and the second does not, or has the
      smaller character. */
  ghost predicate DiffersBelow(a: string, b: string, i: nat) {
    && i <= |a| && i < |b| && a[..i] == b[..i]
    && (i == |a| || a[i] as int < b[i] as int)
  }

  lemma TextOrderMeans(a: string, b: string)
    ensures TextBefore(a, b) <==> exists i: nat :: DiffersBelow(a, b, i)
  {
    if TextBefore(a, b) {
      var i := FirstDifference(a, b);
    }
    if i: nat :| DiffersBelow(a, b, i) { BelowIsBefore(a, b, i); }
  }

  lemma TailCodes(s: string)
    requires s != ""
    ensures Codes(s)[1..] == Codes(s[1..]) && Codes(s)[0] == s[0] as int
  {
  }

  lemma {:induction false} FirstDifference(a: string, b: string) returns (i: nat)
    requires TextBefore(a, b)
    ensures DiffersBelow(a, b, i)
    decreases |a|
  {
    if a == "" || a[0] != b[0] {
      i := 0;
    } else {
      TailCodes(a);
      TailCodes(b);
      var j := FirstDifference(a[1..], b[1..]);
      i := j + 1;
      assert a[..i] == [a[0]] + a[1..][..j] && b[..i] == [b[0]] + b[1..][..j];
    }
  }

  lemma {:induction false} BelowIsBefore(a: string, b: string, i: nat)
    requires DiffersBelow(a, b, i)
    ensures TextBefore(a, b)
    decreases |a|
  {
    if i > 0 {
      TailCodes(a);
      TailCodes(b);
      assert a[..i][0] == a[0] && b[..i][0] == b[0];
      assert a[1..][..i - 1] == a[..i][1..] && b[1..][..i - 1] == b[..i][1..];
      BelowIsBefore(a[1..], b[1..], i - 1);
    }
  }
}
