/** Domain names in their dotted in-memory form, and which of them have a wire form. */
module Names {
  import opened Bytes

  const DOT: byte := 46
  const MAX_NAME := 253
  const MAX_LABEL := 63

  /** The index of the first dot, or the length of the string when there is none. */
  function FirstDot(s: bytes): (i: nat)
    ensures i <= |s|
    ensures forall k :: 0 <= k < i ==> s[k] != DOT
    ensures i < |s| ==> s[i] == DOT
  {
    if s == [] || s[0] == DOT then 0 else 1 + FirstDot(s[1..])
  }

  predicate LabelByte(c: byte) {
    0x20 <= c && c != DOT && c != 0x7f
  }

  predicate LabelBytes(s: bytes) {
    forall i :: 0 <= i < |s| ==> LabelByte(s[i])
  }

  predicate IsLabel(s: bytes) {
    1 <= |s| <= MAX_LABEL && LabelBytes(s)
  }

  lemma {:induction false} IsLabelMeans(s: bytes)
    ensures IsLabel(s) <==> 1 <= |s| <= MAX_LABEL && LabelBytes(s)
  {
  }

  /** One or more labels separated by single dots, without a trailing dot. */
  predicate Labelled(s: bytes)
    decreases |s|
  {
    var d := FirstDot(s);
    IsLabel(s[..d]) && (d < |s| ==> Labelled(s[d + 1..]))
  }

  /** The names that have a wire form: the root, or labels filling at most 255 octets. */
  predicate Encodable(s: bytes) {
    s == [] || (|s| <= MAX_NAME && Labelled(s))
  }

  function First(s: bytes): (f: bytes)
    ensures f <= s
  {
    s[..FirstDot(s)]
  }

  /** What follows the first label, or the root when there is only one. */
  function Parent(s: bytes): (p: bytes)
    requires s != []
    ensures |p| < |s|
  {
    var d := FirstDot(s);
    if d < |s| then s[d + 1..] else []
  }

  lemma {:induction false} LabelledUnfolds(s: bytes)
    requires s != []
    ensures Labelled(s) <==> IsLabel(First(s)) && (|First(s)| < |s| ==> Labelled(Parent(s)))
    ensures !Labelled([])
  {
  }

  function LabelCount(s: bytes): nat
    decreases |s|
  {
    if s == [] then 0 else 1 + LabelCount(Parent(s))
  }

  /** Two names, or a label and a name, joined by a dot unless one is the root. */
  function Join(a: bytes, b: bytes): bytes {
    if a == [] then b else if b == [] then a else a + [DOT] + b
  }

  lemma {:induction false} JoinAssociates(a: bytes, b: bytes, c: bytes)
    ensures Join(Join(a, b), c) == Join(a, Join(b, c))
  {
    if a != [] && b != [] && c != [] {
      assert a + [DOT] + b + [DOT] + c == a + [DOT] + (b + [DOT] + c);
    }
  }

  lemma {:induction false} FirstDotIs(s: bytes, d: nat)
    requires d <= |s| && forall k :: 0 <= k < d ==> s[k] != DOT
    requires d < |s| ==> s[d] == DOT
    ensures FirstDot(s) == d
  {
  }

  /** A name is its first label joined to its parent. */
  lemma {:induction false} NameSplits(s: bytes)
    requires s != [] && Labelled(s)
    ensures IsLabel(First(s)) && s == Join(First(s), Parent(s))
    ensures Parent(s) == [] || Labelled(Parent(s))
    ensures |s| == |First(s)| + (if Parent(s) == [] then 0 else 1 + |Parent(s)|)
  {
    var d := FirstDot(s);
    if d < |s| {
      assert s == s[..d] + [DOT] + s[d + 1..];
    } else {
      assert s[..d] == s;
    }
  }

  /** A label joined to a well-formed parent is a well-formed name with that label first. */
  lemma {:induction false} JoinLabel(first: bytes, rest: bytes)
    requires IsLabel(first) && (rest == [] || Labelled(rest))
    ensures Labelled(Join(first, rest))
    ensures First(Join(first, rest)) == first && Parent(Join(first, rest)) == rest
  {
    var s := Join(first, rest);
    FirstDotIs(s, |first|);
    assert s[..|first|] == first;
    if rest != [] {
      assert s[|first| + 1..] == rest;
    }
  }

  /** A name of n labels is at least 2n - 1 octets long, so at most 127 labels are possible. */
  lemma {:induction false} LabelCountBound(s: bytes)
    requires Labelled(s)
    ensures 1 <= LabelCount(s) && 2 * LabelCount(s) - 1 <= |s|
    ensures Encodable(s) ==> LabelCount(s) <= 127
    decreases |s|
  {
    NameSplits(s);
    if Parent(s) != [] {
      LabelCountBound(Parent(s));
    }
  }
}
