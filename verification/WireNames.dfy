/** Names octet by octet: what is written, what compression saves, and how a name is read. */
module WireNames {
  import opened Bytes
  import opened Names
  import opened NameCodec

  // ----- Labels -----

  /** 1 to 63 octets, none a control character, a dot or DEL. */
  predicate ProperLabel(s: bytes) {
    1 <= |s| <= 63 && forall i :: 0 <= i < |s| ==> s[i] >= 32 && s[i] != 46 && s[i] != 127
  }

  predicate ProperLabels(labels: seq<bytes>) {
    forall i :: 0 <= i < |labels| ==> ProperLabel(labels[i])
  }

  /** The labels with a dot between any two. */
  function Dotted(labels: seq<bytes>): bytes {
    if labels == [] then [] else if |labels| == 1 then labels[0] else labels[0] + [46] + Dotted(labels[1..])
  }

  /** Every label behind its length. */
  function LabelsOnWire(labels: seq<bytes>): bytes {
    if labels == [] then [] else [|labels[0]| % 256] + labels[0] + LabelsOnWire(labels[1..])
  }

  lemma {:induction false} LabelIsProper(s: bytes)
    ensures IsLabel(s) <==> ProperLabel(s)
  {
  }

  /** Labels joined by dots form a name, whose first label and parent they give. */
  lemma {:induction false} DottedIsName(labels: seq<bytes>)
    requires labels != [] && ProperLabels(labels)
    ensures var s := Dotted(labels);
      s != [] && Labelled(s) && First(s) == labels[0] && Parent(s) == Dotted(labels[1..])
    decreases |labels|
  {
    hide Labelled, FirstDot, ProperLabel, Join;
    var rest := labels[1..];
    LabelIsProper(labels[0]);
    if rest != [] {
      DottedIsName(rest);
    }
    JoinIs(labels[0], Dotted(rest));
    JoinLabel(labels[0], Dotted(rest));
  }

  lemma {:induction false} JoinIs(a: bytes, b: bytes)
    ensures Join(a, b) == if a == [] then b else if b == [] then a else a + [46] + b
  {
  }

  lemma {:induction false} NameIsDotted(s: bytes) returns (labels: seq<bytes>)
    requires s == [] || Labelled(s)
    ensures ProperLabels(labels) && Dotted(labels) == s && (s == [] <==> labels == [])
    decreases |s|
  {
    hide Labelled, FirstDot, ProperLabel;
    if s == [] {
      labels := [];
    } else {
      NameSplits(s);
      var rest := NameIsDotted(Parent(s));
      LabelIsProper(First(s));
      labels := [First(s)] + rest;
      assert labels[1..] == rest;
      JoinIs(First(s), Parent(s));
    }
  }

  /** A name of some labels takes two octets more than its text: the first length and the terminator. */
  lemma {:induction false} WireSize(labels: seq<bytes>)
    requires labels != []
    ensures |LabelsOnWire(labels)| == |Dotted(labels)| + 1
    decreases |labels|
  {
    if |labels| > 1 {
      WireSize(labels[1..]);
    } else {
      assert labels[1..] == [];
    }
  }

  /** The names with a wire form are those of proper labels that fill at most 255 octets with the terminator. */
  lemma {:induction false} EncodableExactly(s: bytes)
    ensures Encodable(s) <==>
            exists labels :: ProperLabels(labels) && Dotted(labels) == s && |LabelsOnWire(labels)| + 1 <= 255
  {
    hide Labelled, FirstDot, ProperLabel;
    if Encodable(s) {
      var labels := NameIsDotted(s);
      if s != [] { WireSize(labels); }
    }
    forall labels | ProperLabels(labels) && Dotted(labels) == s && |LabelsOnWire(labels)| + 1 <= 255
      ensures Encodable(s)
    {
      if labels != [] {
        DottedIsName(labels);
        WireSize(labels);
      }
    }
  }

  // ----- What is written -----

  /** With nothing to point back to, a name is its labels, each behind its length, and a zero octet. */
  lemma {:induction false} FreshNameOnWire(at: int, labels: seq<bytes>)
    requires ProperLabels(labels)
    ensures Dotted(labels) == [] || Labelled(Dotted(labels))
    ensures EncodeName(at, map[], Dotted(labels)).bytes == LabelsOnWire(labels) + [0]
    decreases |labels|
  {
    hide Labelled, FirstDot, EncodeName, ProperLabel;
    var s := Dotted(labels);
    if labels == [] {
      EncodeNameStops(at, map[], s);
    } else {
      DottedIsName(labels);
      EncodeNameUnfolds(at, map[], s);
      FreshNameOnWire(at + 1 + |First(s)|, labels[1..]);
      ProperSize(labels[0]);
      Concat([|labels[0]|] + labels[0], LabelsOnWire(labels[1..]), [0]);
    }
  }

  lemma {:induction false} ProperSize(label_: bytes)
    requires ProperLabel(label_)
    ensures |label_| % 256 == |label_|
  {
  }

  /** Two octets, the upper two bits set, the others the offset pointed to. */
  function PointerTo(offset: nat): (b: seq<int>)
    ensures |b| == 2
  {
    [192 + offset / 256, offset % 256]
  }

  lemma {:induction false} FiledNameIsPointer(at: int, names: Offsets, s: bytes)
    requires s != [] && Labelled(s) && s in names && names[s] <= 0x3fff
    ensures EncodeName(at, names, s) == Written(PointerTo(names[s]), names)
  {
    hide Labelled, FirstDot;
    EncodeNameStops(at, names, s);
  }

  /** Writing adds entries for the name and what follows in it, and for nothing else. */
  lemma {:induction false} OnlySuffixesAreFiled(at: int, names: Offsets, s: bytes, key: bytes)
    requires s == [] || Labelled(s)
    requires key in EncodeName(at, names, s).names && key !in names
    ensures |key| <= |s|
    decreases |s|
  {
    hide Labelled, FirstDot, EncodeName;
    if s == [] || Reusable(names, s) {
      EncodeNameStops(at, names, s);
    } else {
      EncodeNameUnfolds(at, names, s);
      if key != s {
        OnlySuffixesAreFiled(at + 1 + |First(s)|, names, Parent(s), key);
      }
    }
  }

  /**
    * A name written within the first 16384 octets is never written out again: wherever it is repeated
    * it is a pointer, and to the place where it was first written.
    */
  lemma {:induction false} RepeatedNameIsPointer(at: int, names: Offsets, s: bytes, again: int)
    requires s != [] && Labelled(s) && 0 <= at <= 0x3fff
    ensures var first := EncodeName(at, names, s);
      var second := EncodeName(again, first.names, s);
      && |second.bytes| == 2 && second.bytes[0] >= 192 && second.names == first.names
      && (s !in names ==> (second.bytes[0] as int - 192) * 256 + second.bytes[1] as int == at)
  {
    hide Labelled, FirstDot, EncodeName;
    NameIsFiled(at, names, s);
    FiledNameIsPointer(again, EncodeName(at, names, s).names, s);
  }

  /** A new label in front of a name already written costs the label and a pointer. */
  lemma {:induction false} NewLabelCostsItself(at: int, names: Offsets, label_: bytes, s: bytes, again: int)
    requires s != [] && Labelled(s) && 0 <= at <= 0x3fff && IsLabel(label_) && Join(label_, s) !in names
    ensures Labelled(Join(label_, s)) && Join(label_, s) == label_ + [46] + s
    ensures var first := EncodeName(at, names, s);
      var longer := EncodeName(again, first.names, Join(label_, s)).bytes;
      && |longer| == 1 + |label_| + 2
      && longer[0] == |label_| && longer[1..1 + |label_|] == label_ && longer[1 + |label_|] >= 192
      && (s !in names ==> (longer[1 + |label_|] as int - 192) * 256 + longer[2 + |label_|] as int == at)
  {
    hide Labelled, FirstDot, EncodeName;
    var first, t := EncodeName(at, names, s), Join(label_, s);
    JoinLabel(label_, s);
    if t in first.names {
      OnlySuffixesAreFiled(at, names, s, t);
    }
    EncodeNameUnfolds(again, first.names, t);
    RepeatedNameIsPointer(at, names, s, again + 1 + |label_|);
  }

  /** Position i of a name is where one of its labels begins. */
  predicate LabelStarts(s: bytes, i: nat)
    requires i < |s|
  {
    i == 0 || s[i - 1] == 46
  }

  /** Whatever follows a label of the name is filed too, at its own place, unless something longer was reused. */
  lemma {:induction false} SuffixesAreFiled(at: nat, names: Offsets, s: bytes, i: nat)
    requires s != [] && Labelled(s) && i < |s| && LabelStarts(s, i) && at + i <= 0x3fff
    requires forall j :: 0 <= j <= i && LabelStarts(s, j) ==> s[j..] !in names
    ensures var after := EncodeName(at, names, s).names;
      s[i..] in after && after[s[i..]] == at + i
    decreases |s|
  {
    hide Labelled, EncodeName, FirstDot, LabelStarts;
    WholeName(s);
    EncodeNameUnfolds(at, names, s);
    if i > 0 {
      var rest, n := Parent(s), |First(s)| + 1;
      FirstLabelEnds(s, i);
      forall j | 0 <= j <= i - n && LabelStarts(rest, j) ensures rest[j..] !in names {
        WithinParent(s, n + j);
      }
      WithinParent(s, i);
      SuffixesAreFiled(at + n, names, rest, i - n);
    }
  }

  lemma {:induction false} WholeName(s: bytes)
    requires s != []
    ensures LabelStarts(s, 0) && s[0..] == s
  {
  }

  lemma {:induction false} FirstLabelEnds(s: bytes, i: nat)
    requires 0 < i < |s| && LabelStarts(s, i)
    ensures |First(s)| < i && |Parent(s)| == |s| - |First(s)| - 1
  {
  }

  /** What follows a later label of a name follows it in what is behind the first label too. */
  lemma {:induction false} WithinParent(s: bytes, i: nat)
    requires |First(s)| < i < |s|
    ensures i - |First(s)| - 1 < |Parent(s)| && Parent(s)[i - |First(s)| - 1..] == s[i..]
    ensures LabelStarts(s, i) <==> LabelStarts(Parent(s), i - |First(s)| - 1)
  {
    var n := |First(s)| + 1;
    assert Parent(s) == s[n..];
    assert s[n - 1] == DOT;
    assert s[n..][i - n..] == s[i..];
  }

  // ----- What is read -----

  /**
    * How a name is read, by its first octet: zero ends it; up to 63 is the length of a label, in front of
    * the name behind it; from 192 on it is a pointer, which must lead back and uses up one of the jumps
    * left; and 64 to 191 are no name.
    */
  lemma {:induction false} ReadByOctet(buf: bytes, p: nat, jumps: nat)
    requires p < |buf|
    ensures buf[p] == 0 ==> ReadName(buf, p, jumps) == Some([])
    ensures 1 <= buf[p] <= 63 && p + 1 + buf[p] <= |buf| ==>
      var first, rest := buf[p + 1..p + 1 + buf[p]], ReadName(buf, p + 1 + buf[p], jumps);
      ReadName(buf, p, jumps) ==
        if !ProperLabel(first) || rest.None? then None
        else if rest.value == [] then Some(first) else Some(first + [46] + rest.value)
    ensures 1 <= buf[p] <= 63 && p + 1 + buf[p] > |buf| ==> ReadName(buf, p, jumps) == None
    ensures 64 <= buf[p] <= 191 ==> ReadName(buf, p, jumps) == None
    ensures buf[p] >= 192 ==>
      ReadName(buf, p, jumps) ==
        if p + 1 == |buf| || jumps == 0 then None
        else
          var target := (buf[p] as int - 192) * 256 + buf[p + 1] as int;
          if target < p then ReadName(buf, target, jumps - 1) else None
  {
    if 1 <= buf[p] <= 63 && p + 1 + buf[p] <= |buf| {
      LabelIsProper(buf[p + 1..p + 1 + buf[p]]);
    }
  }

  /** A name ends at its zero octet, or with the second octet of its first pointer. */
  lemma {:induction false} NameEndsWhereItStands(buf: bytes, p: nat, labels: seq<bytes>)
    requires ProperLabels(labels)
    requires p + |LabelsOnWire(labels)| < |buf| && buf[p..p + |LabelsOnWire(labels)|] == LabelsOnWire(labels)
    ensures var end := p + |LabelsOnWire(labels)|;
      && (buf[end] == 0 ==> Extent(buf, p) == |LabelsOnWire(labels)| + 1)
      && (buf[end] >= 192 ==> Extent(buf, p) == |LabelsOnWire(labels)| + 2)
    decreases |labels|
  {
    hide LabelsOnWire, Extent, ReadName;
    FirstOnWire(labels);
    if labels == [] {
      if buf[p] == 0 || buf[p] >= 192 { ReadStopUnfolds(buf, p, 0); }
    } else {
      var w, n := LabelsOnWire(labels), |labels[0]|;
      assert buf[p] == buf[p..p + |w|][0] == n;
      assert buf[p + 1 + n..p + |w|] == buf[p..p + |w|][1 + n..];
      ReadLabelUnfolds(buf, p, 0);
      NameEndsWhereItStands(buf, p + 1 + n, labels[1..]);
    }
  }

  lemma {:induction false} FirstOnWire(labels: seq<bytes>)
    requires ProperLabels(labels)
    ensures labels == [] ==> LabelsOnWire(labels) == []
    ensures labels != [] ==>
      var w, n := LabelsOnWire(labels), |labels[0]|;
      && 1 <= n <= 63 && |w| == 1 + n + |LabelsOnWire(labels[1..])|
      && w[0] == n && w[1 + n..] == LabelsOnWire(labels[1..])
  {
    if labels != [] {
      assert ProperLabel(labels[0]);
      assert LabelsOnWire(labels) == [|labels[0]|] + labels[0] + LabelsOnWire(labels[1..]);
    }
  }

  /** From p on n pointers lead back, one to the next, and the last to a zero octet. */
  predicate ChainOf(buf: bytes, p: nat, n: nat)
    decreases n
  {
    p < |buf| &&
    if n == 0 then buf[p] == 0
    else
      && buf[p] >= 192 && p + 1 < |buf|
      && (buf[p] as int - 192) * 256 + buf[p + 1] as int < p
      && ChainOf(buf, (buf[p] as int - 192) * 256 + buf[p + 1] as int, n - 1)
  }

  lemma {:induction false} ChainIsRead(buf: bytes, p: nat, n: nat, jumps: nat)
    requires ChainOf(buf, p, n)
    ensures ReadName(buf, p, jumps) == if n <= jumps then Some([]) else None
    decreases n
  {
    hide ReadName;
    ReadByOctet(buf, p, jumps);
    if n > 0 && jumps > 0 {
      ChainIsRead(buf, (buf[p] as int - 192) * 256 + buf[p + 1] as int, n - 1, jumps - 1);
    }
  }

  /** A name is followed over 128 pointers and no further. */
  lemma {:induction false} PointersAreCounted(buf: bytes, p: nat, n: nat)
    requires ChainOf(buf, p, n)
    ensures DecodeName(buf, p) == if n <= 128 then Some(Decoded([], if n == 0 then 1 else 2)) else None
  {
    hide ReadName;
    ChainIsRead(buf, p, n, MAX_JUMPS);
  }

  // ----- Case -----

  /** Equal but for letters in the other case. */
  predicate SameUpToCase(a: bytes, b: bytes) {
    && |a| == |b|
    && forall i :: 0 <= i < |a| ==>
         a[i] == b[i] || (65 <= a[i] <= 90 && b[i] == a[i] + 32) || (65 <= b[i] <= 90 && a[i] == b[i] + 32)
  }

  lemma {:induction false} SameUpToCaseExactly(a: bytes, b: bytes)
    ensures Lower(a) == Lower(b) <==> SameUpToCase(a, b)
  {
    if Lower(a) == Lower(b) {
      forall i | 0 <= i < |a| ensures LowerByte(a[i]) == LowerByte(b[i]) {
        assert Lower(a)[i] == Lower(b)[i];
      }
    }
    if SameUpToCase(a, b) {
      forall i | 0 <= i < |a| ensures Lower(a)[i] == Lower(b)[i] {
      }
    }
  }

  lemma {:induction false} LowerHasNoCapitals(s: bytes)
    ensures forall i :: 0 <= i < |Lower(s)| ==> !(65 <= Lower(s)[i] <= 90)
  {
  }
}
