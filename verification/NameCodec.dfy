/** Names on the wire: compression while writing, pointer chasing while reading. */
module NameCodec {
  import opened Bytes
  import opened Names

  type Offsets = map<bytes, nat>

  const MAX_POINTER := 0x3fff
  const MAX_JUMPS := 128

  // ----- Writing -----

  /** Bytes to append, and the compression map afterwards. */
  datatype Written = Written(bytes: bytes, names: Offsets)

  function Pointer(offset: nat): (b: bytes)
    requires offset <= MAX_POINTER
    ensures |b| == 2
  {
    [0xc0 + offset / 0x100, offset % 0x100]
  }

  /** A suffix the code would point back to. */
  predicate Reusable(names: Offsets, s: bytes) {
    s in names && names[s] <= MAX_POINTER
  }

  function LabelOctets(first: bytes): (b: bytes)
    requires |first| <= MAX_LABEL
    ensures |b| == 1 + |first|
  {
    [|first|] + first
  }

  /** The map once `s` is known to start `at` octets into the message, if a pointer can reach that far. */
  function Filed(names: Offsets, s: bytes, at: int): Offsets {
    if 0 <= at <= MAX_POINTER then names[s := at] else names
  }

  /** The wire form of a name written `at` octets into the message, compressed against `names`. */
  function EncodeName(at: int, names: Offsets, s: bytes): (w: Written)
    requires s == [] || Labelled(s)
    ensures 1 <= |w.bytes| <= |s| + 2
    decreases |s|
  {
    if s == [] then
      Written([0], names)
    else if Reusable(names, s) then
      Written(Pointer(names[s]), names)
    else
      NameSplits(s);
      var rest := EncodeName(at + 1 + |First(s)|, names, Parent(s));
      Written(LabelOctets(First(s)) + rest.bytes, Filed(rest.names, s, at))
  }

  lemma {:induction false} EncodeNameStops(at: int, names: Offsets, s: bytes)
    requires s == [] || (Labelled(s) && Reusable(names, s))
    ensures EncodeName(at, names, s) == Written(if s == [] then [0] else Pointer(names[s]), names)
  {
  }

  lemma {:induction false} EncodeNameUnfolds(at: int, names: Offsets, s: bytes)
    requires s != [] && Labelled(s) && !Reusable(names, s)
    ensures IsLabel(First(s)) && (Parent(s) == [] || Labelled(Parent(s)))
    ensures var rest := EncodeName(at + 1 + |First(s)|, names, Parent(s));
      EncodeName(at, names, s) == Written(LabelOctets(First(s)) + rest.bytes, Filed(rest.names, s, at))
  {
    NameSplits(s);
  }

  /** Filing a longer name first changes nothing about how a shorter one is written. */
  lemma {:induction false} EarlierEntryIsInert(at: int, names: Offsets, key: bytes, val: nat, s: bytes)
    requires s == [] || Labelled(s)
    requires |s| < |key|
    ensures var w := EncodeName(at, names, s);
      EncodeName(at, names[key := val], s) == Written(w.bytes, w.names[key := val])
    decreases |s|
  {
    hide EncodeName, Labelled, FirstDot;
    if s == [] || Reusable(names, s) {
      EncodeNameStops(at, names, s);
      EncodeNameStops(at, names[key := val], s);
    } else {
      EncodeNameUnfolds(at, names, s);
      EncodeNameUnfolds(at, names[key := val], s);
      EarlierEntryIsInert(at + 1 + |First(s)|, names, key, val, Parent(s));
      var rest := EncodeName(at + 1 + |First(s)|, names, Parent(s));
      assert s != key;
      assert Filed(rest.names[key := val], s, at) == Filed(rest.names, s, at)[key := val];
    }
  }

  /** The same step with the entry filed before the rest is written, which is the order of the code. */
  lemma {:induction false} EncodeNameSteps(at: int, names: Offsets, s: bytes)
    requires s != [] && Labelled(s) && !Reusable(names, s)
    ensures IsLabel(First(s)) && (Parent(s) == [] || Labelled(Parent(s)))
    ensures var next := EncodeName(at + 1 + |First(s)|, Filed(names, s, at), Parent(s));
      EncodeName(at, names, s) == Written(LabelOctets(First(s)) + next.bytes, next.names)
  {
    hide EncodeName, Labelled, FirstDot;
    EncodeNameUnfolds(at, names, s);
    if 0 <= at <= MAX_POINTER {
      EarlierEntryIsInert(at + 1 + |First(s)|, names, s, at, Parent(s));
    }
  }

  /** A name written where a pointer can reach it is filed, where it stands or where it stood already. */
  lemma {:induction false} NameIsFiled(at: int, names: Offsets, s: bytes)
    requires s != [] && Labelled(s) && 0 <= at <= 0x3fff
    ensures var after := EncodeName(at, names, s).names;
      && s in after && after[s] <= 0x3fff
      && (s !in names ==> after[s] == at)
      && (s in names && names[s] <= 0x3fff ==> after[s] == names[s])
  {
    hide Labelled, FirstDot, EncodeName;
    if Reusable(names, s) {
      EncodeNameStops(at, names, s);
    } else {
      EncodeNameUnfolds(at, names, s);
    }
  }

  // ----- Reading -----

  function PointerTarget(buf: bytes, p: nat): nat
    requires p + 2 <= |buf| && 0xc0 <= buf[p]
  {
    (buf[p] as int - 0xc0) * 0x100 + buf[p + 1] as int
  }

  /**
    * The name found at p, following at most `jumps` pointers. A pointer must lead to a smaller
    * offset, but labels lead forward again, so it is the budget of jumps that ends the reading.
    */
  function ReadName(buf: bytes, p: nat, jumps: nat): Option<bytes>
    decreases jumps, |buf| - p
  {
    if p >= |buf| then None
    else if buf[p] >= 0xc0 then
      if jumps == 0 || p + 2 > |buf| || PointerTarget(buf, p) >= p then None
      else ReadName(buf, PointerTarget(buf, p), jumps - 1)
    else if buf[p] >= 0x40 then None
    else if buf[p] == 0 then Some([])
    else if p + 1 + buf[p] > |buf| || !LabelBytes(buf[p + 1..p + 1 + buf[p]]) then None
    else
      match ReadName(buf, p + 1 + buf[p], jumps)
      case None => None
      case Some(rest) => Some(Join(buf[p + 1..p + 1 + buf[p]], rest))
  }

  /** The octets a name occupies where it stands: up to its terminator or its first pointer. */
  function Extent(buf: bytes, p: nat): nat
    decreases |buf| - p
  {
    if p >= |buf| then 0
    else if buf[p] >= 0xc0 then 2
    else if buf[p] == 0 then 1
    else 1 + buf[p] + Extent(buf, p + 1 + buf[p])
  }

  datatype Decoded = Decoded(name: bytes, consumed: nat)

  function DecodeName(buf: bytes, p: nat): Option<Decoded> {
    match ReadName(buf, p, MAX_JUMPS)
    case None => None
    case Some(s) => if |s| <= MAX_NAME then Some(Decoded(s, Extent(buf, p))) else None
  }

  /** A name already decoded, in front of whatever the rest turns out to be. */
  function Prefixed(decoded: bytes, rest: Option<bytes>): Option<bytes> {
    if rest.None? then None else Some(Join(decoded, rest.value))
  }

  // ----- Facts about reading -----

  lemma {:induction false} ReadLabelUnfolds(buf: bytes, p: nat, jumps: nat)
    requires p < |buf| && 1 <= buf[p] < 0x40 && p + 1 + buf[p] <= |buf|
    ensures var first := buf[p + 1..p + 1 + buf[p]];
      && ReadName(buf, p, jumps) ==
         (if LabelBytes(first) then Prefixed(first, ReadName(buf, p + 1 + buf[p], jumps)) else None)
      && Extent(buf, p) == 1 + buf[p] + Extent(buf, p + 1 + buf[p])
  {
  }

  lemma {:induction false} PrefixedTwice(a: bytes, b: bytes, rest: Option<bytes>)
    requires b != []
    ensures Prefixed(a, Prefixed(b, rest)) == Prefixed(Join(a, b), rest)
    ensures |Join(a, b)| == (if a == [] then 0 else |a| + 1) + |b|
  {
    if rest.Some? { JoinAssociates(a, b, rest.value); }
  }

  lemma {:induction false} PrefixedEnds(a: bytes, rest: Option<bytes>)
    ensures Prefixed(a, None) == None && Prefixed(a, Some([])) == Some(a) && Prefixed([], rest) == rest
    ensures Prefixed(a, rest).Some? ==> |a| <= |Prefixed(a, rest).value|
  {
  }

  lemma {:induction false} ReadStopUnfolds(buf: bytes, p: nat, jumps: nat)
    requires p >= |buf| || buf[p] == 0 || buf[p] >= 0x40 || p + 1 + buf[p] > |buf|
    ensures ReadName(buf, p, jumps) ==
      if p >= |buf| then None
      else if buf[p] == 0 then Some([])
      else if buf[p] < 0xc0 || jumps == 0 || p + 2 > |buf| || PointerTarget(buf, p) >= p then None
      else ReadName(buf, PointerTarget(buf, p), jumps - 1)
    ensures Extent(buf, p) ==
            if p >= |buf| then 0 else if buf[p] == 0 then 1 else if buf[p] >= 0xc0 then 2 else Extent(buf, p)
  {
  }

  lemma {:induction false} ReadNameIsWellFormed(buf: bytes, p: nat, jumps: nat)
    requires ReadName(buf, p, jumps).Some?
    ensures var s := ReadName(buf, p, jumps).value; s == [] || Labelled(s)
    ensures p < |buf| && 1 <= Extent(buf, p) <= |buf| - p
    decreases jumps, |buf| - p
  {
    if buf[p] >= 0xc0 {
      ReadNameIsWellFormed(buf, PointerTarget(buf, p), jumps - 1);
    } else if buf[p] != 0 {
      ReadNameIsWellFormed(buf, p + 1 + buf[p], jumps);
      JoinLabel(buf[p + 1..p + 1 + buf[p]], ReadName(buf, p + 1 + buf[p], jumps).value);
    }
  }

  /** What reads as a name keeps reading as that name when the message grows or jumps are granted. */
  lemma {:induction false} ReadNameIsStable(buf: bytes, ext: bytes, p: nat, jumps: nat, more: nat)
    requires ReadName(buf, p, jumps).Some? && jumps <= more
    ensures ReadName(buf + ext, p, more) == ReadName(buf, p, jumps)
    ensures Extent(buf + ext, p) == Extent(buf, p)
    decreases jumps, |buf| - p
  {
    hide ReadName, Extent;
    var big := buf + ext;
    var n: int := if p < |buf| then buf[p] else 0;
    if p >= |buf| || n == 0 || n >= 0x40 || p + 1 + n > |buf| {
      ReadStopUnfolds(buf, p, jumps);
      ReadStopUnfolds(big, p, more);
      if n >= 0xc0 {
        assert big[p + 1] == buf[p + 1];
        ReadNameIsStable(buf, ext, PointerTarget(buf, p), jumps - 1, more - 1);
      }
    } else {
      assert big[p + 1..p + 1 + n] == buf[p + 1..p + 1 + n];
      ReadLabelUnfolds(buf, p, jumps);
      ReadLabelUnfolds(big, p, more);
      ReadNameIsStable(buf, ext, p + 1 + n, jumps, more);
    }
  }

  // ----- The compression map -----

  /** At `off` stands a literal label, and the name starting there is s, one jump or fewer per later label. */
  predicate Anchored(buf: bytes, off: nat, s: bytes) {
    && off < |buf| && 1 <= buf[off] < 0x40
    && s != [] && Labelled(s)
    && ReadName(buf, off, LabelCount(s) - 1) == Some(s)
  }

  /** Every entry of the map points at the very name it is filed under. */
  predicate Faithful(buf: bytes, names: Offsets) {
    forall k :: k in names ==> names[k] <= MAX_POINTER && Anchored(buf, names[k], k)
  }

  lemma {:induction false} AnchoredIsStable(buf: bytes, ext: bytes, off: nat, s: bytes)
    requires Anchored(buf, off, s)
    ensures Anchored(buf + ext, off, s)
  {
    ReadNameIsStable(buf, ext, off, LabelCount(s) - 1, LabelCount(s) - 1);
  }

  lemma {:induction false} FaithfulIsStable(buf: bytes, ext: bytes, names: Offsets)
    requires Faithful(buf, names)
    ensures Faithful(buf + ext, names)
  {
    forall k | k in names
      ensures Anchored(buf + ext, names[k], k)
    {
      AnchoredIsStable(buf, ext, names[k], k);
    }
  }

  /**
    * Writing a name keeps the map faithful, and the name written reads back as itself from where it
    * was written, taking no more jumps than it has labels, and occupying exactly the octets written.
    */
  lemma {:induction false} WriteNameReadsBack(buf: bytes, names: Offsets, s: bytes, out: bytes)
    requires Faithful(buf, names)
    requires s == [] || Labelled(s)
    requires out == buf + EncodeName(|buf|, names, s).bytes
    ensures Faithful(out, EncodeName(|buf|, names, s).names)
    ensures ReadName(out, |buf|, LabelCount(s)) == Some(s)
    ensures Extent(out, |buf|) == |EncodeName(|buf|, names, s).bytes|
    decreases |s|
  {
    if s == [] || Reusable(names, s) {
      WriteTerminatorReadsBack(buf, names, s, out);
    } else {
      WriteLabelReadsBack(buf, names, s, out);
    }
  }

  /** The case in which a literal label is written and the parent follows it. */
  lemma {:induction false} WriteLabelReadsBack(buf: bytes, names: Offsets, s: bytes, out: bytes)
    requires Faithful(buf, names)
    requires s != [] && Labelled(s) && !Reusable(names, s)
    requires out == buf + EncodeName(|buf|, names, s).bytes
    ensures Faithful(out, EncodeName(|buf|, names, s).names)
    ensures ReadName(out, |buf|, LabelCount(s)) == Some(s)
    ensures Extent(out, |buf|) == |EncodeName(|buf|, names, s).bytes|
    decreases |s|, 0
  {
    hide ReadName, Extent, Faithful, EncodeName, FirstDot, Labelled, First, Parent, LabelCount, LabelOctets, Filed,
         IsLabel;
    EncodeNameUnfolds(|buf|, names, s);
    ShortLabel(First(s));
    var mid := buf + LabelOctets(First(s));
    var rest := EncodeName(|mid|, names, Parent(s));
    LabelStands(buf, First(s), rest.bytes, out);
    FaithfulIsStable(buf, LabelOctets(First(s)), names);
    WriteNameReadsBack(mid, names, Parent(s), out);
    LabelStep(out, rest.names, |buf|, s);
  }

  lemma {:induction false} ShortLabel(s: bytes)
    requires IsLabel(s)
    ensures 1 <= |s| <= MAX_LABEL
  {
  }

  lemma {:induction false} LabelStands(buf: bytes, first: bytes, rest: bytes, out: bytes)
    requires |first| <= MAX_LABEL && out == buf + (LabelOctets(first) + rest)
    ensures out == buf + LabelOctets(first) + rest
    ensures out[|buf|] == |first| && out[|buf| + 1..|buf| + 1 + |first|] == first
  {
    Concat(buf, LabelOctets(first), rest);
    assert out[|buf|..|buf| + 1 + |first|] == LabelOctets(first);
    SliceOfSlice(out, |buf|, 1 + |first|, 1, 1 + |first|);
  }

  /** The two cases in which nothing more than a terminator or a pointer is written. */
  lemma {:induction false} WriteTerminatorReadsBack(buf: bytes, names: Offsets, s: bytes, out: bytes)
    requires Faithful(buf, names)
    requires s == [] || (Labelled(s) && s in names)
    requires out == buf + EncodeName(|buf|, names, s).bytes
    ensures Faithful(out, names) && EncodeName(|buf|, names, s).names == names
    ensures ReadName(out, |buf|, LabelCount(s)) == Some(s)
    ensures Extent(out, |buf|) == |EncodeName(|buf|, names, s).bytes|
  {
    hide ReadName, Extent, EncodeName, Labelled, FirstDot, Faithful, PointerTarget, Pointer;
    if s != [] { FaithfulEntry(buf, names, s); }
    EncodeNameStops(|buf|, names, s);
    var w := EncodeName(|buf|, names, s).bytes;
    FaithfulIsStable(buf, w, names);
    if s == [] {
      assert out[|buf|] == w[0];
    } else {
      FaithfulEntry(out, names, s);
      SliceOfPrefix(buf, w, out);
      PointerIsRead(out, |buf|, names[s]);
    }
    ReadStopUnfolds(out, |buf|, LabelCount(s));
  }

  lemma {:induction false} FaithfulEntry(buf: bytes, names: Offsets, s: bytes)
    requires Faithful(buf, names) && s in names
    ensures names[s] < |buf| && names[s] <= MAX_POINTER && s != []
    ensures ReadName(buf, names[s], LabelCount(s) - 1) == Some(s)
  {
    hide ReadName;
  }

  lemma {:induction false} PointerIsRead(out: bytes, p: nat, offset: nat)
    requires offset <= MAX_POINTER && p + 2 <= |out| && out[p..p + 2] == Pointer(offset)
    ensures out[p] >= 0xc0 && PointerTarget(out, p) == offset
  {
    assert out[p] == out[p..p + 2][0] && out[p + 1] == out[p..p + 2][1];
  }

  /** The part of WriteNameReadsBack that puts a literal label in front of a parent already in place. */
  lemma {:induction false} LabelStep(out: bytes, names: Offsets, p: nat, s: bytes)
    requires s != [] && Labelled(s) && p + 1 + |First(s)| <= |out|
    requires out[p] == |First(s)| && out[p + 1..p + 1 + |First(s)|] == First(s)
    requires ReadName(out, p + 1 + |First(s)|, LabelCount(Parent(s))) == Some(Parent(s))
    requires Faithful(out, names)
    ensures ReadName(out, p, LabelCount(s)) == Some(s)
    ensures Extent(out, p) == 1 + |First(s)| + Extent(out, p + 1 + |First(s)|)
    ensures Faithful(out, Filed(names, s, p))
  {
    hide ReadName, Extent, Faithful, FirstDot, Labelled, LabelBytes, Join;
    NameSplits(s);
    LabelThenName(out, p, First(s), Parent(s), LabelCount(Parent(s)));
    ReadNameMoreJumps(out, p, LabelCount(Parent(s)), LabelCount(s));
    if p <= MAX_POINTER {
      AnchorsName(out, names, p, s);
    }
  }

  lemma {:induction false} ReadNameMoreJumps(buf: bytes, p: nat, jumps: nat, more: nat)
    requires ReadName(buf, p, jumps).Some? && jumps <= more
    ensures ReadName(buf, p, more) == ReadName(buf, p, jumps)
  {
    ReadNameIsStable(buf, [], p, jumps, more);
    assert buf + [] == buf;
  }

  lemma {:induction false} AnchorsName(buf: bytes, names: Offsets, off: nat, s: bytes)
    requires Faithful(buf, names) && off <= MAX_POINTER && Anchored(buf, off, s)
    ensures Faithful(buf, names[s := off])
  {
  }

  /** A label standing in front of a name reads as the two joined. */
  lemma {:induction false} LabelThenName(out: bytes, p: nat, first: bytes, parent: bytes, jumps: nat)
    requires IsLabel(first) && p + 1 + |first| <= |out|
    requires out[p] == |first| && out[p + 1..p + 1 + |first|] == first
    requires ReadName(out, p + 1 + |first|, jumps) == Some(parent)
    ensures ReadName(out, p, jumps) == Some(Join(first, parent))
    ensures Extent(out, p) == 1 + |first| + Extent(out, p + 1 + |first|)
  {
    hide ReadName, Extent;
    ReadLabelUnfolds(out, p, jumps);
  }

  /** Any encodable name decodes, within the jump limit and at its own length, however it was compressed. */
  lemma {:induction false} DecodeInvertsEncode(buf: bytes, names: Offsets, s: bytes, ext: bytes)
    requires Faithful(buf, names) && Encodable(s)
    ensures var w := EncodeName(|buf|, names, s);
      DecodeName(buf + w.bytes + ext, |buf|) == Some(Decoded(s, |w.bytes|))
  {
    var w := EncodeName(|buf|, names, s);
    WriteNameReadsBack(buf, names, s, buf + w.bytes);
    if s != [] { LabelCountBound(s); }
    ReadNameIsStable(buf + w.bytes, ext, |buf|, LabelCount(s), MAX_JUMPS);
  }

  /** Every pointer written leads to a literal label, so 127 jumps are enough for any encodable name. */
  lemma {:induction false} JumpBudgetSuffices(buf: bytes, names: Offsets, s: bytes, ext: bytes)
    requires Faithful(buf, names) && Encodable(s)
    ensures ReadName(buf + EncodeName(|buf|, names, s).bytes + ext, |buf|, 127) == Some(s)
  {
    hide ReadName, EncodeName, Faithful, Extent;
    var w := EncodeName(|buf|, names, s);
    WriteNameReadsBack(buf, names, s, buf + w.bytes);
    if s != [] { LabelCountBound(s); }
    ReadNameIsStable(buf + w.bytes, ext, |buf|, LabelCount(s), 127);
  }

  /**
    * Pointing backward does not by itself rule out cycles: here the pointer at 2 leads back to the
    * label at 0, which leads forward to the pointer again. Only the budget of jumps ends the reading.
    */
  lemma {:induction false} BackwardPointersCanCycle(jumps: nat)
    ensures var buf: bytes := [1, 97, 0xc0, 0];
      && PointerTarget(buf, 2) == 0 && ReadName(buf, 0, jumps) == None
      && (jumps > 0 ==> ReadName(buf, 2, jumps) == ReadName(buf, 0, jumps - 1))
      && Prefixed([97], ReadName(buf, 2, jumps)) == ReadName(buf, 0, jumps)
  {
    hide ReadName;
    var buf: bytes := [1, 97, 0xc0, 0];
    if jumps > 0 { BackwardPointersCanCycle(jumps - 1); }
    ReadLabelUnfolds(buf, 0, jumps);
    ReadStopUnfolds(buf, 2, jumps);
    assert buf[1..2] == [97];
  }

  /** The names the decoder can return are exactly the names the encoder accepts. */
  lemma {:induction false} DecodableNames(s: bytes)
    ensures Encodable(s) <==> exists buf, p :: DecodeName(buf, p).Some? && DecodeName(buf, p).value.name == s
  {
    if Encodable(s) {
      DecodeInvertsEncode([], map[], s, []);
      var buf := [] + EncodeName(0, map[], s).bytes + [];
      assert DecodeName(buf, 0).Some? && DecodeName(buf, 0).value.name == s;
    }
    forall buf, p | DecodeName(buf, p).Some? && DecodeName(buf, p).value.name == s
      ensures Encodable(s)
    {
      ReadNameIsWellFormed(buf, p, MAX_JUMPS);
    }
  }

  /** A decoded name is encodable and consumes at least one octet and none past the end. */
  lemma {:induction false} DecodeNameBounds(buf: bytes, p: nat)
    requires DecodeName(buf, p).Some?
    ensures Encodable(DecodeName(buf, p).value.name)
    ensures 1 <= DecodeName(buf, p).value.consumed <= |buf| - p
  {
    ReadNameIsWellFormed(buf, p, MAX_JUMPS);
  }

  // ----- The code -----

  function Overwritten(b: bytes, i: nat, v: uint16): (r: bytes)
    requires i + 2 <= |b|
    ensures |r| == |b|
  {
    b[..i] + U16(v) + b[i + 2..]
  }

  /** The octets being assembled. */
  class ByteBuffer {
    var data: bytes

    constructor ()
      ensures data == []
    {
      data := [];
    }

    method Append(src: bytes)
      modifies this
      ensures data == old(data) + src
    {
      data := data + src;
    }

    method Resize(n: nat)
      requires n <= |data|
      modifies this
      ensures data == old(data)[..n]
    {
      data := data[..n];
    }

    /** Overwrites two octets in place. */
    method PutU16(i: nat, v: uint16)
      requires i + 2 <= |data|
      modifies this
      ensures data == Overwritten(old(data), i, v)
    {
      data := data[i := v / 0x100][i + 1 := v % 0x100];
    }
  }

  /** Suffixes written so far; offsets count from `base`, which skips a TCP length prefix. */
  class NameMap {
    var base: nat
    var entries: Offsets

    constructor ()
      ensures base == 0 && entries == map[]
    {
      base, entries := 0, map[];
    }

    method SetOffset(offset: nat)
      modifies this`base
      ensures base == offset
    {
      base := offset;
    }

    method Set(key: bytes, val: nat)
      modifies this`entries
      ensures entries == old(entries)[key := if val > base then val - base else 0]
    {
      entries := entries[key := if val > base then val - base else 0];
    }
  }

  /** The octet check both directions make on a label. */
  method CheckLabelBytes(s: bytes) returns (ok: bool)
    ensures ok <==> LabelBytes(s)
  {
    var i := 0;
    while i < |s|
      invariant 0 <= i <= |s|
      invariant forall k :: 0 <= k < i ==> LabelByte(s[k])
    {
      if !LabelByte(s[i]) { return false; }
      i := i + 1;
    }
    return true;
  }

  /** The first pass of write_name: does the name have a wire form? */
  method CheckName(name: bytes) returns (ok: bool)
    requires name != []
    ensures ok <==> Encodable(name)
  {
    hide Labelled, FirstDot, IsLabel, LabelBytes;
    var wireLen := 1;
    var pos := 0;
    assert name[0..] == name;
    while true
      invariant 0 <= pos < |name| && wireLen == 1 + pos
      invariant Labelled(name) <==> Labelled(name[pos..])
      decreases |name| - pos
    {
      var s := name[pos..];
      var first := First(s);
      LabelledUnfolds(s);
      IsLabelMeans(first);
      if |first| < 1 || |first| > MAX_LABEL { return false; }
      wireLen := wireLen + 1 + |first|;
      if wireLen > 255 { return false; }
      var clean := CheckLabelBytes(first);
      if !clean { return false; }
      if pos + |first| == |name| { return true; }
      pos := pos + |first| + 1;
      assert name[pos..] == Parent(s);
      if pos == |name| { return false; }
    }
  }

  /** Files the suffix s under the current position and writes its first label. */
  method WriteLabel(out: ByteBuffer, names: NameMap, s: bytes)
    requires IsLabel(First(s))
    modifies out, names`entries
    ensures out.data == old(out.data) + LabelOctets(First(s))
    ensures names.entries == Filed(old(names.entries), s, |old(out.data)| - names.base)
  {
    if 0 <= |out.data| - names.base <= MAX_POINTER {
      names.Set(s, |out.data|);
    }
    out.Append([|First(s)|]);
    out.Append(First(s));
    Concat(old(out.data), [|First(s)|], First(s));
  }

  /** write_name. A name without a wire form is refused before anything is written. */
  method WriteName(out: ByteBuffer, names: NameMap, name: bytes) returns (ok: bool)
    modifies out, names`entries
    ensures ok <==> Encodable(name)
    ensures ok ==>
      var w := EncodeName(|old(out.data)| - names.base, old(names.entries), name);
      out.data == old(out.data) + w.bytes && names.entries == w.names
    ensures !ok ==> out.data == old(out.data) && names.entries == old(names.entries)
    ensures ok && name != [] && 0 <= |old(out.data)| - names.base <= 0x3fff ==>
            name in names.entries && names.entries[name] <= 0x3fff
  {
    hide EncodeName, Labelled, FirstDot, LabelOctets, Filed, Pointer;
    if name == [] {
      EncodeNameStops(|out.data| - names.base, names.entries, name);
      out.Append([0]);
      return true;
    }
    ok := CheckName(name);
    if !ok { return; }
    if 0 <= |out.data| - names.base <= MAX_POINTER {
      NameIsFiled(|out.data| - names.base, names.entries, name);
    }
    ghost var whole := EncodeName(|out.data| - names.base, names.entries, name);
    ghost var target := out.data + whole.bytes;
    var pos := 0;
    assert name[0..] == name;
    while true
      invariant 0 <= pos < |name| && Labelled(name[pos..])
      invariant names.base == old(names.base)
      invariant whole.names == EncodeName(|out.data| - names.base, names.entries, name[pos..]).names
      invariant target == out.data + EncodeName(|out.data| - names.base, names.entries, name[pos..]).bytes
      decreases |name| - pos
    {
      var s := name[pos..];
      ghost var at := |out.data| - names.base;
      if Reusable(names.entries, s) {
        EncodeNameStops(at, names.entries, s);
        out.Append(Pointer(names.entries[s]));
        return true;
      }
      EncodeNameSteps(at, names.entries, s);
      NameSplits(s);
      Concat(out.data, LabelOctets(First(s)),
             EncodeName(at + 1 + |First(s)|, Filed(names.entries, s, at), Parent(s)).bytes);
      WriteLabel(out, names, s);
      if |First(s)| == |s| { break; }
      pos := pos + |First(s)| + 1;
      assert name[pos..] == Parent(s);
    }
    EncodeNameStops(|out.data| - names.base, names.entries, []);
    out.Append([0]);
    return true;
  }

  /** decode_name. Zero octets consumed means the bytes at p are not a name. */
  method ReadNameAt(buf: bytes, p: nat) returns (consumed: nat, name: bytes)
    ensures DecodeName(buf, p) == if consumed == 0 then None else Some(Decoded(name, consumed))
    ensures consumed == 0 ==> name == []
  {
    hide ReadName, Extent, Prefixed, Join;
    consumed, name := 0, [];
    if p >= |buf| {
      ReadStopUnfolds(buf, p, MAX_JUMPS);
      return;
    }
    PrefixedEnds([], ReadName(buf, p, MAX_JUMPS));
    var decoded: bytes := [];
    var cursor: nat := p;
    var used, wireLen := 0, 1;
    var jumped, jumpCount := false, 0;
    while cursor < |buf|
      invariant jumpCount <= MAX_JUMPS
      invariant wireLen == if decoded == [] then 1 else |decoded| + 2
      invariant |decoded| <= MAX_NAME
      invariant ReadName(buf, p, MAX_JUMPS) == Prefixed(decoded, ReadName(buf, cursor, MAX_JUMPS - jumpCount))
      invariant Extent(buf, p) == if jumped then used else used + Extent(buf, cursor)
      decreases MAX_JUMPS - jumpCount, |buf| - cursor
    {
      var n: int := buf[cursor];
      ghost var left := MAX_JUMPS - jumpCount;
      PrefixedEnds(decoded, ReadName(buf, cursor, left));
      if n == 0 || n >= 0x40 || cursor + 1 + n > |buf| { ReadStopUnfolds(buf, cursor, left); }
      if n >= 0xc0 {
        jumpCount := jumpCount + 1;
        if jumpCount > MAX_JUMPS { return; }
        if |buf| - cursor < 2 { return; }
        var offset := PointerTarget(buf, cursor);
        if offset >= |buf| || offset >= cursor { return; }
        if !jumped { used := used + 2; }
        cursor, jumped := offset, true;
        continue;
      }
      if n >= 0x40 { return; }
      if n == 0 {
        if !jumped { used := used + 1; }
        ReadNameIsWellFormed(buf, p, MAX_JUMPS);
        return used, decoded;
      }
      if |buf| - (cursor + 1) < n { return; }
      var first := buf[cursor + 1..cursor + 1 + n];
      ghost var rest := ReadName(buf, cursor + 1 + n, left);
      ReadLabelUnfolds(buf, cursor, left);
      PrefixedTwice(decoded, first, rest);
      PrefixedEnds(Join(decoded, first), rest);
      if wireLen + 1 + n > 255 || |decoded| + (if decoded == [] then 0 else 1) + n > MAX_NAME {
        return;
      }
      var clean := CheckLabelBytes(first);
      if !clean { return; }
      decoded := Join(decoded, first);
      wireLen := wireLen + 1 + n;
      if !jumped { used := used + 1 + n; }
      cursor := cursor + 1 + n;
    }
    ReadStopUnfolds(buf, cursor, MAX_JUMPS - jumpCount);
    PrefixedEnds(decoded, None);
  }
}
