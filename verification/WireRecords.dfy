/** Record data octet by octet, as section 3 of RFC 1035 and its successors lay them out. */
module WireRecords {
  import opened Bytes
  import opened Names
  import opened NameCodec
  import opened Messages
  import opened RecordCodec

  // ----- Lists behind lengths -----

  /** An EDNS option or a service parameter. */
  datatype Tagged = Tagged(code: uint16, data: bytes)

  predicate Sized(xs: seq<Tagged>) {
    forall i :: 0 <= i < |xs| ==> |xs[i].data| <= 65535
  }

  /** Each as its code, the length of its data, both in two octets, and its data. */
  function TaggedOctets(xs: seq<Tagged>): bytes
    requires Sized(xs)
  {
    if xs == [] then [] else
      var n := |xs[0].data|;
      [xs[0].code / 256, xs[0].code % 256, n / 256, n % 256] + xs[0].data + TaggedOctets(xs[1..])
  }

  predicate Rising(xs: seq<Tagged>, above: int) {
    && (xs != [] ==> xs[0].code > above)
    && forall i, j :: 0 <= i < j < |xs| ==> xs[i].code < xs[j].code
  }

  predicate ShortStrings(ss: seq<bytes>) {
    forall i :: 0 <= i < |ss| ==> |ss[i]| <= 255
  }

  /** Each string behind one octet with its length. */
  function StringOctets(ss: seq<bytes>): bytes
    requires ShortStrings(ss)
  {
    if ss == [] then [] else [|ss[0]|] + ss[0] + StringOctets(ss[1..])
  }

  lemma {:induction false} FirstTagged(b: bytes, p: nat, xs: seq<Tagged>)
    requires p <= |b| && Sized(xs) && b[p..] == TaggedOctets(xs)
    ensures xs == [] <==> p == |b|
    ensures xs != [] ==>
      var n := |xs[0].data|;
      && p + 4 + n <= |b| && ReadU16(b, p) == xs[0].code && ReadU16(b, p + 2) == n
      && b[p + 4..p + 4 + n] == xs[0].data && b[p + 4 + n..] == TaggedOctets(xs[1..])
  {
    if xs != [] {
      var rest, s, n := TaggedOctets(xs[1..]), b[p..], |xs[0].data|;
      assert s == [xs[0].code / 256, xs[0].code % 256, n / 256, n % 256] + xs[0].data + rest;
      assert b[p] == s[0] && b[p + 1] == s[1] && b[p + 2] == s[2] && b[p + 3] == s[3];
      assert b[p + 4..p + 4 + n] == s[4..4 + n] && b[p + 4 + n..] == s[4 + n..];
    }
  }

  lemma {:induction false} TaggedInFront(b: bytes, p: nat, rest: seq<Tagged>) returns (xs: seq<Tagged>)
    requires p + 4 <= |b| && p + 4 + ReadU16(b, p + 2) <= |b|
    requires Sized(rest) && b[p + 4 + ReadU16(b, p + 2)..] == TaggedOctets(rest)
    ensures xs == [Tagged(ReadU16(b, p), b[p + 4..p + 4 + ReadU16(b, p + 2)])] + rest
    ensures Sized(xs) && b[p..] == TaggedOctets(xs)
  {
    var n := ReadU16(b, p + 2);
    xs := [Tagged(ReadU16(b, p), b[p + 4..p + 4 + n])] + rest;
    assert xs[1..] == rest;
    assert b[p..] == [b[p], b[p + 1], b[p + 2], b[p + 3]] + b[p + 4..p + 4 + n] + b[p + 4 + n..];
  }

  lemma {:induction false} OptionsFrom(b: bytes, p: nat) returns (xs: seq<Tagged>)
    requires p <= |b| && OptionsFrame(b, p)
    ensures Sized(xs) && b[p..] == TaggedOctets(xs)
    decreases |b| - p
  {
    if p == |b| {
      xs := [];
    } else {
      var rest := OptionsFrom(b, p + 4 + ReadU16(b, p + 2));
      xs := TaggedInFront(b, p, rest);
    }
  }

  lemma {:induction false} OptionsInto(b: bytes, p: nat, xs: seq<Tagged>)
    requires p <= |b| && Sized(xs) && b[p..] == TaggedOctets(xs)
    ensures OptionsFrame(b, p)
    decreases |b| - p
  {
    hide TaggedOctets, ReadU16;
    FirstTagged(b, p, xs);
    if xs != [] {
      OptionsInto(b, p + 4 + |xs[0].data|, xs[1..]);
    }
  }

  /** The data of an OPT record are framed exactly when they are a list of options (section 6.1.2 of RFC 6891). */
  lemma {:induction false} OptionsExactly(b: bytes)
    ensures OptionsFrame(b, 0) <==> exists xs :: Sized(xs) && TaggedOctets(xs) == b
  {
    assert b[0..] == b;
    if OptionsFrame(b, 0) {
      var xs := OptionsFrom(b, 0);
    }
    forall xs | Sized(xs) && TaggedOctets(xs) == b ensures OptionsFrame(b, 0) {
      OptionsInto(b, 0, xs);
    }
  }

  lemma {:induction false} ParamsFrom(b: bytes, p: nat, prev: int) returns (xs: seq<Tagged>)
    requires p <= |b| && ParamsFrame(b, p, prev)
    ensures Sized(xs) && b[p..] == TaggedOctets(xs) && Rising(xs, prev)
    decreases |b| - p
  {
    hide TaggedOctets, ReadU16;
    if p == |b| {
      xs := [];
      NoneTagged();
    } else {
      var rest := ParamsFrom(b, p + 4 + ReadU16(b, p + 2), ReadU16(b, p));
      xs := TaggedInFront(b, p, rest);
      RisingInFront(xs[0], rest, prev);
    }
  }

  lemma {:induction false} NoneTagged()
    ensures TaggedOctets([]) == []
  {
  }

  lemma {:induction false} RisingInFront(x: Tagged, rest: seq<Tagged>, above: int)
    requires x.code > above
    ensures Rising([x] + rest, above) <==> Rising(rest, x.code)
  {
    var xs := [x] + rest;
    if Rising(xs, above) {
      forall i, j | 0 <= i < j < |rest| ensures rest[i].code < rest[j].code {
        assert xs[i + 1].code < xs[j + 1].code;
      }
      if rest != [] {
        assert xs[0].code < xs[1].code;
      }
    }
    if Rising(rest, x.code) {
      forall i, j | 0 <= i < j < |xs| ensures xs[i].code < xs[j].code {
        if i == 0 {
          assert rest[j - 1].code > x.code by {
            if j > 1 { assert rest[0].code < rest[j - 1].code; }
          }
        }
      }
    }
  }

  lemma {:induction false} ParamsInto(b: bytes, p: nat, prev: int, xs: seq<Tagged>)
    requires p <= |b| && Sized(xs) && b[p..] == TaggedOctets(xs) && Rising(xs, prev)
    ensures ParamsFrame(b, p, prev)
    decreases |b| - p
  {
    hide TaggedOctets, ReadU16, Rising;
    FirstTagged(b, p, xs);
    if xs != [] {
      FirstRises(xs, prev);
      assert xs == [xs[0]] + xs[1..];
      RisingInFront(xs[0], xs[1..], prev);
      ParamsInto(b, p + 4 + |xs[0].data|, xs[0].code, xs[1..]);
    }
  }

  lemma {:induction false} FirstRises(xs: seq<Tagged>, above: int)
    requires Rising(xs, above) && xs != []
    ensures xs[0].code > above
  {
  }

  /** Service parameters are framed exactly when they are a list with keys in rising order (section 2.2 of RFC 9460). */
  lemma {:induction false} ParamsExactly(b: bytes)
    ensures ParamsFrame(b, 0, -1) <==> exists xs :: Sized(xs) && Rising(xs, -1) && TaggedOctets(xs) == b
  {
    assert b[0..] == b;
    if ParamsFrame(b, 0, -1) {
      var xs := ParamsFrom(b, 0, -1);
    }
    forall xs | Sized(xs) && Rising(xs, -1) && TaggedOctets(xs) == b ensures ParamsFrame(b, 0, -1) {
      ParamsInto(b, 0, -1, xs);
    }
  }

  lemma {:induction false} StringsFrom(b: bytes, p: nat) returns (ss: seq<bytes>)
    requires p <= |b| && StringsFrame(b, p)
    ensures ShortStrings(ss) && b[p..] == StringOctets(ss)
    decreases |b| - p
  {
    if p == |b| {
      ss := [];
    } else {
      var n := b[p];
      var rest := StringsFrom(b, p + 1 + n);
      ss := [b[p + 1..p + 1 + n]] + rest;
      assert ss[1..] == rest;
      assert b[p..] == [n] + b[p + 1..p + 1 + n] + b[p + 1 + n..];
    }
  }

  lemma {:induction false} StringsInto(b: bytes, p: nat, ss: seq<bytes>)
    requires p <= |b| && ShortStrings(ss) && b[p..] == StringOctets(ss)
    ensures StringsFrame(b, p)
    decreases |b| - p
  {
    if ss != [] {
      var s, n := b[p..], |ss[0]|;
      assert s == [n] + ss[0] + StringOctets(ss[1..]);
      assert b[p] == s[0];
      assert b[p + 1 + n..] == s[1 + n..];
      StringsInto(b, p + 1 + n, ss[1..]);
    }
  }

  /** The data of a TXT record are framed exactly when they are a list of strings of up to 255 octets. */
  lemma {:induction false} StringsExactly(b: bytes)
    ensures StringsFrame(b, 0) <==> exists ss :: ShortStrings(ss) && StringOctets(ss) == b
  {
    assert b[0..] == b;
    if StringsFrame(b, 0) {
      var ss := StringsFrom(b, 0);
    }
    forall ss | ShortStrings(ss) && StringOctets(ss) == b ensures StringsFrame(b, 0) {
      StringsInto(b, 0, ss);
    }
  }

  // ----- Record data by type -----

  /** From a to b stands a name. */
  predicate NameStands(buf: bytes, a: nat, b: nat, n: bytes) {
    a <= b && DecodeName(buf, a) == Some(Decoded(n, b - a))
  }

  function Two(buf: bytes, i: nat): uint16
    requires i + 2 <= |buf|
  {
    256 * buf[i] as int + buf[i + 1] as int
  }

  function Four(buf: bytes, i: nat): uint32
    requires i + 4 <= |buf|
  {
    65536 * Two(buf, i) as int + Two(buf, i + 2) as int
  }

  /** Somewhere in the data there are two octets that would be a pointer back from where they stand. */
  predicate HasBackPointer(buf: bytes, d: nat, end: nat)
    requires end <= |buf|
  {
    exists i :: d <= i < end - 1 && buf[i] >= 192 && Two(buf, i) as int - 192 * 256 < i
  }

  predicate Raw(buf: bytes, d: nat, end: nat, rd: Rdata)
    requires d <= end <= |buf|
  {
    rd == Rdata(buf[d..end], NoPayload, true)
  }

  ghost predicate SoaStands(buf: bytes, d: nat, end: nat, rd: Rdata)
    requires d <= end <= |buf|
  {
    exists m, n, q: nat :: d <= q <= end - 20 && NameStands(buf, d, q, m) && NameStands(buf, q, end - 20, n) &&
      rd == Rdata([], SoaPayload(Lower(m), Lower(n), Four(buf, end - 20), Four(buf, end - 16), Four(buf, end - 12),
                                 Four(buf, end - 8), Four(buf, end - 4)), true)
  }

  ghost predicate HttpsStands(buf: bytes, d: nat, end: nat, rd: Rdata)
    requires d <= end <= |buf|
  {
    exists n, q: nat, xs :: d + 2 < q <= end && NameStands(buf, d + 2, q, n) &&
      Sized(xs) && Rising(xs, -1) && TaggedOctets(xs) == buf[q..end] &&
      rd == Rdata([], HttpsPayload(Two(buf, d), Lower(n), buf[q..end]), true)
  }

  /** What the data of a record of some type, from d to end, hold. */
  ghost predicate RdataStands(buf: bytes, d: nat, end: nat, typ: uint16, rd: Rdata)
    requires d <= end <= |buf|
  {
    match typ
    case 1 => end - d == 4 && Raw(buf, d, end, rd)
    case 28 => end - d == 16 && Raw(buf, d, end, rd)
    case 16 => (exists ss :: ss != [] && ShortStrings(ss) && StringOctets(ss) == buf[d..end]) && Raw(buf, d, end, rd)
    case 41 => (exists xs :: Sized(xs) && TaggedOctets(xs) == buf[d..end]) && Raw(buf, d, end, rd)
    case 2 => exists n :: NameStands(buf, d, end, n) && rd == Rdata([], NsPayload(Lower(n)), true)
    case 5 => exists n :: NameStands(buf, d, end, n) && rd == Rdata([], CnamePayload(Lower(n)), true)
    case 12 => exists n :: NameStands(buf, d, end, n) && rd == Rdata([], PtrPayload(Lower(n)), true)
    case 15 =>
      exists n :: d + 2 < end && NameStands(buf, d + 2, end, n) &&
        rd == Rdata([], MxPayload(Two(buf, d), Lower(n)), true)
    case 6 => SoaStands(buf, d, end, rd)
    case 65 => HttpsStands(buf, d, end, rd)
    case _ => rd == Rdata(buf[d..end], NoPayload, !HasBackPointer(buf, d, end))
  }

  lemma {:induction false} OnlyNameExactly(buf: bytes, d: nat, end: nat)
    ensures ReadOnlyName(buf, d, end).Some? <==> exists n :: NameStands(buf, d, end, n)
    ensures forall n :: NameStands(buf, d, end, n) ==> ReadOnlyName(buf, d, end) == Some(Lower(n))
  {
    hide DecodeName, Lower;
    if ReadOnlyName(buf, d, end).Some? {
      assert NameStands(buf, d, end, DecodeName(buf, d).value.name);
    }
  }

  lemma {:induction false} OctetsReadTwo(buf: bytes, i: nat)
    ensures i + 2 <= |buf| ==> ReadU16(buf, i) == Two(buf, i)
    ensures i + 4 <= |buf| ==> ReadU32(buf, i) == Four(buf, i)
  {
  }

  lemma {:induction false} SoaExactly(buf: bytes, d: nat, end: nat, rd: Rdata)
    requires d <= end <= |buf|
    ensures WrapPayload(ReadSoa(buf, d, end)) == Some(rd) <==> SoaStands(buf, d, end, rd)
  {
    hide DecodeName, Lower, ReadU32, Four;
    var first := DecodeName(buf, d);
    if first.Some? {
      NameIsSome(buf, d);
      var q := d + first.value.consumed;
      var second := DecodeName(buf, q);
      if second.Some? {
        NameIsSome(buf, q);
        if q + second.value.consumed == end - 20 {
          assert NameStands(buf, d, q, first.value.name) && NameStands(buf, q, end - 20, second.value.name);
          OctetsReadTwo(buf, end - 20);
          OctetsReadTwo(buf, end - 16);
          OctetsReadTwo(buf, end - 12);
          OctetsReadTwo(buf, end - 8);
          OctetsReadTwo(buf, end - 4);
        }
      }
    }
  }

  lemma {:induction false} NameIsSome(buf: bytes, p: nat)
    requires DecodeName(buf, p).Some?
    ensures 1 <= DecodeName(buf, p).value.consumed
  {
    DecodeNameBounds(buf, p);
  }

  lemma {:induction false} HttpsExactly(buf: bytes, d: nat, end: nat, rd: Rdata)
    requires d <= end <= |buf|
    ensures WrapPayload(ReadHttps(buf, d, end)) == Some(rd) <==> HttpsStands(buf, d, end, rd)
  {
    hide DecodeName, Lower, ReadU16, Two, ParamsFrame, TaggedOctets, Rising;
    var first := DecodeName(buf, d + 2);
    if first.Some? {
      NameIsSome(buf, d + 2);
      var q := d + 2 + first.value.consumed;
      if q <= end {
        assert NameStands(buf, d + 2, q, first.value.name);
        ParamsExactly(buf[q..end]);
        OctetsReadTwo(buf, d);
      }
    }
  }

  lemma {:induction false} BackPointersExactly(buf: bytes, d: nat, end: nat)
    requires end <= |buf|
    ensures HoldsPointer(buf, d, end) <==> HasBackPointer(buf, d, end)
  {
    forall i | d <= i < end - 1
      ensures IsBackPointer(buf, i) <==> buf[i] >= 192 && Two(buf, i) as int - 192 * 256 < i
    {
    }
  }

  lemma {:induction false} SomeStrings(b: bytes)
    ensures (exists ss :: ss != [] && ShortStrings(ss) && StringOctets(ss) == b) <==> b != [] && StringsFrame(b, 0)
  {
    StringsExactly(b);
    if b != [] && StringsFrame(b, 0) {
      var ss :| ShortStrings(ss) && StringOctets(ss) == b;
      assert ss != [];
    }
  }

  /** The reader takes the data of a record exactly when they hold what their type demands, and reports just that. */
  lemma {:induction false} RdataExactly(buf: bytes, d: nat, end: nat, typ: uint16, rd: Rdata)
    requires d <= end <= |buf|
    ensures ReadRdata(buf, d, end, typ) == Some(rd) <==> RdataStands(buf, d, end, typ, rd)
  {
    hide ReadOnlyName, ReadSoa, ReadHttps, HoldsPointer, StringsFrame, OptionsFrame, Lower, NameStands, SoaStands,
         HttpsStands, HasBackPointer, TaggedOctets, StringOctets, ReadU16, Two;
    match typ
    case 16 => SomeStrings(buf[d..end]);
    case 41 => OptionsExactly(buf[d..end]);
    case 2 => OnlyNameExactly(buf, d, end);
    case 5 => OnlyNameExactly(buf, d, end);
    case 12 => OnlyNameExactly(buf, d, end);
    case 15 => MxExactly(buf, d, end, rd);
    case 6 => SoaExactly(buf, d, end, rd);
    case 65 => HttpsExactly(buf, d, end, rd);
    case _ => BackPointersExactly(buf, d, end);
  }

  lemma {:induction false} MxExactly(buf: bytes, d: nat, end: nat, rd: Rdata)
    requires d <= end <= |buf|
    ensures ReadRdata(buf, d, end, 15) == Some(rd) <==> RdataStands(buf, d, end, 15, rd)
  {
    hide DecodeName, Lower, ReadU16, Two, ReadOnlyName;
    if d + 2 <= end {
      OnlyNameExactly(buf, d + 2, end);
      OctetsReadTwo(buf, d);
    }
    if DecodeName(buf, d + 2).Some? {
      NameIsSome(buf, d + 2);
    }
  }
}
