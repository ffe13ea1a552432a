/** What a record becomes by being written and read: itself, in the code's canonical spelling. */
module RecordRoundTrip {
  import opened Bytes
  import opened Names
  import opened NameCodec
  import opened Messages
  import opened RecordCodec

  /** The types whose data is interpreted as names and numbers rather than kept raw. */
  predicate Structured(typ: uint16) {
    || typ == TYPE_PTR || typ == TYPE_CNAME || typ == TYPE_NS || typ == TYPE_MX
    || typ == TYPE_SOA || typ == TYPE_HTTPS
  }

  /** The types whose raw data is known to hold no names. */
  predicate Opaque(typ: uint16) {
    !Structured(typ) && typ != TYPE_A && typ != TYPE_AAAA && typ != TYPE_TXT && typ != TYPE_OPT
  }

  function LowerPayload(p: Payload): Payload {
    match p
    case NoPayload => NoPayload
    case CnamePayload(n) => CnamePayload(Lower(n))
    case PtrPayload(n) => PtrPayload(Lower(n))
    case NsPayload(n) => NsPayload(Lower(n))
    case MxPayload(pref, n) => MxPayload(pref, Lower(n))
    case SoaPayload(m, r, a, b, c, d, e) => SoaPayload(Lower(m), Lower(r), a, b, c, d, e)
    case HttpsPayload(pri, n, params) => HttpsPayload(pri, Lower(n), params)
  }

  /** Do the data, standing from `at` on, hold two octets that would be a backward compression pointer? */
  predicate LooksCompressed(data: bytes, at: int) {
    exists i :: 0 <= i < |data| - 1 && PointsBack(data, i, at)
  }

  predicate PointsBack(data: bytes, i: nat, at: int)
    requires i + 2 <= |data|
  {
    data[i] >= 0xc0 && PointerTarget(data, i) < at + i
  }

  /** The record as the reader will report it when its data end at `end`. */
  function CanonRecord(owner: bytes, item: Record, end: int): Record {
    Record(owner, item.typ, item.clas, item.ttl,
           if Structured(item.typ) then [] else item.bin,
           if Structured(item.typ) then LowerPayload(item.payload) else NoPayload,
           Opaque(item.typ) ==> !LooksCompressed(item.bin, end - |item.bin|), 0)
  }

  /** Data look compressed or not wherever they are read from, for the place they stand at is what counts. */
  lemma {:induction false} PointersInMessage(out: bytes, p: nat, data: bytes)
    requires p + |data| <= |out| && out[p..p + |data|] == data
    ensures HoldsPointer(out, p, p + |data|) <==> LooksCompressed(data, p)
  {
    forall i | 0 <= i < |data| - 1 ensures IsBackPointer(out, p + i) <==> PointsBack(data, i, p) {
      assert out[p..p + |data|][i] == out[p + i] && out[p..p + |data|][i + 1] == out[p + i + 1];
    }
    if HoldsPointer(out, p, p + |data|) {
      var j :| p <= j < p + |data| - 1 && IsBackPointer(out, j);
      assert PointsBack(data, j - p, p);
    }
    if LooksCompressed(data, p) {
      var i :| 0 <= i < |data| - 1 && PointsBack(data, i, p);
      assert IsBackPointer(out, p + i);
    }
  }

  // ----- Names inside a larger message -----

  lemma {:induction false} NameInMessage(buf: bytes, names: Offsets, s: bytes, out: bytes)
    requires Faithful(buf, names) && Encodable(s)
    requires buf + EncodeName(|buf|, names, s).bytes <= out
    ensures var w := EncodeName(|buf|, names, s);
      && Faithful(buf + w.bytes, w.names)
      && DecodeName(out, |buf|) == Some(Decoded(s, |w.bytes|))
  {
    hide ReadName, Extent, EncodeName, DecodeName, Faithful, FirstDot, Labelled;
    var w := EncodeName(|buf|, names, s);
    var mid := buf + w.bytes;
    WriteNameReadsBack(buf, names, s, mid);
    DecodeInvertsEncode(buf, names, s, out[|mid|..]);
    assert out == mid + out[|mid|..];
  }

  /** A fixed prefix and a name, read back by skipping the prefix. */
  lemma {:induction false} NameFieldInMessage(buf: bytes, names: Offsets, prefix: bytes, s: bytes, w: Written,
                                              out: bytes)
    requires Faithful(buf, names)
    requires EncodeNameField(|buf|, names, prefix, s) == Some(w) && buf + w.bytes <= out
    ensures |prefix| < |w.bytes| && Faithful(buf + w.bytes, w.names)
    ensures out[|buf|..|buf| + |prefix|] == prefix
    ensures ReadOnlyName(out, |buf| + |prefix|, |buf| + |w.bytes|) == Some(Lower(s))
  {
    hide ReadName, Extent, EncodeName, DecodeName, Faithful, FirstDot, Labelled;
    var n := EncodeName(|buf| + |prefix|, names, s);
    FaithfulIsStable(buf, prefix, names);
    Concat(buf, prefix, n.bytes);
    SliceOfPrefix(buf, prefix, out);
    NameInMessage(buf + prefix, names, s, out);
  }

  lemma {:induction false} SoaInMessage(buf: bytes, names: Offsets, soa: Payload, w: Written, out: bytes)
    requires soa.SoaPayload? && Faithful(buf, names)
    requires EncodeSoa(|buf|, names, soa) == Some(w) && buf + w.bytes <= out
    ensures Faithful(buf + w.bytes, w.names)
    ensures ReadSoa(out, |buf|, |buf| + |w.bytes|) == Some(LowerPayload(soa))
  {
    hide ReadName, Extent, EncodeName, DecodeName, Faithful, FirstDot, Labelled, SoaTail, ReadU32;
    var n := EncodeName(|buf|, names, soa.nname);
    var mid := buf + n.bytes;
    var r := EncodeName(|mid|, n.names, soa.rname);
    var last := mid + r.bytes;
    var tail := SoaTail(soa);
    assert buf + (n.bytes + r.bytes + tail) == last + tail by {
      Concat(buf, n.bytes, r.bytes);
      Concat(buf, n.bytes + r.bytes, tail);
    }
    assert mid <= last <= last + tail <= out;
    NameInMessage(buf, names, soa.nname, out);
    NameInMessage(mid, n.names, soa.rname, out);
    FaithfulIsStable(last, tail, r.names);
    var t := |last|;
    SliceOfPrefix(last, tail, out);
    ReadBackSoaTail(out, t, soa);
  }

  lemma {:induction false} SoaTailFields(soa: Payload)
    requires soa.SoaPayload?
    ensures SoaTail(soa)[0..4] == U32(soa.serial) && SoaTail(soa)[4..8] == U32(soa.refresh)
    ensures SoaTail(soa)[8..12] == U32(soa.retry) && SoaTail(soa)[12..16] == U32(soa.expire)
    ensures SoaTail(soa)[16..20] == U32(soa.minimum)
  {
    hide U32;
  }

  lemma {:induction false} ReadBackSoaTail(out: bytes, t: nat, soa: Payload)
    requires soa.SoaPayload? && t + 20 <= |out| && out[t..t + 20] == SoaTail(soa)
    ensures ReadU32(out, t) == soa.serial && ReadU32(out, t + 4) == soa.refresh
    ensures ReadU32(out, t + 8) == soa.retry && ReadU32(out, t + 12) == soa.expire
    ensures ReadU32(out, t + 16) == soa.minimum
  {
    hide U32, ReadU32, SoaTail;
    SoaTailFields(soa);
    SliceOfSlice(out, t, 20, 0, 4);
    SliceOfSlice(out, t, 20, 4, 8);
    SliceOfSlice(out, t, 20, 8, 12);
    SliceOfSlice(out, t, 20, 12, 16);
    SliceOfSlice(out, t, 20, 16, 20);
    ReadBackU32(out, t, soa.serial);
    ReadBackU32(out, t + 4, soa.refresh);
    ReadBackU32(out, t + 8, soa.retry);
    ReadBackU32(out, t + 12, soa.expire);
    ReadBackU32(out, t + 16, soa.minimum);
  }

  lemma {:induction false} HttpsInMessage(buf: bytes, names: Offsets, https: Payload, w: Written, out: bytes)
    requires https.HttpsPayload? && Faithful(buf, names)
    requires EncodeHttps(|buf|, names, https) == Some(w) && buf + w.bytes <= out
    ensures Faithful(buf + w.bytes, w.names)
    ensures ReadHttps(out, |buf|, |buf| + |w.bytes|) == Some(LowerPayload(https))
  {
    hide ReadName, Extent, EncodeName, DecodeName, Faithful, FirstDot, Labelled, ParamsFrame;
    var pri := U16(https.priority);
    var mid := buf + pri;
    var t := EncodeName(|mid|, names, https.target);
    var last := mid + t.bytes;
    assert buf + w.bytes == last + https.params by {
      Concat(buf, pri, t.bytes);
      Concat(buf, pri + t.bytes, https.params);
    }
    assert mid <= last <= last + https.params <= out;
    FaithfulIsStable(buf, pri, names);
    NameInMessage(mid, names, https.target, out);
    FaithfulIsStable(last, https.params, t.names);
    SliceOfPrefix(buf, pri, out);
    ReadBackU16(out, |buf|, https.priority);
    SliceOfPrefix(last, https.params, out);
  }

  /** Record data reads back as itself, in lower case, and leaves the compression map faithful. */
  lemma {:induction false} RdataInMessage(buf: bytes, names: Offsets, item: Record, w: Written, out: bytes)
    requires Faithful(buf, names)
    requires EncodeRdata(|buf|, names, item) == Some(w) && buf + w.bytes <= out
    ensures Faithful(buf + w.bytes, w.names)
    ensures var rd := ReadRdata(out, |buf|, |buf| + |w.bytes|, item.typ);
      var canon := CanonRecord([], item, |buf| + |w.bytes|);
      rd == Some(Rdata(canon.bin, canon.payload, canon.cacheable))
  {
    hide ReadName, Extent, EncodeName, DecodeName, Faithful, FirstDot, Labelled,
         ParamsFrame, OptionsFrame, StringsFrame, EncodeNameField, EncodeSoa, EncodeHttps,
         ReadOnlyName, ReadSoa, ReadHttps, HoldsPointer, LooksCompressed, Lower;
    if Structured(item.typ) {
      match item.payload
      case PtrPayload(n) => NameFieldInMessage(buf, names, [], n, w, out);
      case CnamePayload(n) => NameFieldInMessage(buf, names, [], n, w, out);
      case NsPayload(n) => NameFieldInMessage(buf, names, [], n, w, out);
      case MxPayload(pref, n) =>
        NameFieldInMessage(buf, names, U16(pref), n, w, out);
        ReadBackU16(out, |buf|, pref);
      case SoaPayload(_, _, _, _, _, _, _) => SoaInMessage(buf, names, item.payload, w, out);
      case HttpsPayload(_, _, _) => HttpsInMessage(buf, names, item.payload, w, out);
    } else {
      FaithfulIsStable(buf, item.bin, names);
      SliceOfPrefix(buf, item.bin, out);
      PointersInMessage(out, |buf|, item.bin);
    }
  }

  lemma {:induction false} FixedFieldsInMessage(out: bytes, f: nat, item: Record, rdlen: uint16)
    requires f + 10 <= |out| && out[f..f + 10] == FixedFields(item, rdlen)
    ensures ReadU16(out, f) == item.typ && ReadU16(out, f + 2) == item.clas
    ensures ReadU32(out, f + 4) == item.ttl && ReadU16(out, f + 8) == rdlen
  {
    var b := out[f..f + 10];
    assert b[0..2] == U16(item.typ) && b[2..4] == U16(item.clas) && b[4..8] == U32(item.ttl) && b[8..10] == U16(rdlen);
    SliceOfSlice(out, f, 10, 0, 2);
    SliceOfSlice(out, f, 10, 2, 4);
    SliceOfSlice(out, f, 10, 4, 8);
    SliceOfSlice(out, f, 10, 8, 10);
    ReadBackU16(out, f, item.typ);
    ReadBackU16(out, f + 2, item.clas);
    ReadBackU32(out, f + 4, item.ttl);
    ReadBackU16(out, f + 8, rdlen);
  }

  /**
    * A record written into a message whose compression map is faithful is read back from where it
    * was written, up to spelling, and ends where it ended; the map stays faithful.
    */
  lemma {:induction false} RecordInMessage(buf: bytes, names: Offsets, owner: bytes, item: Record, w: Written,
                                           out: bytes,
                                           additional: bool, seenOpt: bool)
    requires Faithful(buf, names)
    requires EncodeRecord(|buf|, names, owner, item) == Some(w) && buf + w.bytes <= out
    requires !OptMisplaced(item.typ, owner, additional, seenOpt)
    ensures Faithful(buf + w.bytes, w.names)
    ensures var end := |buf| + |w.bytes|;
      ParseRecord(out, |buf|, additional, seenOpt) ==
      Some(ParsedRecord(CanonRecord(owner, item, end), end, seenOpt || item.typ == TYPE_OPT))
  {
    hide ReadName, Extent, EncodeName, DecodeName, Faithful, FirstDot, Labelled, EncodeRdata, ReadRdata,
         FixedFields, ReadU16, ReadU32, LooksCompressed, LowerPayload;
    var o := EncodeName(|buf|, names, owner);
    var mid := buf + o.bytes;
    var rd := EncodeRdata(|mid| + 10, o.names, item).value;
    var fixed := FixedFields(item, |rd.bytes|);
    var data := mid + fixed;
    assert buf + (o.bytes + fixed + rd.bytes) == data + rd.bytes by {
      Concat(buf, o.bytes, fixed);
      Concat(buf, o.bytes + fixed, rd.bytes);
    }
    NameInMessage(buf, names, owner, out);
    FaithfulIsStable(mid, fixed, o.names);
    SliceOfPrefix(mid, fixed, out);
    FixedFieldsInMessage(out, |mid|, item, |rd.bytes|);
    RdataInMessage(data, o.names, item, rd, out);
  }
}
