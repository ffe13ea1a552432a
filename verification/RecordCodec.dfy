/** Resource records on the wire: write_dns_answer_rr and the record half of parse_dns_message. */
module RecordCodec {
  import opened Bytes
  import opened Names
  import opened NameCodec
  import opened Messages

  // ----- Framing rules shared by both directions -----

  /** One or more length-prefixed strings filling the data exactly. */
  predicate StringsFrame(b: bytes, p: nat)
    requires p <= |b|
    decreases |b| - p
  {
    p == |b| || (p + 1 + b[p] <= |b| && StringsFrame(b, p + 1 + b[p]))
  }

  /** EDNS options: a code, a length and that many octets, filling the data exactly. */
  predicate OptionsFrame(b: bytes, p: nat)
    requires p <= |b|
    decreases |b| - p
  {
    p == |b| || (p + 4 <= |b| && p + 4 + ReadU16(b, p + 2) <= |b| && OptionsFrame(b, p + 4 + ReadU16(b, p + 2)))
  }

  /** Service parameters: framed like options, with keys strictly above `prev`. */
  predicate ParamsFrame(b: bytes, p: nat, prev: int)
    requires p <= |b|
    decreases |b| - p
  {
    p == |b| || (
      && p + 4 <= |b|
      && prev < ReadU16(b, p)
      && p + 4 + ReadU16(b, p + 2) <= |b|
      && ParamsFrame(b, p + 4 + ReadU16(b, p + 2), ReadU16(b, p)))
  }

  // ----- Writing -----

  /** The RDATA of a record written `at` octets into the message, if it has a valid one. */
  function EncodeRdata(at: int, names: Offsets, item: Record): Option<Written> {
    if item.typ == TYPE_PTR then
      if item.payload.PtrPayload? then EncodeNameField(at, names, [], item.payload.ptr) else None
    else if item.typ == TYPE_CNAME then
      if item.payload.CnamePayload? then EncodeNameField(at, names, [], item.payload.cname) else None
    else if item.typ == TYPE_NS then
      if item.payload.NsPayload? then EncodeNameField(at, names, [], item.payload.nsname) else None
    else if item.typ == TYPE_MX then
      if item.payload.MxPayload? then EncodeNameField(at, names, U16(item.payload.preference), item.payload.exchange)
      else None
    else if item.typ == TYPE_SOA then
      if item.payload.SoaPayload? then EncodeSoa(at, names, item.payload) else None
    else if item.typ == TYPE_HTTPS then
      if item.payload.HttpsPayload? then EncodeHttps(at, names, item.payload) else None
    else if RawIsValid(item) then Some(Written(item.bin, names))
    else None
  }

  /** A fixed prefix followed by a compressed name. */
  function EncodeNameField(at: int, names: Offsets, prefix: bytes, name: bytes): Option<Written> {
    if !Encodable(name) then None else
      var w := EncodeName(at + |prefix|, names, name);
      Some(Written(prefix + w.bytes, w.names))
  }

  function SoaTail(soa: Payload): (b: bytes)
    requires soa.SoaPayload?
    ensures |b| == 20
  {
    U32(soa.serial) + U32(soa.refresh) + U32(soa.retry) + U32(soa.expire) + U32(soa.minimum)
  }

  function EncodeSoa(at: int, names: Offsets, soa: Payload): Option<Written>
    requires soa.SoaPayload?
  {
    if !Encodable(soa.nname) || !Encodable(soa.rname) then None else
      var n := EncodeName(at, names, soa.nname);
      var r := EncodeName(at + |n.bytes|, n.names, soa.rname);
      Some(Written(n.bytes + r.bytes + SoaTail(soa), r.names))
  }

  function EncodeHttps(at: int, names: Offsets, https: Payload): Option<Written>
    requires https.HttpsPayload?
  {
    if !Encodable(https.target) || |https.params| > UINT16_MAX || !ParamsFrame(https.params, 0, -1) then None else
      var t := EncodeName(at + 2, names, https.target);
      Some(Written(U16(https.priority) + t.bytes + https.params, t.names))
  }

  /** Which uninterpreted data may be copied into a packet. */
  predicate RawIsValid(item: Record) {
    && |item.bin| <= UINT16_MAX
    && if item.typ == TYPE_A then |item.bin| == 4
       else if item.typ == TYPE_AAAA then |item.bin| == 16
       else if item.typ == TYPE_TXT then |item.bin| > 0 && StringsFrame(item.bin, 0)
       else if item.typ == TYPE_OPT then OptionsFrame(item.bin, 0)
       else item.cacheable
  }

  /** Type, class, TTL and data length. */
  function FixedFields(item: Record, rdlen: uint16): (b: bytes)
    ensures |b| == 10
  {
    U16(item.typ) + U16(item.clas) + U32(item.ttl) + U16(rdlen)
  }

  function EncodeRecord(at: int, names: Offsets, owner: bytes, item: Record): Option<Written> {
    if !Encodable(owner) then None else
      var o := EncodeName(at, names, owner);
      match EncodeRdata(at + |o.bytes| + 10, o.names, item)
      case None => None
      case Some(rd) =>
        if |rd.bytes| > UINT16_MAX then None
        else Some(Written(o.bytes + FixedFields(item, |rd.bytes|) + rd.bytes, rd.names))
  }

  // ----- Reading -----

  datatype ParsedRecord = ParsedRecord(rec: Record, next: nat, seenOpt: bool)

  /** Reads a name that must end within the record data. */
  function ReadRdataName(buf: bytes, p: nat, end: nat): Option<Decoded> {
    match DecodeName(buf, p)
    case None => None
    case Some(d) => if p + d.consumed <= end then Some(d) else None
  }

  /** A lone name, lower-cased, that must end exactly where the record data ends. */
  function ReadOnlyName(buf: bytes, p: nat, end: nat): Option<bytes> {
    match ReadRdataName(buf, p, end)
    case None => None
    case Some(d) => if p + d.consumed == end then Some(Lower(d.name)) else None
  }

  function ReadSoa(buf: bytes, p: nat, end: nat): Option<Payload>
    requires end <= |buf|
  {
    match ReadRdataName(buf, p, end)
    case None => None
    case Some(n) =>
      var q := p + n.consumed;
      match ReadRdataName(buf, q, end)
      case None => None
      case Some(r) =>
        var t := q + r.consumed;
        if end - t != 20 then None else
          Some(SoaPayload(Lower(n.name), Lower(r.name), ReadU32(buf, t), ReadU32(buf, t + 4),
                          ReadU32(buf, t + 8), ReadU32(buf, t + 12), ReadU32(buf, t + 16)))
  }

  function ReadHttps(buf: bytes, p: nat, end: nat): Option<Payload>
    requires p <= end <= |buf|
  {
    if end - p < 3 then None else
      match ReadRdataName(buf, p + 2, end)
      case None => None
      case Some(t) =>
        var params := buf[p + 2 + t.consumed..end];
        if !ParamsFrame(params, 0, -1) then None
        else Some(HttpsPayload(ReadU16(buf, p), Lower(t.name), params))
  }

  /** Does the data hold two octets that would be a backward compression pointer where they stand? */
  predicate HoldsPointer(buf: bytes, p: nat, end: nat)
    requires end <= |buf|
  {
    exists i :: p <= i < end - 1 && IsBackPointer(buf, i)
  }

  predicate IsBackPointer(buf: bytes, i: nat)
    requires i + 2 <= |buf|
  {
    buf[i] >= 0xc0 && PointerTarget(buf, i) < i
  }

  /** Payload, raw data and cacheability of the record data in buf[p..end]. */
  datatype Rdata = Rdata(bin: bytes, payload: Payload, cacheable: bool)

  function Wrap(name: Option<bytes>, wrap: bytes -> Payload): Option<Rdata> {
    if name.None? then None else Some(Rdata([], wrap(name.value), true))
  }

  function WrapPayload(payload: Option<Payload>): Option<Rdata> {
    if payload.None? then None else Some(Rdata([], payload.value, true))
  }

  /** Everything but OPT, which depends on where in the message the record stands. */
  function ReadRdata(buf: bytes, p: nat, end: nat, typ: uint16): Option<Rdata>
    requires p <= end <= |buf|
  {
    var raw := Some(Rdata(buf[p..end], NoPayload, true));
    if typ == TYPE_A then if end - p == 4 then raw else None
    else if typ == TYPE_AAAA then if end - p == 16 then raw else None
    else if typ == TYPE_CNAME then Wrap(ReadOnlyName(buf, p, end), n => CnamePayload(n))
    else if typ == TYPE_PTR then Wrap(ReadOnlyName(buf, p, end), n => PtrPayload(n))
    else if typ == TYPE_NS then Wrap(ReadOnlyName(buf, p, end), n => NsPayload(n))
    else if typ == TYPE_MX then
      if end - p < 3 then None
      else Wrap(ReadOnlyName(buf, p + 2, end), n => MxPayload(ReadU16(buf, p), n))
    else if typ == TYPE_SOA then WrapPayload(ReadSoa(buf, p, end))
    else if typ == TYPE_HTTPS then WrapPayload(ReadHttps(buf, p, end))
    else if typ == TYPE_TXT then if end > p && StringsFrame(buf[p..end], 0) then raw else None
    else if typ == TYPE_OPT then if OptionsFrame(buf[p..end], 0) then raw else None
    else Some(Rdata(buf[p..end], NoPayload, !HoldsPointer(buf, p, end)))
  }

  /** An OPT record belongs in the additional section, under the root, and at most once. */
  predicate OptMisplaced(typ: uint16, owner: bytes, additional: bool, seenOpt: bool) {
    typ == TYPE_OPT && (!additional || owner != [] || seenOpt)
  }

  function ParseRecord(buf: bytes, p: nat, additional: bool, seenOpt: bool): (r: Option<ParsedRecord>)
    ensures r.Some? ==> p < r.value.next <= |buf|
  {
    match DecodeName(buf, p)
    case None => None
    case Some(owner) =>
      DecodeNameBounds(buf, p);
      var f := p + owner.consumed;
      if |buf| - f < 10 then None else
        var typ, d := ReadU16(buf, f), f + 10;
        var end := d + ReadU16(buf, f + 8);
        if end > |buf| || OptMisplaced(typ, owner.name, additional, seenOpt) then None else
          match ReadRdata(buf, d, end, typ)
          case None => None
          case Some(rd) =>
            Some(ParsedRecord(Record(owner.name, typ, ReadU16(buf, f + 2), ReadU32(buf, f + 4),
                                     rd.bin, rd.payload, rd.cacheable, 0),
                              end, seenOpt || typ == TYPE_OPT))
  }
}
