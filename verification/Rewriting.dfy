/** Which of the messages the reader accepts can be written again. */
module Rewriting {
  import opened Bytes
  import opened Names
  import opened NameCodec
  import opened Messages
  import opened RecordCodec
  import opened RecordRoundTrip
  import opened MessageCodec
  import opened MessageRoundTrip
  import opened Truncation

  // ----- What the reader guarantees of a record -----

  predicate SoundPayload(r: Record) {
    && (r.typ == TYPE_PTR ==> r.payload.PtrPayload? && Encodable(r.payload.ptr))
    && (r.typ == TYPE_CNAME ==> r.payload.CnamePayload? && Encodable(r.payload.cname))
    && (r.typ == TYPE_NS ==> r.payload.NsPayload? && Encodable(r.payload.nsname))
    && (r.typ == TYPE_MX ==> r.payload.MxPayload? && Encodable(r.payload.exchange))
    && (r.typ == TYPE_SOA ==> r.payload.SoaPayload? && Encodable(r.payload.nname) && Encodable(r.payload.rname))
    && (r.typ == TYPE_HTTPS ==> r.payload.HttpsPayload? && Encodable(r.payload.target)
                                && |r.payload.params| <= UINT16_MAX && ParamsFrame(r.payload.params, 0, -1))
    && (!Structured(r.typ) ==> RawIsValid(r.(cacheable := true)))
  }

  predicate Sound(r: Record) {
    Encodable(r.name) && SoundPayload(r)
  }

  lemma {:induction false} LowerKeepsDots(s: bytes)
    ensures FirstDot(Lower(s)) == FirstDot(s)
    ensures Lower(s)[..FirstDot(s)] == Lower(s[..FirstDot(s)])
    ensures FirstDot(s) < |s| ==> Lower(s)[FirstDot(s) + 1..] == Lower(s[FirstDot(s) + 1..])
  {
    var d, l := FirstDot(s), Lower(s);
    forall k | 0 <= k < d ensures l[k] != DOT {
      assert l[k] == LowerByte(s[k]);
    }
    FirstDotIs(l, d);
  }

  lemma {:induction false} LowerLabelled(s: bytes)
    requires s != [] && Labelled(s)
    ensures Labelled(Lower(s))
    decreases |s|
  {
    hide Labelled, IsLabel, Lower;
    LabelledUnfolds(s);
    LowerKeepsDots(s);
    LowerLabel(First(s));
    if FirstDot(s) < |s| {
      LowerLabelled(Parent(s));
    }
    LabelledUnfolds(Lower(s));
  }

  lemma {:induction false} LowerLabel(s: bytes)
    requires IsLabel(s)
    ensures IsLabel(Lower(s))
  {
    IsLabelMeans(s);
    IsLabelMeans(Lower(s));
    forall i | 0 <= i < |s| ensures LabelByte(Lower(s)[i]) {
      assert LabelByte(s[i]);
    }
  }

  lemma {:induction false} LowerKeepsEncodable(s: bytes)
    requires Encodable(s)
    ensures Encodable(Lower(s))
  {
    if s != [] { LowerLabelled(s); }
  }

  lemma {:induction false} OnlyNameIsSound(buf: bytes, p: nat, end: nat)
    requires ReadOnlyName(buf, p, end).Some?
    ensures Encodable(ReadOnlyName(buf, p, end).value)
  {
    hide DecodeName, Encodable, Lower;
    RdataNameIsSound(buf, p, end);
  }

  lemma {:induction false} RdataNameIsSound(buf: bytes, p: nat, end: nat)
    requires ReadRdataName(buf, p, end).Some?
    ensures Encodable(Lower(ReadRdataName(buf, p, end).value.name))
  {
    hide DecodeName, Encodable, Lower;
    DecodeNameBounds(buf, p);
    LowerKeepsEncodable(DecodeName(buf, p).value.name);
  }

  lemma {:induction false} SoaIsSound(buf: bytes, p: nat, end: nat)
    requires end <= |buf| && ReadSoa(buf, p, end).Some?
    ensures var soa := ReadSoa(buf, p, end).value;
      soa.SoaPayload? && Encodable(soa.nname) && Encodable(soa.rname)
  {
    hide DecodeName, Encodable, Lower, ReadRdataName, ReadU32;
    RdataNameIsSound(buf, p, end);
    RdataNameIsSound(buf, p + ReadRdataName(buf, p, end).value.consumed, end);
  }

  lemma {:induction false} HttpsIsSound(buf: bytes, p: nat, end: nat)
    requires p <= end <= |buf| && end - p <= UINT16_MAX && ReadHttps(buf, p, end).Some?
    ensures var https := ReadHttps(buf, p, end).value;
      https.HttpsPayload? && Encodable(https.target) && |https.params| <= UINT16_MAX && ParamsFrame(https.params, 0, -1)
  {
    hide DecodeName, Encodable, Lower, ParamsFrame;
    RdataNameIsSound(buf, p + 2, end);
  }

  lemma {:induction false} RdataIsSound(buf: bytes, p: nat, end: nat, r: Record)
    requires p <= end <= |buf| && end - p <= UINT16_MAX
    requires ReadRdata(buf, p, end, r.typ) == Some(Rdata(r.bin, r.payload, r.cacheable))
    ensures SoundPayload(r)
  {
    hide ReadOnlyName, ReadSoa, ReadHttps, Encodable, ParamsFrame, OptionsFrame, StringsFrame, HoldsPointer, ReadU16;
    if r.typ == TYPE_SOA {
      SoaIsSound(buf, p, end);
    } else if r.typ == TYPE_HTTPS {
      HttpsIsSound(buf, p, end);
    } else if r.typ == TYPE_MX {
      OnlyNameIsSound(buf, p + 2, end);
    } else if Structured(r.typ) {
      OnlyNameIsSound(buf, p, end);
    }
  }

  lemma {:induction false} ParsedRecordIsSound(buf: bytes, p: nat, additional: bool, seenOpt: bool)
    requires ParseRecord(buf, p, additional, seenOpt).Some?
    ensures Sound(ParseRecord(buf, p, additional, seenOpt).value.rec)
  {
    hide ReadRdata, DecodeName, SoundPayload, Encodable, ReadU32;
    DecodeNameBounds(buf, p);
    var d := p + DecodeName(buf, p).value.consumed + 10;
    RdataIsSound(buf, d, d + ReadU16(buf, d - 2), ParseRecord(buf, p, additional, seenOpt).value.rec);
  }

  predicate AllSound(rs: seq<Record>) {
    forall i :: 0 <= i < |rs| ==> Sound(rs[i])
  }

  lemma {:induction false} ParsedRecordsAreSound(buf: bytes, p: nat, count: nat, additional: bool, seenOpt: bool)
    requires p <= |buf| && ParseRecords(buf, p, count, additional, seenOpt).Some?
    ensures AllSound(ParseRecords(buf, p, count, additional, seenOpt).value.entries)
    decreases count
  {
    hide ParseRecord, Sound;
    if count > 0 {
      var first := ParseRecord(buf, p, additional, seenOpt).value;
      ParsedRecordIsSound(buf, p, additional, seenOpt);
      ParsedRecordsAreSound(buf, first.next, count - 1, additional, first.seenOpt);
    }
  }

  // ----- Writing one record again -----

  /** The octets of an HTTPS record's data, written where they would be. */
  function HttpsSize(at: int, names: Offsets, owner: bytes, https: Payload): nat
    requires https.HttpsPayload? && Encodable(owner) && Encodable(https.target)
  {
    var o := EncodeName(at, names, owner);
    2 + |EncodeName(at + |o.bytes| + 12, o.names, https.target).bytes| + |https.params|
  }

  /** The two guards a record from the reader can still fail. */
  predicate Writable(at: int, names: Offsets, item: Item)
    requires Encodable(item.owner) && SoundPayload(item.rec)
  {
    && (Opaque(item.rec.typ) ==> item.rec.cacheable)
    && (item.rec.typ == TYPE_HTTPS ==> HttpsSize(at, names, item.owner, item.rec.payload) <= UINT16_MAX)
  }

  lemma {:induction false} RdataWritten(at: int, names: Offsets, r: Record)
    requires SoundPayload(r)
    ensures EncodeRdata(at, names, r).Some? <==> (Opaque(r.typ) ==> r.cacheable)
    ensures EncodeRdata(at, names, r).Some? ==>
      |EncodeRdata(at, names, r).value.bytes| ==
      if r.typ == TYPE_HTTPS then 2 + |EncodeName(at + 2, names, r.payload.target).bytes| + |r.payload.params|
      else |EncodeRdata(at, names, r).value.bytes|
    ensures EncodeRdata(at, names, r).Some? && r.typ != TYPE_HTTPS ==>
            |EncodeRdata(at, names, r).value.bytes| <= UINT16_MAX
  {
    hide EncodeName, ParamsFrame, OptionsFrame, StringsFrame, Labelled;
  }

  /** A record from the reader is refused by the writer exactly when it fails one of the two guards. */
  lemma {:induction false} RecordIsWritable(at: int, names: Offsets, item: Item)
    requires Encodable(item.owner) && SoundPayload(item.rec)
    ensures EncodeRecord(at, names, item.owner, item.rec).Some? <==> Writable(at, names, item)
  {
    hide EncodeName, EncodeRdata, Labelled;
    var o := EncodeName(at, names, item.owner);
    RdataWritten(at + |o.bytes| + 10, o.names, item.rec);
  }

  // ----- Writing a message again -----

  predicate AllEncodable(items: seq<Item>) {
    forall i :: 0 <= i < |items| ==> Encodable(items[i].owner) && SoundPayload(items[i].rec)
  }

  predicate AllWritable(at: int, names: Offsets, items: seq<Item>)
    requires AllEncodable(items)
    decreases |items|
  {
    items == [] || (
      && Writable(at, names, items[0])
      && match EncodeRecord(at, names, items[0].owner, items[0].rec)
         case None => true
         case Some(r) => AllWritable(at + |r.bytes|, r.names, items[1..]))
  }

  lemma {:induction false} ItemsAreWritable(at: int, names: Offsets, items: seq<Item>)
    requires AllEncodable(items)
    ensures EncodeItems(at, names, items).Some? <==> AllWritable(at, names, items)
    decreases |items|
  {
    hide EncodeRecord, Writable, Encodable, SoundPayload;
    if items != [] {
      RecordIsWritable(at, names, items[0]);
      var r := EncodeRecord(at, names, items[0].owner, items[0].rec);
      if r.Some? {
        ItemsAreWritable(at + |r.value.bytes|, r.value.names, items[1..]);
      }
    }
  }

  lemma {:induction false} SpellingIsEncodable(question: bytes, owner: bytes)
    requires Encodable(question) && Encodable(owner)
    ensures Encodable(Spelling(question, owner))
  {
    hide Encodable, Lower, SameIgnoringCase;
    LowerKeepsEncodable(owner);
  }

  lemma {:induction false} SoundItems(question: bytes, additional: bool, rs: seq<Record>)
    requires Encodable(question) && AllSound(rs)
    ensures AllEncodable(ItemsFor(question, additional, rs))
  {
    hide SoundPayload, Spelling, Labelled;
    forall i | 0 <= i < |rs| ensures Encodable(ItemFor(question, additional, rs[i]).owner) {
      assert Sound(rs[i]);
      SpellingIsEncodable(question, rs[i].name);
    }
  }

  lemma {:induction false} ParsedItemsAreSound(buf: bytes)
    requires ParseMessage(buf).Some?
    ensures AllEncodable(Items(ParseMessage(buf).value))
  {
    hide ParseRecords, ParseQuestions, ItemsFor, Encodable, SoundPayload, AllSound, Clamp;
    var h, msg := ReadHeader(buf), ParseMessage(buf).value;
    var qd := ParseQuestions(buf, HEADER_SIZE, h.qdcount).value;
    var an := ParseRecords(buf, qd.next, h.ancount, false, false).value;
    var ns := ParseRecords(buf, an.next, h.nscount, false, an.seenOpt).value;
    ParsedRecordsAreSound(buf, qd.next, h.ancount, false, false);
    ParsedRecordsAreSound(buf, an.next, h.nscount, false, an.seenOpt);
    ParsedRecordsAreSound(buf, ns.next, h.arcount, true, ns.seenOpt);
    ParsedQuestionsAreEncodable(buf, HEADER_SIZE, h.qdcount);
    ParsedAsMany(buf);
    RootIsEncodable();
    var q := FirstQuestionName(msg);
    SoundItems(q, false, an.entries);
    SoundItems(q, false, ns.entries);
    SoundItems(q, true, ParseRecords(buf, ns.next, h.arcount, true, ns.seenOpt).value.entries);
  }

  lemma {:induction false} RootIsEncodable()
    ensures Encodable([])
  {
  }

  /**
    * What the reader accepted can be written again exactly when no unknown data in it look compressed
    * and every HTTPS record's data, with its name written out, fit their length field; and then it is
    * read back as its canonical form.
    */
  lemma {:induction false} ParsedMessagesSurvive(buf: bytes)
    requires ParseMessage(buf).Some?
    ensures var msg := ParseMessage(buf).value;
      var q := QuestionPart(msg);
      && AllEncodable(Items(msg))
      && (EncodeMessage(msg).Some? <==> AllWritable(HEADER_SIZE + |q.bytes|, q.names, Items(msg)))
      && (EncodeMessage(msg).Some? ==> ParseMessage(EncodeMessage(msg).value) == Some(CanonMessage(msg)))
  {
    hide ParseMessage, RoundTrippable, CanonMessage, AllEncodable, AllWritable, QuestionPart, Items, EncodeItems;
    var msg := ParseMessage(buf).value;
    var q := QuestionPart(msg);
    ParsedItemsAreSound(buf);
    ItemsAreWritable(HEADER_SIZE + |q.bytes|, q.names, Items(msg));
    ParsedMessagesAreRoundTrippable(buf);
    if EncodeMessage(msg).Some? {
      RoundTrip(msg);
    }
  }

  /** A caller need not know where a record will stand: this much room is enough for any name. */
  lemma {:induction false} ShortParamsFit(at: int, names: Offsets, items: seq<Item>)
    requires AllEncodable(items)
    requires forall i :: 0 <= i < |items| ==> Opaque(items[i].rec.typ) ==> items[i].rec.cacheable
    requires forall i :: 0 <= i < |items| ==> items[i].rec.typ == TYPE_HTTPS ==>
            |items[i].rec.payload.params| + 257 <= UINT16_MAX
    ensures AllWritable(at, names, items)
    decreases |items|
  {
    hide EncodeRecord, EncodeName, Labelled;
    if items != [] {
      var r := EncodeRecord(at, names, items[0].owner, items[0].rec);
      if r.Some? {
        ShortParamsFit(at + |r.value.bytes|, r.value.names, items[1..]);
      }
    }
  }

  // ----- Messages that are always, or never, written -----

  /** The program's own queries: one question and no records. */
  function QueryMessage(h: Header, q: Question): Message {
    Message(h, [q], [], [], [])
  }

  /** Making a packet of a query cannot fail. */
  lemma {:induction false} QueriesAreWritten(h: Header, q: Question, udpLimit: uint16)
    ensures PacketFor(QueryMessage(h, q), true, udpLimit).Some?
  {
    hide QuestionPart;
    var msg := QueryMessage(h, q);
    OneQuestionFits(msg);
    assert Items(msg) == [];
    assert EncodeItems(HEADER_SIZE + |QuestionPart(msg).bytes|, QuestionPart(msg).names, []) ==
           Some(Written([], QuestionPart(msg).names));
  }

  /** An answer of unknown type 99 whose two octets of data look like a pointer to the header. */
  const UNWRITABLE: bytes :=
    [0, 1, 0x80, 0, 0, 0, 0, 1, 0, 0, 0, 0, 0, 0, 99, 0, 1, 0, 0, 0, 60, 0, 2, 0xc0, 0]

  lemma {:induction false} UnwritableRecord()
    ensures ParseRecord(UNWRITABLE, 12, false, false) ==
            Some(ParsedRecord(Record([], 99, 1, 60, [0xc0, 0], NoPayload, false, 0), 25, false))
  {
    var buf := UNWRITABLE;
    assert |buf| == 25 && buf[12] == 0;
    assert ReadName(buf, 12, 128) == Some([]) && Extent(buf, 12) == 1;
    assert buf[23..25] == [0xc0, 0];
    assert IsBackPointer(buf, 23);
  }

  lemma {:induction false} UnwritableParses()
    ensures ParseMessage(UNWRITABLE).Some?
    ensures ParseMessage(UNWRITABLE).value.questions == []
    ensures ParseMessage(UNWRITABLE).value.answers == [Record([], 99, 1, 60, [0xc0, 0], NoPayload, false, 0)]
  {
    hide ParseRecord, ParseQuestion;
    var buf := UNWRITABLE;
    UnwritableRecord();
    assert ReadHeader(buf) == Header(1, 0x8000, 0, 1, 0, 0);
    assert ParseQuestions(buf, 12, 0) == Some(ParsedSection([], 12, false));
    assert ParseRecords(buf, 25, 0, false, false) == Some(ParsedSection([], 25, false));
    assert ParseRecords(buf, 12, 1, false, false).Some?;
  }

  /** The reader accepts it, and a reply made from it cannot be written. */
  lemma {:induction false} SomeRepliesAreNotWritten()
    ensures ParseMessage(UNWRITABLE).Some? && EncodeMessage(ParseMessage(UNWRITABLE).value).None?
  {
    var buf := UNWRITABLE;
    UnwritableRecord();
    UnwritableParses();
    var msg := ParseMessage(buf).value;
    hide EncodeRecord, Encodable, SoundPayload, Spelling;
    ParsedMessagesSurvive(buf);
    assert Items(msg)[0] == ItemFor([], false, msg.answers[0]);
    assert !Writable(HEADER_SIZE + |QuestionPart(msg).bytes|, QuestionPart(msg).names, Items(msg)[0]);
  }
}
