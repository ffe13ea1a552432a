/** What the writer's packets look like from outside: header, flags, spelling, pointers and size. */
module WireReplies {
  import opened Bytes
  import opened Names
  import opened NameCodec
  import opened Messages
  import opened RecordCodec
  import opened RecordRoundTrip
  import opened MessageCodec
  import opened MessageRoundTrip
  import opened Truncation
  import opened WireNames
  import opened WireRecords

  // ----- The header -----

  function AtMost(n: nat, most: nat): nat {
    if n < most then n else most
  }

  /** Id, flags and the four counts, none above 100, fill the first twelve octets, high octets first. */
  lemma {:induction false} HeaderOnWire(msg: Message)
    requires EncodeMessage(msg).Some?
    ensures var b := EncodeMessage(msg).value;
      && |b| >= 12
      && Two(b, 0) == msg.header.id && Two(b, 2) == msg.header.flags
      && Two(b, 4) == AtMost(|msg.questions|, 100) && Two(b, 6) == AtMost(|msg.answers|, 100)
      && Two(b, 8) == AtMost(|msg.authorities|, 100) && Two(b, 10) == AtMost(|msg.additionals|, 100)
  {
    hide EncodeItems, EncodeQuestions, Items, HeaderBytes, QuestionPart, Two;
    var h, b := CountedHeader(msg), EncodeMessage(msg).value;
    assert HeaderBytes(h) <= b;
    HeaderReadsBack(h, b);
    HeaderTwos(b);
  }

  lemma {:induction false} HeaderTwos(b: bytes)
    requires |b| >= 12
    ensures ReadHeader(b) == Header(Two(b, 0), Two(b, 2), Two(b, 4), Two(b, 6), Two(b, 8), Two(b, 10))
  {
  }

  // ----- Packets -----

  /** Over UDP a message that fits in the limit, which is never below 512 octets, goes out as it is. */
  lemma {:induction false} WholeIfItFits(msg: Message, udpLimit: uint16)
    requires EncodeMessage(msg).Some? && (|EncodeMessage(msg).value| <= 512 || |EncodeMessage(msg).value| <= udpLimit)
    ensures PacketFor(msg, false, udpLimit) == EncodeMessage(msg)
  {
    hide EncodeMessage;
  }

  /** The second bit of the third octet is set, and everything else in the first four octets is the same. */
  predicate OnlyTcAdded(whole: bytes, cut: bytes) {
    && |whole| >= 12 && |cut| >= 12
    && cut[2] / 2 % 2 == 1 && cut[2] as int == whole[2] as int + (if whole[2] / 2 % 2 == 1 then 0 else 2)
    && cut[0] == whole[0] && cut[1] == whole[1] && cut[3] == whole[3]
  }

  /** One that does not fit is cut, and its flags say so. */
  lemma {:induction false} CutSetsOneBit(msg: Message, udpLimit: uint16)
    requires EncodeMessage(msg).Some? && |EncodeMessage(msg).value| > 512 && |EncodeMessage(msg).value| > udpLimit
    ensures PacketFor(msg, false, udpLimit).Some?
    ensures |PacketFor(msg, false, udpLimit).value| <= |EncodeMessage(msg).value|
    ensures OnlyTcAdded(EncodeMessage(msg).value, PacketFor(msg, false, udpLimit).value)
  {
    hide EncodeMessage, FittingItems, EncodeItems, Items, Take, Clamp, OnlyTcAdded;
    var limit := Max(512, udpLimit);
    var short := Shorten(msg, FittingItems(msg, limit));
    TruncationKeepsMeaning(msg, udpLimit);
    HeaderOnWire(msg);
    HeaderOnWire(short);
    OneBit(EncodeMessage(msg).value, EncodeMessage(short).value, msg.header.flags);
  }

  lemma {:induction false} OneBit(whole: bytes, cut: bytes, flags: uint16)
    requires |whole| >= 12 && |cut| >= 12 && Two(whole, 0) == Two(cut, 0)
    requires Two(whole, 2) == flags && Two(cut, 2) == WithTc(flags)
    ensures OnlyTcAdded(whole, cut)
  {
    Halves(whole[0], whole[1], cut[0], cut[1]);
    var high, low := whole[2] as int, whole[3] as int;
    assert flags == 256 * high + low;
    assert flags / 512 == high / 2;
    if high / 2 % 2 == 1 {
      Halves(whole[2], whole[3], cut[2], cut[3]);
    } else {
      assert high + 2 < 256;
      Halves(high + 2, whole[3], cut[2], cut[3]);
      assert (high + 2) / 2 % 2 == 1;
    }
  }

  lemma {:induction false} Halves(a: byte, b: byte, c: byte, d: byte)
    requires 256 * a as int + b as int == 256 * c as int + d as int
    ensures a == c && b == d
  {
  }

  // ----- Owners -----

  /** An owner that is the question's name up to case is written in the question's spelling, any other in lower case. */
  lemma {:induction false} OwnerOnWire(question: bytes, r: Record)
    requires Encodable(question) && Encodable(r.name)
    ensures ItemFor(question, false, r).rec == r
    ensures SameUpToCase(r.name, question) ==> ItemFor(question, false, r).owner == question
    ensures !SameUpToCase(r.name, question) ==>
      var owner := ItemFor(question, false, r).owner;
      SameUpToCase(owner, r.name) && forall i :: 0 <= i < |owner| ==> !(65 <= owner[i] <= 90)
  {
    hide Lower, Labelled, SameUpToCase;
    if question != [] { EncodableHasNoNul(question); }
    if r.name != [] { EncodableHasNoNul(r.name); }
    SameUpToCaseExactly(r.name, question);
    SameUpToCaseExactly(Lower(r.name), r.name);
    LowerTwice(r.name);
    LowerHasNoCapitals(r.name);
  }

  /**
    * The answer to a question takes two octets for its owner: the question's name stands at offset 12,
    * and the first answer for it begins with a pointer there.
    */
  lemma {:induction false} AnswerPointsAtQuestion(msg: Message, q: Question)
    requires msg.questions == [q] && q.name != [] && Encodable(q.name)
    requires msg.answers != [] && Encodable(msg.answers[0].name) && SameUpToCase(msg.answers[0].name, q.name)
    requires EncodeMessage(msg).Some?
    ensures var b, at := EncodeMessage(msg).value, 12 + |q.name| + 2 + 4;
      at + 2 <= |b| && b[at] == 0xc0 && b[at + 1] == 0x0c
  {
    hide EncodeName, EncodeRecord, Encodable, Spelling, SameUpToCase, EncodeItems, HeaderBytes, CountedHeader;
    var first := Items(msg)[0];
    var asked, b := QuestionPart(msg), EncodeMessage(msg).value;
    var at := 12 + |asked.bytes|;
    OwnerOnWire(q.name, msg.answers[0]);
    assert Answers(msg)[0] == ItemFor(q.name, false, msg.answers[0]);
    assert first.owner == q.name;
    QuestionAlone(msg, q);
    FirstItem(at, asked.names, Items(msg));
    var r := EncodeRecord(at, asked.names, first.owner, first.rec).value;
    PointerFirst(at, asked.names, q.name, first.rec);
    var items := EncodeItems(at, asked.names, Items(msg)).value.bytes;
    assert b == HeaderBytes(CountedHeader(msg)) + asked.bytes + items;
    assert b[at] == items[0] && b[at + 1] == items[1];
  }

  lemma {:induction false} FirstItem(at: int, names: Offsets, items: seq<Item>)
    requires items != [] && EncodeItems(at, names, items).Some?
    ensures EncodeRecord(at, names, items[0].owner, items[0].rec).Some?
    ensures EncodeRecord(at, names, items[0].owner, items[0].rec).value.bytes
            <= EncodeItems(at, names, items).value.bytes
  {
    hide EncodeRecord;
  }

  lemma {:induction false} QuestionAlone(msg: Message, q: Question)
    requires msg.questions == [q] && q.name != [] && Encodable(q.name)
    ensures |QuestionPart(msg).bytes| == |q.name| + 2 + 4
    ensures q.name in QuestionPart(msg).names && QuestionPart(msg).names[q.name] == 12
  {
    hide EncodeName, Labelled;
    var labels := NameIsDotted(q.name);
    FreshNameOnWire(12, labels);
    WireSize(labels);
    NameIsFiled(12, map[], q.name);
    assert [q][1..] == [];
    assert EncodeQuestions(12 + |q.name| + 6, EncodeName(12, map[], q.name).names, []) ==
           Written([], EncodeName(12, map[], q.name).names);
  }

  lemma {:induction false} PointerFirst(at: int, names: Offsets, s: bytes, r: Record)
    requires s != [] && Encodable(s) && s in names && names[s] == 12 && EncodeRecord(at, names, s, r).Some?
    ensures var b := EncodeRecord(at, names, s, r).value.bytes;
      |b| >= 2 && b[0] == 0xc0 && b[1] == 0x0c
  {
    hide EncodeName, EncodeRdata, Labelled;
    FiledNameIsPointer(at, names, s);
  }
}
