/** Reverse look-ups answered from the hosts file, and which of these answers can be written. */
module LocalReplies {
  import opened Bytes
  import opened Names
  import opened NameCodec
  import opened Messages
  import opened RecordCodec
  import opened MessageCodec
  import opened Rewriting
  import opened FilterRules
  import opened RecordRoundTrip
  import opened MessageRoundTrip
  import Truncation

  function PtrRecord(q: Question, ttl: uint32, host: bytes): Record {
    Record(q.name, TYPE_PTR, q.clas, ttl, [], PtrPayload(host), true, 0)
  }

  function OptRecord(payload: uint16): Record {
    Record([], TYPE_OPT, payload, 0, [], NoPayload, true, 0)
  }

  /** The answer to a reverse look-up, with an OPT record if the client sent one. */
  function PtrReply(h: Header, q: Question, ttl: uint32, host: bytes, edns: Option<uint16>): Message {
    Message(h, [q], [PtrRecord(q, ttl, host)], [], if edns.None? then [] else [OptRecord(edns.value)])
  }

  lemma {:induction false} PtrItems(h: Header, q: Question, ttl: uint32, host: bytes, edns: Option<uint16>)
    ensures var items := Items(PtrReply(h, q, ttl, host, edns));
      && |items| <= 2 && items != [] && items[0].owner == Spelling(q.name, q.name)
      && items[0].rec == PtrRecord(q, ttl, host)
      && (|items| == 2 ==> edns.Some? && items[1] == Item([], OptRecord(edns.value)))
  {
    hide Spelling;
  }

  lemma {:induction false} OptIsWritten(at: int, names: Offsets, payload: uint16)
    ensures var r := EncodeRecord(at, names, [], OptRecord(payload));
      r.Some? && |r.value.bytes| <= 600
  {
    assert OptionsFrame([], 0);
  }

  lemma {:induction false} PtrIsWritten(at: int, names: Offsets, owner: bytes, q: Question, ttl: uint32, host: bytes)
    requires Encodable(owner)
    ensures var r := EncodeRecord(at, names, owner, PtrRecord(q, ttl, host));
      (r.Some? <==> Encodable(host)) && (r.Some? ==> |r.value.bytes| <= 600)
  {
    hide Labelled, EncodeName;
  }

  /** A packet can be made of the answer exactly when the host's name has a wire form. */
  lemma {:induction false} PtrRepliesWritten(h: Header, q: Question, ttl: uint32, host: bytes, edns: Option<uint16>)
    requires Encodable(q.name)
    ensures PacketFor(PtrReply(h, q, ttl, host, edns), true, 0).Some? <==> Encodable(host)
  {
    hide Encodable, EncodeRecord, PtrRecord, OptRecord, PtrReply, Items, QuestionPart, Spelling;
    var msg := PtrReply(h, q, ttl, host, edns);
    QuestionsOf(h, q, ttl, host, edns);
    Truncation.OneQuestionFits(msg);
    PtrItems(h, q, ttl, host, edns);
    SpellingIsEncodable(q.name, q.name);
    var at, names, items := HEADER_SIZE + |QuestionPart(msg).bytes|, QuestionPart(msg).names, Items(msg);
    PtrIsWritten(at, names, items[0].owner, q, ttl, host);
    var first := EncodeRecord(at, names, items[0].owner, items[0].rec);
    if first.Some? {
      var next, more := at + |first.value.bytes|, first.value.names;
      assert EncodeItems(next, more, []) == Some(Written([], more));
      if |items| == 2 {
        OptIsWritten(next, more, edns.value);
        var opt := EncodeRecord(next, more, [], OptRecord(edns.value)).value;
        assert items[1..][1..] == [];
        assert EncodeItems(next + |opt.bytes|, opt.names, []) == Some(Written([], opt.names));
        assert EncodeItems(next, more, items[1..]) == Some(Written(opt.bytes + [], opt.names));
      } else {
        assert items[1..] == [];
      }
    }
  }

  lemma {:induction false} QuestionsOf(h: Header, q: Question, ttl: uint32, host: bytes, edns: Option<uint16>)
    ensures PtrReply(h, q, ttl, host, edns).questions == [q]
  {
  }

  /** The client reads what was found: the one question, and one PTR record with its name and the host's. */
  predicate Tells(m: Message, h: Header, q: Question, ttl: uint32, host: bytes, edns: Option<uint16>) {
    && m.header.id == h.id && m.header.flags == h.flags && m.questions == [q]
    && m.answers == [Record(q.name, 12, q.clas, ttl, [], PtrPayload(Lower(host)), true, 0)]
    && m.authorities == []
    && |m.additionals| == (if edns.Some? then 1 else 0)
    && (edns.Some? ==> m.additionals[0].typ == 41 && m.additionals[0].name == [] && m.additionals[0].clas == edns.value)
  }

  lemma {:induction false} OwnSpelling(name: bytes)
    ensures Spelling(name, name) == name
  {
  }

  lemma {:induction false} FirstCanon(at: int, names: Offsets, items: seq<Item>)
    requires items != [] && EncodeItems(at, names, items).Some?
    ensures var all := CanonItems(at, names, items);
      && |all| == |items|
      && exists end :: all[0] == CanonRecord(items[0].owner, items[0].rec, end)
    ensures |items| == 2 ==>
            exists end :: CanonItems(at, names, items)[1] == CanonRecord(items[1].owner, items[1].rec, end)
  {
    hide EncodeRecord, CanonRecord;
    CanonItemsAreTheItems(at, names, items);
    var r := EncodeRecord(at, names, items[0].owner, items[0].rec).value;
    var end := at + |r.bytes|;
    assert CanonItems(at, names, items)[0] == CanonRecord(items[0].owner, items[0].rec, end);
    if |items| == 2 {
      var r1 := EncodeRecord(end, r.names, items[1].owner, items[1].rec).value;
      assert CanonItems(at, names, items)[1] == CanonRecord(items[1].owner, items[1].rec, end + |r1.bytes|);
    }
  }

  /** And if it can be written, the client reads just that. */
  lemma {:induction false} PtrRepliesAreRead(h: Header, q: Question, ttl: uint32, host: bytes, edns: Option<uint16>)
    requires Encodable(q.name) && Encodable(host)
    ensures var p := PacketFor(PtrReply(h, q, ttl, host, edns), true, 0);
      && p.Some? && |p.value| >= 2 && ParseMessage(p.value[2..]).Some?
      && Tells(ParseMessage(p.value[2..]).value, h, q, ttl, host, edns)
  {
    hide Encodable, EncodeRecord, EncodeItems, CanonItems, ParseMessage, PacketFor, EncodeMessage, Spelling,
         QuestionPart;
    var msg := PtrReply(h, q, ttl, host, edns);
    PtrRepliesWritten(h, q, ttl, host, edns);
    TcpPacketIsFramed(msg, 0);
    RoundTripExactly(msg);
    PtrItems(h, q, ttl, host, edns);
    OwnSpelling(q.name);
    CanonRecordsAreTheItems(msg);
    ItemsAreWritten(msg);
    FirstCanon(HEADER_SIZE + |QuestionPart(msg).bytes|, QuestionPart(msg).names, Items(msg));
  }

  lemma {:induction false} ItemsAreWritten(msg: Message)
    requires EncodeMessage(msg).Some?
    ensures EncodeItems(HEADER_SIZE + |QuestionPart(msg).bytes|, QuestionPart(msg).names, Items(msg)).Some?
  {
    hide EncodeItems, QuestionPart, Items;
  }

  // ----- Host names -----

  lemma {:induction false} ValidIsLabelled(v: bytes)
    requires ValidLabels(v)
    ensures Labelled(v)
    decreases |v|
  {
    var d := FirstDot(v);
    FirstLabelIsValid(v);
    if d < |v| {
      ParentIsValid(v);
      ValidIsLabelled(v[d + 1..]);
    }
  }

  lemma {:induction false} FirstLabelIsValid(v: bytes)
    requires ValidLabels(v)
    ensures IsLabel(v[..FirstDot(v)])
  {
    var d := FirstDot(v);
    assert StartsLabel(v, 0);
    if |v| >= 64 {
      assert DotWithin(v, 0, 64);
    }
    forall i | 0 <= i < d ensures LabelByte(v[..d][i]) {
      assert v[..d][i] == v[i];
    }
  }

  lemma {:induction false} ParentIsValid(v: bytes)
    requires ValidLabels(v) && FirstDot(v) < |v|
    ensures ValidLabels(v[FirstDot(v) + 1..])
  {
    var d := FirstDot(v);
    var w := v[d + 1..];
    forall i | 0 <= i < |w| && StartsLabel(w, i) ensures w[i] != DOT && w[i] != HYPHEN {
      assert StartsLabel(v, d + 1 + i);
    }
    forall i | 0 <= i && i + 64 <= |w| ensures DotWithin(w, i, 64) {
      assert DotWithin(v, d + 1 + i, 64);
      var j: nat :| d + 1 + i <= j < d + 1 + i + 64 && j < |v| && v[j] == DOT;
      assert w[j - d - 1] == DOT;
    }
  }

  lemma {:induction false} LabelledEnds(s: bytes)
    requires Labelled(s)
    ensures s != [] && s[|s| - 1] != DOT
    decreases |s|
  {
    var d := FirstDot(s);
    if d < |s| {
      LabelledEnds(s[d + 1..]);
    }
  }

  /**
    * The hosts file's own test of a name lets a final dot through, and exactly then the name it keeps,
    * in lower case, has no wire form.
    */
  lemma {:induction false} HostNamesWritten(name: bytes)
    requires ValidDomain(name)
    ensures name != [] && (Encodable(Lower(name)) <==> name[|name| - 1] != DOT)
  {
    hide Labelled, Lower, ValidLabels;
    ValidIsNonempty(name);
    if name != [DOT] && name[|name| - 1] != DOT {
      ValidIsLabelled(name);
      ValidIsShort(name);
      LowerKeepsEncodable(name);
    } else {
      LowerKeepsDot(name);
      if Encodable(Lower(name)) {
        LabelledEnds(Lower(name));
      }
    }
  }

  /** A reverse look-up of an address in the hosts file can be answered unless its name was given a final dot. */
  lemma {:induction false} HostAnswersWritten(h: Header, q: Question, ttl: uint32, name: bytes, edns: Option<uint16>)
    requires Encodable(q.name) && ValidDomain(name)
    ensures name != []
    ensures PacketFor(PtrReply(h, q, ttl, Lower(name), edns), true, 0).Some? <==> name[|name| - 1] != DOT
  {
    hide Encodable, ValidDomain, PacketFor, PtrReply, Lower;
    HostNamesWritten(name);
    PtrRepliesWritten(h, q, ttl, Lower(name), edns);
  }

  lemma {:induction false} ValidIsNonempty(name: bytes)
    requires ValidDomain(name)
    ensures name != []
  {
  }

  lemma {:induction false} ValidIsShort(v: bytes)
    requires ValidLabels(v)
    ensures |v| <= MAX_NAME
  {
  }

  lemma {:induction false} LowerKeepsDot(s: bytes)
    requires s != [] && s[|s| - 1] == DOT
    ensures Lower(s) != [] && Lower(s)[|Lower(s)| - 1] == DOT
  {
    assert Lower(s)[|s| - 1] == LowerByte(DOT);
  }
}
