/** Writing a message and reading it back. */
module MessageRoundTrip {
  import opened Bytes
  import opened Names
  import opened NameCodec
  import opened Messages
  import opened RecordCodec
  import opened RecordRoundTrip
  import opened MessageCodec

  /** What the reader should make of items written from `at` on, as far as they can be written. */
  function CanonItems(at: int, names: Offsets, items: seq<Item>): (rs: seq<Record>)
    ensures |rs| <= |items|
    decreases |items|
  {
    if items == [] then [] else
      match EncodeRecord(at, names, items[0].owner, items[0].rec)
      case None => []
      case Some(r) =>
        [CanonRecord(items[0].owner, items[0].rec, at + |r.bytes|)] + CanonItems(at + |r.bytes|, r.names, items[1..])
  }

  lemma {:induction false} CanonItemsAreTheItems(at: int, names: Offsets, items: seq<Item>)
    requires EncodeItems(at, names, items).Some?
    ensures |CanonItems(at, names, items)| == |items|
    ensures forall i :: 0 <= i < |items| ==> CanonItems(at, names, items)[i].typ == items[i].rec.typ
    decreases |items|
  {
    hide EncodeRecord;
    if items != [] {
      var r := EncodeRecord(at, names, items[0].owner, items[0].rec).value;
      CanonItemsAreTheItems(at + |r.bytes|, r.names, items[1..]);
    }
  }

  /** All records of a message as the reader should get them back. */
  function CanonRecords(msg: Message): seq<Record> {
    CanonItems(HEADER_SIZE + |QuestionPart(msg).bytes|, QuestionPart(msg).names, Items(msg))
  }

  lemma {:induction false} CanonRecordsAreTheItems(msg: Message)
    requires EncodeMessage(msg).Some?
    ensures |CanonRecords(msg)| == |Answers(msg)| + |Authorities(msg)| + |Additionals(msg)|
    ensures forall i :: 0 <= i < |Items(msg)| ==> CanonRecords(msg)[i].typ == Items(msg)[i].rec.typ
  {
    hide EncodeItems, QuestionPart, Answers, Authorities, Additionals, CanonItems;
    CanonItemsAreTheItems(HEADER_SIZE + |QuestionPart(msg).bytes|, QuestionPart(msg).names, Items(msg));
  }

  /** The message a reader should get back: counted sections of at most 100, in canonical spelling. */
  function CanonMessage(msg: Message): Message
    requires EncodeMessage(msg).Some?
  {
    CanonRecordsAreTheItems(msg);
    var an, ns, all := |Answers(msg)|, |Authorities(msg)|, CanonRecords(msg);
    Message(CountedHeader(msg), msg.questions, all[..an], all[an..an + ns], all[an + ns..])
  }

  predicate NoOpt(rs: seq<Record>) {
    forall i :: 0 <= i < |rs| ==> rs[i].typ != TYPE_OPT
  }

  predicate OneOptAtMost(rs: seq<Record>) {
    forall i, j :: 0 <= i < j < |rs| ==> rs[i].typ != TYPE_OPT || rs[j].typ != TYPE_OPT
  }

  /** What a caller must respect for a message to survive the trip. */
  predicate RoundTrippable(msg: Message) {
    && |msg.questions| <= MAX_SECTION_COUNT
    && (forall i :: 0 <= i < |msg.questions| ==> Encodable(msg.questions[i].name))
    && NoOpt(Clamp(msg.answers)) && NoOpt(Clamp(msg.authorities)) && OneOptAtMost(Clamp(msg.additionals))
  }

  // ----- Questions -----

  lemma {:induction false} QuestionInMessage(buf: bytes, names: Offsets, q: Question, out: bytes)
    requires Faithful(buf, names) && Encodable(q.name)
    requires buf + EncodeQuestion(|buf|, names, q).bytes <= out
    ensures var w := EncodeQuestion(|buf|, names, q);
      && Faithful(buf + w.bytes, w.names)
      && ParseQuestion(out, |buf|) == Some(ParsedQuestion(q, |buf| + |w.bytes|))
  {
    hide ReadName, Extent, EncodeName, DecodeName, Faithful, FirstDot, Labelled, U16, ReadU16;
    var n := EncodeName(|buf|, names, q.name);
    var mid := buf + n.bytes;
    var fixed := U16(q.typ) + U16(q.clas);
    Concat(buf, n.bytes, fixed);
    NameInMessage(buf, names, q.name, out);
    FaithfulIsStable(mid, fixed, n.names);
    SliceOfPrefix(mid, fixed, out);
    QuestionFields(out, |mid|, q);
  }

  lemma {:induction false} QuestionFields(out: bytes, f: nat, q: Question)
    requires f + 4 <= |out| && out[f..f + 4] == U16(q.typ) + U16(q.clas)
    ensures ReadU16(out, f) == q.typ && ReadU16(out, f + 2) == q.clas
  {
    var b := out[f..f + 4];
    assert b[0..2] == U16(q.typ) && b[2..4] == U16(q.clas);
    SliceOfSlice(out, f, 4, 0, 2);
    SliceOfSlice(out, f, 4, 2, 4);
    ReadBackU16(out, f, q.typ);
    ReadBackU16(out, f + 2, q.clas);
  }

  lemma {:induction false} QuestionsInMessage(buf: bytes, names: Offsets, qs: seq<Question>, out: bytes)
    requires Faithful(buf, names) && forall i :: 0 <= i < |qs| ==> Encodable(qs[i].name)
    requires buf + EncodeQuestions(|buf|, names, qs).bytes <= out
    ensures var w := EncodeQuestions(|buf|, names, qs);
      && Faithful(buf + w.bytes, w.names)
      && ParseQuestions(out, |buf|, |qs|) == Some(ParsedSection(qs, |buf| + |w.bytes|, false))
    decreases |qs|
  {
    hide Faithful, EncodeQuestion, ParseQuestion, Encodable;
    if qs == [] {
      assert buf + [] == buf;
    } else {
      var q := EncodeQuestion(|buf|, names, qs[0]);
      var rest := EncodeQuestions(|buf| + |q.bytes|, q.names, qs[1..]);
      Concat(buf, q.bytes, rest.bytes);
      QuestionInMessage(buf, names, qs[0], out);
      QuestionsInMessage(buf + q.bytes, q.names, qs[1..], out);
      assert [qs[0]] + qs[1..] == qs;
    }
  }

  // ----- Records -----

  /** Whether the reader will accept the OPT records among these items. */
  predicate OptPlaced(items: seq<Item>, additional: bool, seenOpt: bool)
    decreases |items|
  {
    items == [] || (
      && !OptMisplaced(items[0].rec.typ, items[0].owner, additional, seenOpt)
      && OptPlaced(items[1..], additional, seenOpt || items[0].rec.typ == TYPE_OPT))
  }

  predicate HasOpt(items: seq<Item>) {
    exists i :: 0 <= i < |items| && items[i].rec.typ == TYPE_OPT
  }

  lemma {:induction false} ItemsInMessage(buf: bytes, names: Offsets, items: seq<Item>, w: Written, out: bytes,
                                          additional: bool, seenOpt: bool)
    requires Faithful(buf, names) && OptPlaced(items, additional, seenOpt)
    requires EncodeItems(|buf|, names, items) == Some(w) && buf + w.bytes <= out
    ensures Faithful(buf + w.bytes, w.names)
    ensures ParseRecords(out, |buf|, |items|, additional, seenOpt) ==
            Some(ParsedSection(CanonItems(|buf|, names, items), |buf| + |w.bytes|, seenOpt || HasOpt(items)))
    decreases |items|
  {
    hide Faithful, EncodeRecord, ParseRecord, CanonRecord, HasOpt, ParseRecords, CanonItems;
    if items == [] {
      assert buf + [] == buf;
      NothingHasNoOpt(items);
      NothingToParse(out, |buf|, names, additional, seenOpt);
    } else {
      var item, tail := items[0], items[1..];
      var r := EncodeRecord(|buf|, names, item.owner, item.rec).value;
      var rest := EncodeItems(|buf| + |r.bytes|, r.names, tail).value;
      Concat(buf, r.bytes, rest.bytes);
      RecordInMessage(buf, names, item.owner, item.rec, r, out, additional, seenOpt);
      ItemsInMessage(buf + r.bytes, r.names, tail, rest, out, additional, seenOpt || item.rec.typ == TYPE_OPT);
      HasOptSplits(items);
      var more := seenOpt || item.rec.typ == TYPE_OPT;
      OneMoreToParse(out, |buf|, |tail|, additional, seenOpt,
                     ParsedRecord(CanonRecord(item.owner, item.rec, |buf + r.bytes|), |buf + r.bytes|, more),
                     ParsedSection(CanonItems(|buf + r.bytes|, r.names, tail), |buf| + |w.bytes|,
                                   more || HasOpt(tail)));
      CanonItemsCons(|buf|, names, items, r);
    }
  }

  lemma {:induction false} NothingToParse(out: bytes, p: nat, names: Offsets, additional: bool, seenOpt: bool)
    requires p <= |out|
    ensures ParseRecords(out, p, 0, additional, seenOpt) == Some(ParsedSection([], p, seenOpt))
    ensures CanonItems(p, names, []) == []
  {
  }

  lemma {:induction false} OneMoreToParse(out: bytes, p: nat, count: nat, additional: bool, seenOpt: bool,
                                          first: ParsedRecord, rest: ParsedSection<Record>)
    requires p <= |out| && ParseRecord(out, p, additional, seenOpt) == Some(first)
    requires ParseRecords(out, first.next, count, additional, first.seenOpt) == Some(rest)
    ensures ParseRecords(out, p, count + 1, additional, seenOpt) ==
            Some(ParsedSection([first.rec] + rest.entries, rest.next, rest.seenOpt))
  {
    hide ParseRecord;
  }

  lemma {:induction false} CanonItemsCons(at: int, names: Offsets, items: seq<Item>, r: Written)
    requires items != [] && EncodeRecord(at, names, items[0].owner, items[0].rec) == Some(r)
    ensures CanonItems(at, names, items) ==
            [CanonRecord(items[0].owner, items[0].rec, at + |r.bytes|)]
            + CanonItems(at + |r.bytes|, r.names, items[1..])
  {
    hide EncodeRecord, CanonRecord;
  }

  lemma {:induction false} NothingHasNoOpt(items: seq<Item>)
    requires items == []
    ensures !HasOpt(items)
  {
  }

  lemma {:induction false} HasOptSplits(items: seq<Item>)
    requires items != []
    ensures HasOpt(items) <==> items[0].rec.typ == TYPE_OPT || HasOpt(items[1..])
  {
    if HasOpt(items[1..]) {
      var i :| 0 <= i < |items[1..]| && items[1..][i].rec.typ == TYPE_OPT;
      assert items[i + 1].rec.typ == TYPE_OPT;
    }
    if HasOpt(items) && items[0].rec.typ != TYPE_OPT {
      var i :| 0 <= i < |items| && items[i].rec.typ == TYPE_OPT;
      assert items[1..][i - 1].rec.typ == TYPE_OPT;
    }
  }

  // ----- Sections -----

  lemma {:induction false} EncodeItemsAppends(at: int, names: Offsets, xs: seq<Item>, ys: seq<Item>)
    ensures EncodeItems(at, names, xs + ys) ==
      match EncodeItems(at, names, xs)
      case None => None
      case Some(a) =>
        match EncodeItems(at + |a.bytes|, a.names, ys)
        case None => None
        case Some(b) => Some(Written(a.bytes + b.bytes, b.names))
    decreases |xs|
  {
    hide EncodeRecord;
    if xs == [] {
      assert xs + ys == ys;
      var b := EncodeItems(at, names, ys);
      assert b.Some? ==> [] + b.value.bytes == b.value.bytes;
    } else {
      assert (xs + ys)[1..] == xs[1..] + ys;
      var r := EncodeRecord(at, names, xs[0].owner, xs[0].rec);
      if r.Some? {
        var next := at + |r.value.bytes|;
        EncodeItemsAppends(next, r.value.names, xs[1..], ys);
        var a := EncodeItems(next, r.value.names, xs[1..]);
        if a.Some? {
          var b := EncodeItems(next + |a.value.bytes|, a.value.names, ys);
          if b.Some? { Concat(r.value.bytes, a.value.bytes, b.value.bytes); }
        }
      }
    }
  }

  lemma {:induction false} CanonItemsAppends(at: int, names: Offsets, xs: seq<Item>, ys: seq<Item>)
    requires EncodeItems(at, names, xs).Some?
    ensures var a := EncodeItems(at, names, xs).value;
      CanonItems(at, names, xs + ys) == CanonItems(at, names, xs) + CanonItems(at + |a.bytes|, a.names, ys)
    decreases |xs|
  {
    hide EncodeRecord, CanonRecord;
    if xs == [] {
      assert xs + ys == ys;
    } else {
      assert (xs + ys)[1..] == xs[1..] + ys;
      var r := EncodeRecord(at, names, xs[0].owner, xs[0].rec).value;
      CanonItemsAppends(at + |r.bytes|, r.names, xs[1..], ys);
    }
  }

  lemma {:induction false} PlacedWithoutOpt(items: seq<Item>, additional: bool, seenOpt: bool)
    requires !HasOpt(items)
    ensures OptPlaced(items, additional, seenOpt)
    decreases |items|
  {
    if items != [] {
      HasOptSplits(items);
      assert items[0].rec.typ != TYPE_OPT;
      PlacedWithoutOpt(items[1..], additional, seenOpt);
    }
  }

  lemma {:induction false} PlacedOnce(question: bytes, rs: seq<Record>)
    requires OneOptAtMost(rs)
    ensures OptPlaced(ItemsFor(question, true, rs), true, false)
    decreases |rs|
  {
    if rs != [] {
      var items := ItemsFor(question, true, rs);
      assert items[1..] == ItemsFor(question, true, rs[1..]);
      if rs[0].typ == TYPE_OPT {
        PlacedWithoutOpt(items[1..], true, true);
      } else {
        PlacedOnce(question, rs[1..]);
      }
    }
  }

  lemma {:induction false} HeaderReadsBack(h: Header, out: bytes)
    requires HeaderBytes(h) <= out
    ensures ReadHeader(out) == h
  {
    hide U16;
    var b := HeaderBytes(h);
    assert out[0..12] == b;
    assert b[0..2] == U16(h.id) && b[2..4] == U16(h.flags) && b[4..6] == U16(h.qdcount);
    assert b[6..8] == U16(h.ancount) && b[8..10] == U16(h.nscount) && b[10..12] == U16(h.arcount);
    SliceOfSlice(out, 0, 12, 0, 2);
    SliceOfSlice(out, 0, 12, 2, 4);
    SliceOfSlice(out, 0, 12, 4, 6);
    SliceOfSlice(out, 0, 12, 6, 8);
    SliceOfSlice(out, 0, 12, 8, 10);
    SliceOfSlice(out, 0, 12, 10, 12);
    ReadBackU16(out, 0, h.id);
    ReadBackU16(out, 2, h.flags);
    ReadBackU16(out, 4, h.qdcount);
    ReadBackU16(out, 6, h.ancount);
    ReadBackU16(out, 8, h.nscount);
    ReadBackU16(out, 10, h.arcount);
  }

  /** The three record sections, one after the other. */
  lemma {:induction false} SectionsInMessage(buf: bytes, names: Offsets, an: seq<Item>, ns: seq<Item>, ar: seq<Item>,
                                             all: seq<Record>, out: bytes)
    requires Faithful(buf, names)
    requires !HasOpt(an) && !HasOpt(ns) && OptPlaced(ar, true, false)
    requires EncodeItems(|buf|, names, an + ns + ar).Some? && all == CanonItems(|buf|, names, an + ns + ar)
    requires out == buf + EncodeItems(|buf|, names, an + ns + ar).value.bytes
    ensures |all| == |an| + |ns| + |ar|
    ensures var r := ParseRecords(out, |buf|, |an|, false, false);
      r.Some? && r.value.entries == all[..|an|] && !r.value.seenOpt
    ensures var r := ParseRecords(out, |buf|, |an|, false, false).value;
      var s := ParseRecords(out, r.next, |ns|, false, false);
      s.Some? && s.value.entries == all[|an|..|an| + |ns|] && !s.value.seenOpt
    ensures var r := ParseRecords(out, |buf|, |an|, false, false).value;
      var s := ParseRecords(out, r.next, |ns|, false, false).value;
      var t := ParseRecords(out, s.next, |ar|, true, false);
      t.Some? && t.value.entries == all[|an| + |ns|..] && t.value.next == |out|
  {
    hide Faithful, EncodeItems, ParseRecords, CanonItems, OptPlaced, HasOpt;
    EncodeItemsAppends(|buf|, names, an + ns, ar);
    EncodeItemsAppends(|buf|, names, an, ns);
    var a := EncodeItems(|buf|, names, an).value;
    var mid := buf + a.bytes;
    var b := EncodeItems(|mid|, a.names, ns).value;
    var last := mid + b.bytes;
    var c := EncodeItems(|last|, b.names, ar).value;
    assert out == last + c.bytes by {
      Concat(buf, a.bytes, b.bytes);
      Concat(buf, a.bytes + b.bytes, c.bytes);
    }
    CanonItemsAppends(|buf|, names, an + ns, ar);
    CanonItemsAppends(|buf|, names, an, ns);
    CanonItemsAreTheItems(|buf|, names, an);
    CanonItemsAreTheItems(|mid|, a.names, ns);
    CanonItemsAreTheItems(|last|, b.names, ar);
    PlacedWithoutOpt(an, false, false);
    PlacedWithoutOpt(ns, false, false);
    ItemsInMessage(buf, names, an, a, out, false, false);
    ItemsInMessage(mid, a.names, ns, b, out, false, false);
    ItemsInMessage(last, b.names, ar, c, out, true, false);
  }

  lemma {:induction false} NothingIsFaithful(buf: bytes)
    ensures Faithful(buf, map[])
  {
  }

  lemma {:induction false} SectionsArePlaced(msg: Message)
    requires RoundTrippable(msg)
    ensures !HasOpt(Answers(msg)) && !HasOpt(Authorities(msg)) && OptPlaced(Additionals(msg), true, false)
  {
    PlacedOnce(FirstQuestionName(msg), Clamp(msg.additionals));
  }

  /** A well-placed message that can be written at all is read back as itself, in canonical spelling. */
  lemma {:induction false} RoundTrip(msg: Message)
    requires RoundTrippable(msg) && EncodeMessage(msg).Some?
    ensures ParseMessage(EncodeMessage(msg).value) == Some(CanonMessage(msg))
  {
    hide Faithful, EncodeItems, EncodeQuestions, ParseRecords, ParseQuestions, CanonItems, OptPlaced,
         HasOpt, HeaderBytes, ReadHeader, ItemsFor, NoOpt, OneOptAtMost, Encodable, Clamp;
    var out := EncodeMessage(msg).value;
    var h := CountedHeader(msg);
    var head := HeaderBytes(h);
    var q := QuestionPart(msg);
    var body := head + q.bytes;
    HeaderReadsBack(h, out);
    NothingIsFaithful(head);
    QuestionsInMessage(head, map[], msg.questions, out);
    SectionsArePlaced(msg);
    SectionsInMessage(body, q.names, Answers(msg), Authorities(msg), Additionals(msg), CanonRecords(msg), out);
    SectionCounts(msg);
  }

  lemma {:induction false} SectionCounts(msg: Message)
    ensures |Answers(msg)| == Count(msg.answers) && |Authorities(msg)| == Count(msg.authorities)
    ensures |Additionals(msg)| == Count(msg.additionals)
    ensures |msg.questions| <= MAX_SECTION_COUNT ==> Count(msg.questions) == |msg.questions|
    ensures CountsAllowed(CountedHeader(msg))
  {
  }

  // ----- The condition is necessary -----

  lemma {:induction false} ParsedQuestionsAreEncodable(buf: bytes, p: nat, count: nat)
    requires p <= |buf| && ParseQuestions(buf, p, count).Some?
    ensures var qs := ParseQuestions(buf, p, count).value.entries;
      forall i :: 0 <= i < |qs| ==> Encodable(qs[i].name)
    decreases count
  {
    hide Encodable;
    if count > 0 {
      DecodeNameBounds(buf, p);
      ParsedQuestionsAreEncodable(buf, ParseQuestion(buf, p).value.next, count - 1);
    }
  }

  lemma {:induction false} ParsedOptsArePlaced(buf: bytes, p: nat, count: nat, additional: bool, seenOpt: bool)
    requires p <= |buf| && ParseRecords(buf, p, count, additional, seenOpt).Some?
    ensures var rs := ParseRecords(buf, p, count, additional, seenOpt).value.entries;
      && (!additional || seenOpt ==> NoOpt(rs))
      && OneOptAtMost(rs)
    decreases count
  {
    hide ReadRdata, DecodeName;
    if count > 0 {
      var first := ParseRecord(buf, p, additional, seenOpt).value;
      ParsedOptsArePlaced(buf, first.next, count - 1, additional, first.seenOpt);
    }
  }

  /** Whatever the reader accepts respects the rules of RoundTrippable. */
  lemma {:induction false} ParsedMessagesAreRoundTrippable(buf: bytes)
    requires ParseMessage(buf).Some?
    ensures RoundTrippable(ParseMessage(buf).value)
  {
    hide ParseRecords, ParseQuestions, NoOpt, OneOptAtMost;
    var h := ReadHeader(buf);
    var qd := ParseQuestions(buf, HEADER_SIZE, h.qdcount).value;
    var an := ParseRecords(buf, qd.next, h.ancount, false, false).value;
    var ns := ParseRecords(buf, an.next, h.nscount, false, an.seenOpt).value;
    ParsedQuestionsAreEncodable(buf, HEADER_SIZE, h.qdcount);
    ParsedOptsArePlaced(buf, qd.next, h.ancount, false, false);
    ParsedOptsArePlaced(buf, an.next, h.nscount, false, an.seenOpt);
    ParsedOptsArePlaced(buf, ns.next, h.arcount, true, ns.seenOpt);
  }

  lemma {:induction false} ThreeIndex(an: seq<Item>, ns: seq<Item>, ar: seq<Item>, items: seq<Item>)
    requires items == an + ns + ar
    ensures forall i :: 0 <= i < |an| ==> items[i] == an[i]
    ensures forall i :: 0 <= i < |ns| ==> items[|an| + i] == ns[i]
    ensures forall i :: 0 <= i < |ar| ==> items[|an| + |ns| + i] == ar[i]
  {
  }

  lemma {:induction false} ThreeParts(all: seq<Record>, an: seq<Item>, ns: seq<Item>, ar: seq<Item>, items: seq<Item>)
    requires items == an + ns + ar && |all| == |an| + |ns| + |ar|
    requires forall i :: 0 <= i < |all| ==> all[i].typ == items[i].rec.typ
    ensures forall i :: 0 <= i < |an| ==> all[..|an|][i].typ == an[i].rec.typ
    ensures forall i :: 0 <= i < |ns| ==> all[|an|..|an| + |ns|][i].typ == ns[i].rec.typ
    ensures forall i :: 0 <= i < |ar| ==> all[|an| + |ns|..][i].typ == ar[i].rec.typ
  {
    ThreeIndex(an, ns, ar, items);
    forall i | 0 <= i < |ns| ensures all[|an|..|an| + |ns|][i].typ == ns[i].rec.typ {
      assert items[|an| + i] == ns[i];
    }
    forall i | 0 <= i < |ar| ensures all[|an| + |ns|..][i].typ == ar[i].rec.typ {
      assert items[|an| + |ns| + i] == ar[i];
    }
  }

  /** The three sections of the canonical message have the types of the records that were written. */
  lemma {:induction false} CanonTypes(msg: Message)
    requires EncodeMessage(msg).Some?
    ensures var m := CanonMessage(msg);
      SameTypes(m.answers, Clamp(msg.answers)) && SameTypes(m.authorities, Clamp(msg.authorities))
      && SameTypes(m.additionals, Clamp(msg.additionals))
  {
    hide CanonItems, CanonRecords, EncodeItems, EncodeMessage, Clamp;
    CanonRecordsAreTheItems(msg);
    ThreeParts(CanonRecords(msg), Answers(msg), Authorities(msg), Additionals(msg), Items(msg));
  }

  predicate SameTypes(a: seq<Record>, b: seq<Record>) {
    |a| == |b| && forall i :: 0 <= i < |a| ==> a[i].typ == b[i].typ
  }

  lemma {:induction false} SameTypesKeepOpts(a: seq<Record>, b: seq<Record>)
    requires SameTypes(a, b)
    ensures NoOpt(a) ==> NoOpt(b)
    ensures OneOptAtMost(a) ==> OneOptAtMost(b)
  {
  }

  /** A message that can be written survives the trip exactly when it respects the rules. */
  lemma {:induction false} RoundTripExactly(msg: Message)
    requires EncodeMessage(msg).Some?
    ensures RoundTrippable(msg) <==> ParseMessage(EncodeMessage(msg).value) == Some(CanonMessage(msg))
  {
    hide EncodeMessage, ParseMessage, NoOpt, OneOptAtMost, SameTypes, CanonRecords;
    if RoundTrippable(msg) {
      RoundTrip(msg);
    }
    if ParseMessage(EncodeMessage(msg).value) == Some(CanonMessage(msg)) {
      var m := CanonMessage(msg);
      ParsedMessagesAreRoundTrippable(EncodeMessage(msg).value);
      CanonTypes(msg);
      ParsedAsMany(EncodeMessage(msg).value);
      SameTypesKeepOpts(m.answers, Clamp(msg.answers));
      SameTypesKeepOpts(m.authorities, Clamp(msg.authorities));
      SameTypesKeepOpts(m.additionals, Clamp(msg.additionals));
    }
  }

  /** No section of what the reader accepts is longer than the limit. */
  lemma {:induction false} ParsedAsMany(buf: bytes)
    requires ParseMessage(buf).Some?
    ensures var m := ParseMessage(buf).value;
      Clamp(m.answers) == m.answers && Clamp(m.authorities) == m.authorities && Clamp(m.additionals) == m.additionals
  {
    hide ParseRecords, ParseQuestions;
  }

  // ----- Consequences -----

  lemma {:induction false} EncodableHasNoNul(s: bytes)
    requires Labelled(s)
    ensures 0 !in s
    decreases |s|
  {
    NameSplits(s);
    if Parent(s) != [] { EncodableHasNoNul(Parent(s)); }
  }

  lemma {:induction false} LowerTwice(s: bytes)
    ensures Lower(Lower(s)) == Lower(s)
  {
  }

  /** Whatever spelling an owner is written in, it stays the same name up to case. */
  lemma {:induction false} SpellingKeepsName(question: bytes, owner: bytes)
    requires Encodable(question) && Encodable(owner)
    ensures Lower(Spelling(question, owner)) == Lower(owner)
  {
    if question != [] { EncodableHasNoNul(question); }
    if owner != [] { EncodableHasNoNul(owner); }
    LowerTwice(owner);
  }

  /** A TCP packet is the message behind a two-octet length that counts it exactly. */
  lemma {:induction false} TcpPacketIsFramed(msg: Message, udpLimit: uint16)
    requires PacketFor(msg, true, udpLimit).Some?
    ensures var p := PacketFor(msg, true, udpLimit).value;
      && |p| >= 2 && ReadU16(p, 0) == |p| - 2
      && EncodeMessage(msg) == Some(p[2..])
  {
    hide EncodeMessage;
    var whole := EncodeMessage(msg).value;
    var p := U16(|whole|) + whole;
    assert p[0..2] == U16(|whole|) && p[2..] == whole;
    ReadBackU16(p, 0, |whole|);
  }
}
