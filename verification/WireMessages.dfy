/** Whole messages octet by octet: which are read, and what is written where. */
module WireMessages {
  import opened Bytes
  import opened Names
  import opened NameCodec
  import opened Messages
  import opened RecordCodec
  import opened MessageCodec
  import opened WireRecords

  // ----- Entries -----

  /** From p to end stands a question. */
  predicate QuestionStands(buf: bytes, p: nat, end: nat, q: Question) {
    && p < end - 4 && end <= |buf| && NameStands(buf, p, end - 4, q.name)
    && q.typ == Two(buf, end - 4) && q.clas == Two(buf, end - 2)
  }

  /** From p to end stands a record: owner, type, class, TTL, length of the data, and the data. */
  ghost predicate RecordStands(buf: bytes, p: nat, end: nat, r: Record) {
    exists f: nat :: p < f && f + 10 <= end && end <= |buf| && RecordFollows(buf, p, f, end, r)
  }

  ghost predicate RecordFollows(buf: bytes, p: nat, f: nat, end: nat, r: Record)
    requires f + 10 <= end <= |buf|
  {
    && NameStands(buf, p, f, r.name)
    && r.typ == Two(buf, f) && r.clas == Two(buf, f + 2) && r.ttl == Four(buf, f + 4)
    && end == f + 10 + Two(buf, f + 8)
    && RdataStands(buf, f + 10, end, r.typ, Rdata(r.bin, r.payload, r.cacheable)) && r.deadline == 0
  }

  lemma {:induction false} QuestionExactly(buf: bytes, p: nat, end: nat, q: Question)
    ensures ParseQuestion(buf, p) == Some(ParsedQuestion(q, end)) <==> QuestionStands(buf, p, end, q)
  {
    hide DecodeName, Two, ReadU16;
    if DecodeName(buf, p).Some? {
      DecodeNameBounds(buf, p);
      var f := p + DecodeName(buf, p).value.consumed;
      OctetsReadTwo(buf, f);
      OctetsReadTwo(buf, f + 2);
    }
  }

  /** A record of type OPT belongs in the additional section, under the root, and at most once. */
  predicate OptAllowed(r: Record, additional: bool, seenOpt: bool) {
    r.typ == 41 ==> additional && r.name == [] && !seenOpt
  }

  lemma {:induction false} RecordExactly(buf: bytes, p: nat, end: nat, r: Record, additional: bool, seenOpt: bool,
                                         seen: bool)
    ensures ParseRecord(buf, p, additional, seenOpt) == Some(ParsedRecord(r, end, seen)) <==>
            RecordStands(buf, p, end, r) && OptAllowed(r, additional, seenOpt) && seen == (seenOpt || r.typ == 41)
  {
    hide DecodeName, Two, Four, ReadU16, ReadU32, ReadRdata, RdataStands;
    if DecodeName(buf, p).Some? {
      DecodeNameBounds(buf, p);
      var f := p + DecodeName(buf, p).value.consumed;
      if f + 10 <= |buf| {
        OctetsReadTwo(buf, f);
        OctetsReadTwo(buf, f + 2);
        OctetsReadTwo(buf, f + 4);
        OctetsReadTwo(buf, f + 8);
        var d := f + 10 + ReadU16(buf, f + 8);
        if d <= |buf| {
          RdataExactly(buf, f + 10, d, ReadU16(buf, f), Rdata(r.bin, r.payload, r.cacheable));
          if RecordStands(buf, p, end, r) {
            var g: nat :| p < g && g + 10 <= end && end <= |buf| && RecordFollows(buf, p, g, end, r);
            assert g == f;
          }
          if ParseRecord(buf, p, additional, seenOpt) == Some(ParsedRecord(r, end, seen)) {
            assert RecordFollows(buf, p, f, end, r);
          }
        }
      }
    }
  }

  /** An OPT record with any list of options is taken among the additional records. */
  lemma {:induction false} OptionsAreAccepted(buf: bytes, p: nat, xs: seq<Tagged>)
    requires Sized(xs) && p + 11 + |TaggedOctets(xs)| <= |buf|
    requires buf[p] == 0 && Two(buf, p + 1) == 41 && Two(buf, p + 9) == |TaggedOctets(xs)|
    requires buf[p + 11..p + 11 + |TaggedOctets(xs)|] == TaggedOctets(xs)
    ensures var data := TaggedOctets(xs);
      ParseRecord(buf, p, true, false) ==
      Some(ParsedRecord(Record([], 41, Two(buf, p + 3), Four(buf, p + 5), data, NoPayload, true, 0),
                        p + 11 + |data|, true))
  {
    hide ReadName, Extent, Two, Four, TaggedOctets, ParseRecord, ReadRdata;
    var data := TaggedOctets(xs);
    var end := p + 11 + |data|;
    var r := Record([], 41, Two(buf, p + 3), Four(buf, p + 5), data, NoPayload, true, 0);
    ReadStopUnfolds(buf, p, MAX_JUMPS);
    assert NameStands(buf, p, p + 1, []);
    assert RdataStands(buf, p + 11, end, 41, Rdata(data, NoPayload, true));
    assert RecordFollows(buf, p, p + 1, end, r);
    RecordExactly(buf, p, end, r, true, false, true);
  }

  // ----- Sections -----

  /** The questions stand back to back between these positions. */
  predicate QuestionsStand(buf: bytes, ends: seq<nat>, qs: seq<Question>) {
    |ends| == |qs| + 1 && forall i :: 0 <= i < |qs| ==> QuestionStands(buf, ends[i], ends[i + 1], qs[i])
  }

  ghost predicate RecordsStand(buf: bytes, ends: seq<nat>, rs: seq<Record>) {
    |ends| == |rs| + 1 && forall i :: 0 <= i < |rs| ==> RecordStands(buf, ends[i], ends[i + 1], rs[i])
  }

  lemma {:induction false} QuestionsFrom(buf: bytes, p: nat, count: nat) returns (ends: seq<nat>)
    requires p <= |buf| && ParseQuestions(buf, p, count).Some?
    ensures var r := ParseQuestions(buf, p, count).value;
      && QuestionsStand(buf, ends, r.entries) && ends[0] == p && ends[count] == r.next && !r.seenOpt
    decreases count
  {
    hide ParseQuestion, QuestionStands;
    if count == 0 {
      ends := [p];
    } else {
      var first := ParseQuestion(buf, p).value;
      QuestionExactly(buf, p, first.next, first.q);
      var rest := QuestionsFrom(buf, first.next, count - 1);
      ends := [p] + rest;
    }
  }

  lemma {:induction false} QuestionsInto(buf: bytes, ends: seq<nat>, qs: seq<Question>)
    requires QuestionsStand(buf, ends, qs) && ends[0] <= |buf|
    ensures ParseQuestions(buf, ends[0], |qs|) == Some(ParsedSection(qs, ends[|qs|], false))
    decreases |qs|
  {
    hide ParseQuestion, QuestionStands;
    if qs != [] {
      assert QuestionStands(buf, ends[0], ends[1], qs[0]);
      QuestionExactly(buf, ends[0], ends[1], qs[0]);
      var rest := ends[1..];
      forall i | 0 <= i < |qs[1..]| ensures QuestionStands(buf, rest[i], rest[i + 1], qs[1..][i]) {
        assert QuestionStands(buf, ends[i + 1], ends[i + 2], qs[i + 1]);
      }
      QuestionsInto(buf, rest, qs[1..]);
      assert [qs[0]] + qs[1..] == qs;
    }
  }

  /** No OPT record but one in the right place. */
  predicate OptsAllowed(rs: seq<Record>, additional: bool, seenOpt: bool) {
    forall i :: 0 <= i < |rs| ==> OptAllowed(rs[i], additional, seenOpt || HasOpt(rs[..i]))
  }

  predicate HasOpt(rs: seq<Record>) {
    exists i :: 0 <= i < |rs| && rs[i].typ == 41
  }

  lemma {:induction false} HasOptInFront(r: Record, rs: seq<Record>)
    ensures HasOpt([r] + rs) <==> r.typ == 41 || HasOpt(rs)
    ensures !HasOpt([])
  {
    var all := [r] + rs;
    if HasOpt(rs) {
      var i :| 0 <= i < |rs| && rs[i].typ == 41;
      assert all[i + 1].typ == 41;
    }
    if r.typ == 41 {
      assert all[0].typ == 41;
    }
    if HasOpt(all) && r.typ != 41 {
      var i :| 0 <= i < |all| && all[i].typ == 41;
      assert rs[i - 1].typ == 41;
    }
  }

  lemma {:induction false} OptsInFront(r: Record, rs: seq<Record>, additional: bool, seenOpt: bool)
    ensures OptsAllowed([r] + rs, additional, seenOpt) <==>
            OptAllowed(r, additional, seenOpt) && OptsAllowed(rs, additional, seenOpt || r.typ == 41)
  {
    hide HasOpt, OptAllowed;
    var all := [r] + rs;
    assert all[..0] == [];
    HasOptInFront(r, []);
    forall i | 0 <= i < |rs|
      ensures all[..i + 1] == [r] + rs[..i] && HasOpt(all[..i + 1]) == (r.typ == 41 || HasOpt(rs[..i]))
    {
      assert all[..i + 1] == [r] + rs[..i];
      HasOptInFront(r, rs[..i]);
    }
    if OptsAllowed(all, additional, seenOpt) {
      assert OptAllowed(all[0], additional, seenOpt || HasOpt(all[..0]));
      forall i | 0 <= i < |rs| ensures OptAllowed(rs[i], additional, seenOpt || r.typ == 41 || HasOpt(rs[..i])) {
        assert OptAllowed(all[i + 1], additional, seenOpt || HasOpt(all[..i + 1]));
      }
    }
    if OptAllowed(r, additional, seenOpt) && OptsAllowed(rs, additional, seenOpt || r.typ == 41) {
      forall i | 0 <= i < |all| ensures OptAllowed(all[i], additional, seenOpt || HasOpt(all[..i])) {
        if i > 0 {
          assert OptAllowed(rs[i - 1], additional, seenOpt || r.typ == 41 || HasOpt(rs[..i - 1]));
        }
      }
    }
  }

  lemma {:induction false} RecordsFrom(buf: bytes, p: nat, count: nat, additional: bool, seenOpt: bool)
    returns (ends: seq<nat>)
    requires p <= |buf| && ParseRecords(buf, p, count, additional, seenOpt).Some?
    ensures var r := ParseRecords(buf, p, count, additional, seenOpt).value;
      && RecordsStand(buf, ends, r.entries) && ends[0] == p && ends[count] == r.next
      && OptsAllowed(r.entries, additional, seenOpt) && r.seenOpt == (seenOpt || HasOpt(r.entries))
    decreases count
  {
    hide ParseRecord, RecordStands, OptsAllowed, HasOpt, OptAllowed;
    if count == 0 {
      ends := [p];
      NoOpts(additional, seenOpt);
    } else {
      var first := ParseRecord(buf, p, additional, seenOpt).value;
      RecordExactly(buf, p, first.next, first.rec, additional, seenOpt, first.seenOpt);
      var rest := RecordsFrom(buf, first.next, count - 1, additional, first.seenOpt);
      ends := [p] + rest;
      var more := ParseRecords(buf, first.next, count - 1, additional, first.seenOpt).value.entries;
      OptsInFront(first.rec, more, additional, seenOpt);
      HasOptInFront(first.rec, more);
    }
  }

  lemma {:induction false} NoOpts(additional: bool, seenOpt: bool)
    ensures OptsAllowed([], additional, seenOpt) && !HasOpt([])
  {
  }

  lemma {:induction false} RecordsInto(buf: bytes, ends: seq<nat>, rs: seq<Record>, additional: bool, seenOpt: bool)
    requires RecordsStand(buf, ends, rs) && ends[0] <= |buf| && OptsAllowed(rs, additional, seenOpt)
    ensures ParseRecords(buf, ends[0], |rs|, additional, seenOpt) ==
            Some(ParsedSection(rs, ends[|rs|], seenOpt || HasOpt(rs)))
    decreases |rs|
  {
    hide ParseRecord, RecordStands, OptsAllowed, HasOpt, OptAllowed;
    NoOpts(additional, seenOpt);
    if rs != [] {
      assert rs == [rs[0]] + rs[1..];
      OptsInFront(rs[0], rs[1..], additional, seenOpt);
      HasOptInFront(rs[0], rs[1..]);
      assert RecordStands(buf, ends[0], ends[1], rs[0]);
      RecordExactly(buf, ends[0], ends[1], rs[0], additional, seenOpt, seenOpt || rs[0].typ == 41);
      var rest := ends[1..];
      forall i | 0 <= i < |rs[1..]| ensures RecordStands(buf, rest[i], rest[i + 1], rs[1..][i]) {
        assert RecordStands(buf, ends[i + 1], ends[i + 2], rs[i + 1]);
      }
      StandsWithin(buf, ends[0], ends[1], rs[0]);
      RecordsInto(buf, rest, rs[1..], additional, seenOpt || rs[0].typ == 41);
    }
  }

  lemma {:induction false} StandsWithin(buf: bytes, p: nat, end: nat, r: Record)
    requires RecordStands(buf, p, end, r)
    ensures end <= |buf|
  {
  }

  // ----- Messages -----

  /** The header fills the first twelve octets. */
  predicate HeaderStands(buf: bytes, h: Header) {
    && |buf| >= 12
    && h == Header(Two(buf, 0), Two(buf, 2), Two(buf, 4), Two(buf, 6), Two(buf, 8), Two(buf, 10))
  }

  /**
    * A message: a header; as many questions, answers, authorities and additional records as it counts, at
    * most 100 of each, back to back and filling the buffer; and no OPT record but one additional, under
    * the root.
    */
  ghost predicate MessageStands(buf: bytes, m: Message) {
    && HeaderStands(buf, m.header)
    && |m.questions| == m.header.qdcount <= 100 && |m.answers| == m.header.ancount <= 100
    && |m.authorities| == m.header.nscount <= 100 && |m.additionals| == m.header.arcount <= 100
    && !HasOpt(m.answers) && !HasOpt(m.authorities) && OptsAllowed(m.additionals, true, false)
    && exists a: nat, b: nat, c: nat :: Sections(buf, m, a, b, c)
  }

  ghost predicate Sections(buf: bytes, m: Message, a: nat, b: nat, c: nat) {
    && (exists ends :: QuestionsStand(buf, ends, m.questions) && ends[0] == 12 && ends[|m.questions|] == a)
    && RecordsBetween(buf, a, b, m.answers) && RecordsBetween(buf, b, c, m.authorities)
    && RecordsBetween(buf, c, |buf|, m.additionals)
  }

  ghost predicate RecordsBetween(buf: bytes, a: nat, b: nat, rs: seq<Record>) {
    a <= |buf| && exists ends :: RecordsStand(buf, ends, rs) && ends[0] == a && ends[|rs|] == b
  }

  lemma {:induction false} BetweenExactly(buf: bytes, a: nat, b: nat, rs: seq<Record>, additional: bool, seenOpt: bool)
    requires a <= |buf|
    ensures ParseRecords(buf, a, |rs|, additional, seenOpt) == Some(ParsedSection(rs, b, seenOpt || HasOpt(rs))) <==>
            RecordsBetween(buf, a, b, rs) && OptsAllowed(rs, additional, seenOpt)
  {
    hide ParseRecords, RecordsStand, OptsAllowed, HasOpt;
    if ParseRecords(buf, a, |rs|, additional, seenOpt) == Some(ParsedSection(rs, b, seenOpt || HasOpt(rs))) {
      var ends := RecordsFrom(buf, a, |rs|, additional, seenOpt);
    }
    if RecordsBetween(buf, a, b, rs) && OptsAllowed(rs, additional, seenOpt) {
      StandsCount(buf, rs);
      var ends :| RecordsStand(buf, ends, rs) && ends[0] == a && ends[|rs|] == b;
      RecordsInto(buf, ends, rs, additional, seenOpt);
    }
  }

  lemma {:induction false} StandsCount(buf: bytes, rs: seq<Record>)
    ensures forall ends :: RecordsStand(buf, ends, rs) ==> |ends| == |rs| + 1
  {
  }

  lemma {:induction false} OptsElsewhere(rs: seq<Record>, seenOpt: bool)
    ensures OptsAllowed(rs, false, seenOpt) <==> !HasOpt(rs)
  {
    if HasOpt(rs) {
      var i :| 0 <= i < |rs| && rs[i].typ == 41;
      assert !OptAllowed(rs[i], false, seenOpt || HasOpt(rs[..i]));
    }
  }

  /** What is parsed stands there. */
  lemma {:induction false} ParsedStands(buf: bytes)
    requires ParseMessage(buf).Some?
    ensures MessageStands(buf, ParseMessage(buf).value)
  {
    hide ParseRecords, ParseQuestions, RecordsBetween, HasOpt, OptsAllowed, ReadHeader, Sections;
    var h, m := ReadHeader(buf), ParseMessage(buf).value;
    HeaderExactly(buf);
    var qd := ParseQuestions(buf, 12, h.qdcount).value;
    var ends := QuestionsFrom(buf, 12, h.qdcount);
    var an := ParseRecords(buf, qd.next, h.ancount, false, false).value;
    var e1 := RecordsFrom(buf, qd.next, h.ancount, false, false);
    OptsElsewhere(an.entries, false);
    var ns := ParseRecords(buf, an.next, h.nscount, false, an.seenOpt).value;
    var e2 := RecordsFrom(buf, an.next, h.nscount, false, an.seenOpt);
    OptsElsewhere(ns.entries, false);
    var ar := ParseRecords(buf, ns.next, h.arcount, true, ns.seenOpt).value;
    var e3 := RecordsFrom(buf, ns.next, h.arcount, true, ns.seenOpt);
    BetweenExactly(buf, qd.next, an.next, an.entries, false, false);
    BetweenExactly(buf, an.next, ns.next, ns.entries, false, false);
    BetweenExactly(buf, ns.next, ar.next, ar.entries, true, false);
    SectionsFrom(buf, m, ends, qd.next, an.next, ns.next);
  }

  lemma {:induction false} SectionsFrom(buf: bytes, m: Message, ends: seq<nat>, a: nat, b: nat, c: nat)
    requires QuestionsStand(buf, ends, m.questions) && |ends| == |m.questions| + 1
    requires ends[0] == 12 && ends[|m.questions|] == a
    requires RecordsBetween(buf, a, b, m.answers) && RecordsBetween(buf, b, c, m.authorities)
    requires RecordsBetween(buf, c, |buf|, m.additionals)
    ensures Sections(buf, m, a, b, c)
  {
  }

  lemma {:induction false} HeaderExactly(buf: bytes)
    ensures |buf| >= 12 ==> forall h :: ReadHeader(buf) == h <==> HeaderStands(buf, h)
  {
  }

  /** What stands there is parsed. */
  lemma {:induction false} StandingIsParsed(buf: bytes, m: Message)
    requires MessageStands(buf, m)
    ensures ParseMessage(buf) == Some(m)
  {
    hide ParseRecords, ParseQuestions, RecordsBetween, HasOpt, OptsAllowed, ReadHeader, RecordsStand;
    HeaderExactly(buf);
    var a: nat, b: nat, c: nat :| Sections(buf, m, a, b, c);
    var ends :| QuestionsStand(buf, ends, m.questions) && ends[0] == 12 && ends[|m.questions|] == a;
    QuestionsInto(buf, ends, m.questions);
    BetweenStarts(buf, a, b, m.answers);
    BetweenStarts(buf, b, c, m.authorities);
    BetweenStarts(buf, c, |buf|, m.additionals);
    OptsElsewhere(m.answers, false);
    OptsElsewhere(m.authorities, false);
    BetweenExactly(buf, a, b, m.answers, false, false);
    BetweenExactly(buf, b, c, m.authorities, false, false);
    BetweenExactly(buf, c, |buf|, m.additionals, true, false);
  }

  lemma {:induction false} BetweenStarts(buf: bytes, a: nat, b: nat, rs: seq<Record>)
    requires RecordsBetween(buf, a, b, rs)
    ensures a <= |buf|
  {
  }

  /** The parser accepts exactly the buffers in which a message stands, and reports that message. */
  lemma {:induction false} ParsedExactly(buf: bytes, m: Message)
    ensures ParseMessage(buf) == Some(m) <==> MessageStands(buf, m)
  {
    hide ParseMessage, MessageStands;
    if ParseMessage(buf) == Some(m) {
      ParsedStands(buf);
    }
    if MessageStands(buf, m) {
      StandingIsParsed(buf, m);
    }
  }
}
