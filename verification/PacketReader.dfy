/** The reading code: parse_dns_message. */
module PacketReader {
  import opened Bytes
  import opened NameCodec
  import opened Messages
  import opened RecordCodec
  import opened MessageCodec
  import opened PacketWriter

  /** DecodeRdataName: a name that may not run past the end of the record data. */
  method ReadRdataNameAt(buf: bytes, p: nat, end: nat) returns (d: Option<Decoded>)
    ensures d == ReadRdataName(buf, p, end)
  {
    hide ReadName;
    var consumed, name := ReadNameAt(buf, p);
    if consumed == 0 || p + consumed > end { return None; }
    return Some(Decoded(name, consumed));
  }

  /** Looks for two octets that would be a backward pointer where they stand. */
  method FindPointer(buf: bytes, p: nat, end: nat) returns (found: bool)
    requires p <= end <= |buf|
    ensures found == HoldsPointer(buf, p, end)
  {
    var i := p;
    while i + 1 < end
      invariant p <= i <= end
      invariant forall k :: p <= k < i && k < end - 1 ==> !IsBackPointer(buf, k)
    {
      if IsBackPointer(buf, i) { return true; }
      i := i + 1;
    }
    return false;
  }

  method ReadOnlyNameAt(buf: bytes, p: nat, end: nat) returns (name: Option<bytes>)
    ensures name == ReadOnlyName(buf, p, end)
  {
    hide DecodeName;
    var d := ReadRdataNameAt(buf, p, end);
    if d.None? || p + d.value.consumed != end { return None; }
    return Some(Lower(d.value.name));
  }

  method ReadSoaAt(buf: bytes, p: nat, end: nat) returns (soa: Option<Payload>)
    requires end <= |buf|
    ensures soa == ReadSoa(buf, p, end)
  {
    hide DecodeName, ReadU32, Lower;
    var n := ReadRdataNameAt(buf, p, end);
    if n.None? { return None; }
    var q := p + n.value.consumed;
    var r := ReadRdataNameAt(buf, q, end);
    if r.None? { return None; }
    var t := q + r.value.consumed;
    if end - t != 20 { return None; }
    return Some(SoaPayload(Lower(n.value.name), Lower(r.value.name), ReadU32(buf, t), ReadU32(buf, t + 4),
                           ReadU32(buf, t + 8), ReadU32(buf, t + 12), ReadU32(buf, t + 16)));
  }

  method ReadHttpsAt(buf: bytes, p: nat, end: nat) returns (https: Option<Payload>)
    requires p <= end <= |buf|
    ensures https == ReadHttps(buf, p, end)
  {
    hide DecodeName, ReadU16, Lower, ParamsFrame;
    if end - p < 3 { return None; }
    var t := ReadRdataNameAt(buf, p + 2, end);
    if t.None? { return None; }
    var params := buf[p + 2 + t.value.consumed..end];
    var ok := CheckParams(params);
    if !ok { return None; }
    return Some(HttpsPayload(ReadU16(buf, p), Lower(t.value.name), params));
  }

  method ReadRdataAt(buf: bytes, p: nat, end: nat, typ: uint16) returns (rd: Option<Rdata>)
    requires p <= end <= |buf|
    ensures rd == ReadRdata(buf, p, end, typ)
  {
    hide ReadOnlyName, ReadSoa, ReadHttps, HoldsPointer, StringsFrame, OptionsFrame;
    var raw := Some(Rdata(buf[p..end], NoPayload, true));
    if typ == TYPE_A {
      rd := if end - p == 4 then raw else None;
    } else if typ == TYPE_AAAA {
      rd := if end - p == 16 then raw else None;
    } else if typ == TYPE_CNAME {
      var n := ReadOnlyNameAt(buf, p, end);
      rd := if n.None? then None else Some(Rdata([], CnamePayload(n.value), true));
    } else if typ == TYPE_PTR {
      var n := ReadOnlyNameAt(buf, p, end);
      rd := if n.None? then None else Some(Rdata([], PtrPayload(n.value), true));
    } else if typ == TYPE_NS {
      var n := ReadOnlyNameAt(buf, p, end);
      rd := if n.None? then None else Some(Rdata([], NsPayload(n.value), true));
    } else if typ == TYPE_MX {
      if end - p < 3 { return None; }
      var n := ReadOnlyNameAt(buf, p + 2, end);
      rd := if n.None? then None else Some(Rdata([], MxPayload(ReadU16(buf, p), n.value), true));
    } else if typ == TYPE_SOA {
      var soa := ReadSoaAt(buf, p, end);
      rd := if soa.None? then None else Some(Rdata([], soa.value, true));
    } else if typ == TYPE_HTTPS {
      var https := ReadHttpsAt(buf, p, end);
      rd := if https.None? then None else Some(Rdata([], https.value, true));
    } else if typ == TYPE_TXT {
      if end == p { return None; }
      var ok := CheckStrings(buf[p..end]);
      rd := if ok then raw else None;
    } else if typ == TYPE_OPT {
      var ok := CheckOptions(buf[p..end]);
      rd := if ok then raw else None;
    } else {
      var found := FindPointer(buf, p, end);
      rd := Some(Rdata(buf[p..end], NoPayload, !found));
    }
  }

  method ParseRecordAt(buf: bytes, p: nat, additional: bool, seenOpt: bool) returns (r: Option<ParsedRecord>)
    ensures r == ParseRecord(buf, p, additional, seenOpt)
  {
    hide ReadName, Extent, ReadRdata, ReadU16, ReadU32;
    var consumed, name := ReadNameAt(buf, p);
    if consumed == 0 { return None; }
    DecodeNameBounds(buf, p);
    var f := p + consumed;
    if |buf| - f < 10 { return None; }
    var typ, d := ReadU16(buf, f), f + 10;
    var end := d + ReadU16(buf, f + 8);
    if end > |buf| { return None; }
    if OptMisplaced(typ, name, additional, seenOpt) { return None; }
    var rd := ReadRdataAt(buf, d, end, typ);
    if rd.None? { return None; }
    return Some(ParsedRecord(Record(name, typ, ReadU16(buf, f + 2), ReadU32(buf, f + 4),
                                    rd.value.bin, rd.value.payload, rd.value.cacheable, 0),
                             end, seenOpt || typ == TYPE_OPT));
  }

  /** Entries already read, in front of whatever the rest of the section turns out to hold. */
  function Following<T>(done: seq<T>, rest: Option<ParsedSection<T>>): Option<ParsedSection<T>> {
    if rest.None? then None else Some(rest.value.(entries := done + rest.value.entries))
  }

  lemma {:induction false} FollowingOne<T>(done: seq<T>, x: T, rest: Option<ParsedSection<T>>)
    ensures Following(done, Following([x], rest)) == Following(done + [x], rest)
  {
    if rest.Some? {
      assert done + ([x] + rest.value.entries) == done + [x] + rest.value.entries;
    }
  }

  /** ParseRecord over one section. */
  method ParseRecordsAt(buf: bytes, start: nat, count: nat, additional: bool, seenOpt: bool)
    returns (r: Option<ParsedSection<Record>>)
    requires start <= |buf|
    ensures r == ParseRecords(buf, start, count, additional, seenOpt)
  {
    hide ParseRecord, Following;
    var records: seq<Record> := [];
    var p: nat := start;
    var seen := seenOpt;
    FollowingNothing(ParseRecords(buf, start, count, additional, seenOpt));
    for i := 0 to count
      invariant p <= |buf|
      invariant ParseRecords(buf, start, count, additional, seenOpt) ==
        Following(records, ParseRecords(buf, p, count - i, additional, seen))
    {
      RecordThenRest(buf, p, count - i, additional, seen);
      var first := ParseRecordAt(buf, p, additional, seen);
      if first.None? {
        FollowingFailure(records, first);
        return None;
      }
      FollowingOne(records, first.value.rec,
                   ParseRecords(buf, first.value.next, count - i - 1, additional, first.value.seenOpt));
      records, p, seen := records + [first.value.rec], first.value.next, first.value.seenOpt;
    }
    FollowingEnd(records, ParsedSection([], p, seen));
    return Some(ParsedSection(records, p, seen));
  }

  lemma {:induction false} FollowingNothing<T>(r: Option<ParsedSection<T>>)
    ensures Following([], r) == r
  {
    if r.Some? { assert [] + r.value.entries == r.value.entries; }
  }

  lemma {:induction false} FollowingFailure<T, U>(done: seq<T>, first: Option<U>)
    ensures Following(done, None) == None
  {
  }

  lemma {:induction false} FollowingEnd<T>(done: seq<T>, last: ParsedSection<T>)
    requires last.entries == []
    ensures Following(done, Some(last)) == Some(last.(entries := done))
  {
    assert done + [] == done;
  }

  lemma {:induction false} RecordThenRest(buf: bytes, p: nat, count: nat, additional: bool, seenOpt: bool)
    requires p <= |buf| && count > 0
    ensures ParseRecords(buf, p, count, additional, seenOpt) ==
      match ParseRecord(buf, p, additional, seenOpt)
      case None => None
      case Some(first) =>
        Following([first.rec], ParseRecords(buf, first.next, count - 1, additional, first.seenOpt))
  {
  }

  method ParseQuestionAt(buf: bytes, p: nat) returns (r: Option<ParsedQuestion>)
    ensures r == ParseQuestion(buf, p)
  {
    hide ReadName, Extent;
    var consumed, name := ReadNameAt(buf, p);
    if consumed == 0 { return None; }
    DecodeNameBounds(buf, p);
    var f := p + consumed;
    if |buf| - f < 4 { return None; }
    return Some(ParsedQuestion(Question(name, ReadU16(buf, f), ReadU16(buf, f + 2)), f + 4));
  }

  method ParseQuestionsAt(buf: bytes, start: nat, count: nat) returns (r: Option<ParsedSection<Question>>)
    requires start <= |buf|
    ensures r == ParseQuestions(buf, start, count)
  {
    hide ParseQuestion, Following;
    var questions: seq<Question> := [];
    var p: nat := start;
    FollowingNothing(ParseQuestions(buf, start, count));
    for i := 0 to count
      invariant p <= |buf|
      invariant ParseQuestions(buf, start, count) == Following(questions, ParseQuestions(buf, p, count - i))
    {
      QuestionThenRest(buf, p, count - i);
      var first := ParseQuestionAt(buf, p);
      if first.None? {
        FollowingFailure(questions, first);
        return None;
      }
      FollowingOne(questions, first.value.q, ParseQuestions(buf, first.value.next, count - i - 1));
      questions, p := questions + [first.value.q], first.value.next;
    }
    FollowingEnd(questions, ParsedSection([], p, false));
    return Some(ParsedSection(questions, p, false));
  }

  lemma {:induction false} QuestionThenRest(buf: bytes, p: nat, count: nat)
    requires p <= |buf| && count > 0
    ensures ParseQuestions(buf, p, count) ==
      match ParseQuestion(buf, p)
      case None => None
      case Some(first) => Following([first.q], ParseQuestions(buf, first.next, count - 1))
  {
  }

  method ParseDnsMessage(buf: bytes) returns (msg: Option<Message>)
    ensures msg == ParseMessage(buf)
  {
    hide ParseQuestions, ParseRecords, ReadHeader;
    if |buf| < HEADER_SIZE { return None; }
    var h := ReadHeader(buf);
    if !CountsAllowed(h) { return None; }
    var qd := ParseQuestionsAt(buf, HEADER_SIZE, h.qdcount);
    if qd.None? { return None; }
    var an := ParseRecordsAt(buf, qd.value.next, h.ancount, false, false);
    if an.None? { return None; }
    var ns := ParseRecordsAt(buf, an.value.next, h.nscount, false, an.value.seenOpt);
    if ns.None? { return None; }
    var ar := ParseRecordsAt(buf, ns.value.next, h.arcount, true, ns.value.seenOpt);
    if ar.None? || ar.value.next != |buf| { return None; }
    return Some(Message(h, qd.value.entries, an.value.entries, ns.value.entries, ar.value.entries));
  }
}
