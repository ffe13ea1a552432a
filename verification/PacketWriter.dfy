/** The writing code: write_dns_answer_rr and make_dns_packet. */
module PacketWriter {
  import opened Bytes
  import opened Names
  import opened NameCodec
  import opened Messages
  import opened RecordCodec
  import opened MessageCodec
  import opened MessageRoundTrip
  import opened Truncation

  // ----- Framing checks -----

  method CheckStrings(b: bytes) returns (ok: bool)
    ensures ok == StringsFrame(b, 0)
  {
    var p: nat := 0;
    while p < |b|
      invariant p <= |b| && StringsFrame(b, 0) == StringsFrame(b, p)
    {
      var n := b[p];
      p := p + 1;
      if n > |b| - p { return false; }
      p := p + n;
    }
    return true;
  }

  method CheckOptions(b: bytes) returns (ok: bool)
    ensures ok == OptionsFrame(b, 0)
  {
    var p: nat := 0;
    while p < |b|
      invariant p <= |b| && OptionsFrame(b, 0) == OptionsFrame(b, p)
    {
      if |b| - p < 4 { return false; }
      var n := ReadU16(b, p + 2);
      p := p + 4;
      if n > |b| - p { return false; }
      p := p + n;
    }
    return true;
  }

  method CheckParams(b: bytes) returns (ok: bool)
    ensures ok == ParamsFrame(b, 0, -1)
  {
    var p: nat := 0;
    var first, previousKey := true, 0;
    while p < |b|
      invariant p <= |b|
      invariant ParamsFrame(b, 0, -1) == ParamsFrame(b, p, if first then -1 else previousKey)
    {
      if |b| - p < 4 { return false; }
      var key, n := ReadU16(b, p), ReadU16(b, p + 2);
      if !first && key <= previousKey { return false; }
      first, previousKey := false, key;
      p := p + 4;
      if n > |b| - p { return false; }
      p := p + n;
    }
    return true;
  }

  // ----- Records -----

  /** A fixed prefix followed by a compressed name. */
  method WriteNameField(out: ByteBuffer, names: NameMap, prefix: bytes, name: bytes) returns (ok: bool)
    modifies out, names`entries
    ensures old(out.data) <= out.data
    ensures var w := EncodeNameField(|old(out.data)| - names.base, old(names.entries), prefix, name);
      && ok == w.Some?
      && (ok ==> out.data == old(out.data) + w.value.bytes && names.entries == w.value.names)
  {
    hide EncodeName, Labelled;
    out.Append(prefix);
    ghost var mid := out.data;
    ok := WriteName(out, names, name);
    if ok {
      Concat(old(out.data), prefix, EncodeName(|mid| - names.base, old(names.entries), name).bytes);
    }
  }

  method WriteSoa(out: ByteBuffer, names: NameMap, soa: Payload) returns (ok: bool)
    requires soa.SoaPayload?
    modifies out, names`entries
    ensures old(out.data) <= out.data
    ensures var w := EncodeSoa(|old(out.data)| - names.base, old(names.entries), soa);
      && ok == w.Some?
      && (ok ==> out.data == old(out.data) + w.value.bytes && names.entries == w.value.names)
  {
    hide EncodeName, Labelled, SoaTail;
    ghost var start := out.data;
    ok := WriteName(out, names, soa.nname);
    if !ok { return; }
    ghost var n := EncodeName(|start| - names.base, old(names.entries), soa.nname);
    ok := WriteName(out, names, soa.rname);
    if !ok { return; }
    ghost var r := EncodeName(|start| + |n.bytes| - names.base, n.names, soa.rname);
    out.Append(SoaTail(soa));
    Concat(start, n.bytes, r.bytes);
    Concat(start, n.bytes + r.bytes, SoaTail(soa));
  }

  method WriteHttps(out: ByteBuffer, names: NameMap, https: Payload) returns (ok: bool)
    requires https.HttpsPayload?
    modifies out, names`entries
    ensures old(out.data) <= out.data
    ensures var w := EncodeHttps(|old(out.data)| - names.base, old(names.entries), https);
      && ok == w.Some?
      && (ok ==> out.data == old(out.data) + w.value.bytes && names.entries == w.value.names)
  {
    hide EncodeName, Labelled, ParamsFrame;
    ghost var start := out.data;
    out.Append(U16(https.priority));
    ok := WriteName(out, names, https.target);
    if !ok { return; }
    ghost var t := EncodeName(|start| + 2 - names.base, old(names.entries), https.target);
    if |https.params| > UINT16_MAX { return false; }
    ok := CheckParams(https.params);
    if !ok { return; }
    out.Append(https.params);
    Concat(start, U16(https.priority), t.bytes);
    Concat(start, U16(https.priority) + t.bytes, https.params);
  }

  method CheckRaw(item: Record) returns (ok: bool)
    ensures ok == RawIsValid(item)
  {
    if |item.bin| > UINT16_MAX { return false; }
    if item.typ == TYPE_A {
      ok := |item.bin| == 4;
    } else if item.typ == TYPE_AAAA {
      ok := |item.bin| == 16;
    } else if item.typ == TYPE_TXT {
      if |item.bin| == 0 { return false; }
      ok := CheckStrings(item.bin);
    } else if item.typ == TYPE_OPT {
      ok := CheckOptions(item.bin);
    } else {
      ok := item.cacheable;
    }
  }

  /** The type-specific part. On failure whatever was written is left for the caller to drop. */
  method WriteRdata(out: ByteBuffer, names: NameMap, item: Record) returns (ok: bool)
    modifies out, names`entries
    ensures old(out.data) <= out.data
    ensures var w := EncodeRdata(|old(out.data)| - names.base, old(names.entries), item);
      && ok == w.Some?
      && (ok ==> out.data == old(out.data) + w.value.bytes && names.entries == w.value.names)
  {
    hide EncodeNameField, EncodeSoa, EncodeHttps, RawIsValid;
    if item.typ == TYPE_PTR {
      if !item.payload.PtrPayload? { return false; }
      ok := WriteNameField(out, names, [], item.payload.ptr);
    } else if item.typ == TYPE_CNAME {
      if !item.payload.CnamePayload? { return false; }
      ok := WriteNameField(out, names, [], item.payload.cname);
    } else if item.typ == TYPE_NS {
      if !item.payload.NsPayload? { return false; }
      ok := WriteNameField(out, names, [], item.payload.nsname);
    } else if item.typ == TYPE_MX {
      if !item.payload.MxPayload? { return false; }
      ok := WriteNameField(out, names, U16(item.payload.preference), item.payload.exchange);
    } else if item.typ == TYPE_SOA {
      if !item.payload.SoaPayload? { return false; }
      ok := WriteSoa(out, names, item.payload);
    } else if item.typ == TYPE_HTTPS {
      if !item.payload.HttpsPayload? { return false; }
      ok := WriteHttps(out, names, item.payload);
    } else {
      ok := CheckRaw(item);
      if ok { out.Append(item.bin); }
    }
  }

  /**
    * write_dns_answer_rr. The data length is patched in once the data is known. A failed record is
    * removed from the buffer; the names it filed stay behind.
    */
  method WriteRecord(out: ByteBuffer, names: NameMap, owner: bytes, item: Record) returns (ok: bool)
    modifies out, names`entries
    ensures var w := EncodeRecord(|old(out.data)| - names.base, old(names.entries), owner, item);
      && ok == w.Some?
      && (ok ==> out.data == old(out.data) + w.value.bytes && names.entries == w.value.names)
      && (!ok ==> out.data == old(out.data))
  {
    hide EncodeName, EncodeRdata, Labelled, U16, U32, Overwritten, FixedFields;
    var recordStart := |out.data|;
    ghost var start, base := out.data, names.base;
    ok := WriteName(out, names, owner);
    if !ok { return; }
    ghost var o := EncodeName(|start| - base, old(names.entries), owner);
    ghost var mid := out.data;
    out.Append(U16(item.typ));
    out.Append(U16(item.clas));
    out.Append(U32(item.ttl));
    var i := |out.data|;
    out.Append(U16(0));
    FieldsAppended(mid, item);
    ghost var open := mid + FixedFields(item, 0);
    assert out.data == open && |open| == i + 2;
    ok := WriteRdata(out, names, item);
    if !ok {
      out.Resize(recordStart);
      return;
    }
    ghost var rd := EncodeRdata(|open| - base, o.names, item).value.bytes;
    var rdlen := |out.data| - i - 2;
    if rdlen > UINT16_MAX {
      out.Resize(recordStart);
      return false;
    }
    out.PutU16(i, rdlen);
    PatchedLength(mid, item, rd);
    Concat(start, o.bytes, FixedFields(item, rdlen));
    Concat(start, o.bytes + FixedFields(item, rdlen), rd);
  }

  lemma {:induction false} FieldsAppended(mid: bytes, item: Record)
    ensures mid + U16(item.typ) + U16(item.clas) + U32(item.ttl) + U16(0) == mid + FixedFields(item, 0)
  {
  }

  lemma {:induction false} PatchedLength(mid: bytes, item: Record, rd: bytes)
    requires |rd| <= UINT16_MAX
    ensures Overwritten(mid + FixedFields(item, 0) + rd, |mid| + 8, |rd|) == mid + FixedFields(item, |rd|) + rd
  {
  }

  // ----- Sections -----

  /** write_dns_question_rr. The result of writing the name is not looked at. */
  method WriteQuestion(out: ByteBuffer, names: NameMap, q: Question)
    modifies out, names`entries
    ensures var w := EncodeQuestion(|old(out.data)| - names.base, old(names.entries), q);
      out.data == old(out.data) + w.bytes && names.entries == w.names
  {
    hide EncodeName, Labelled, U16;
    ghost var start := out.data;
    var ok := WriteName(out, names, q.name);
    ghost var n := out.data[|start|..];
    assert out.data == start + n;
    out.Append(U16(q.typ));
    out.Append(U16(q.clas));
    Concat(start + n, U16(q.typ), U16(q.clas));
    Concat(start, n, U16(q.typ) + U16(q.clas));
  }

  method WriteQuestions(out: ByteBuffer, names: NameMap, qs: seq<Question>)
    modifies out, names`entries
    ensures var w := EncodeQuestions(|old(out.data)| - names.base, old(names.entries), qs);
      out.data == old(out.data) + w.bytes && names.entries == w.names
  {
    hide EncodeQuestion;
    ghost var whole := EncodeQuestions(|out.data| - names.base, names.entries, qs);
    ghost var target := out.data + whole.bytes;
    assert qs[0..] == qs;
    for i := 0 to |qs|
      invariant names.base == old(names.base)
      invariant whole.names == EncodeQuestions(|out.data| - names.base, names.entries, qs[i..]).names
      invariant target == out.data + EncodeQuestions(|out.data| - names.base, names.entries, qs[i..]).bytes
    {
      ghost var start := |out.data| - names.base;
      ghost var q := EncodeQuestion(start, names.entries, qs[i]);
      assert qs[i..][1..] == qs[i + 1..];
      Concat(out.data, q.bytes, EncodeQuestions(start + |q.bytes|, q.names, qs[i + 1..]).bytes);
      WriteQuestion(out, names, qs[i]);
    }
  }

  /** `end` is the buffer size after the first n items. */
  predicate EndsAfter(end: nat, start: nat, at: int, names: Offsets, items: seq<Item>, n: nat)
    requires n <= |items|
  {
    var w := EncodeItems(at, names, items[..n]);
    w.Some? && end == start + |w.value.bytes|
  }

  /** The buffer sizes after the first 1, 2, ... of these items. */
  predicate EndsOf(ends: seq<nat>, start: nat, at: int, names: Offsets, items: seq<Item>) {
    |ends| <= |items| && forall j :: 0 <= j < |ends| ==> EndsAfter(ends[j], start, at, names, items, j + 1)
  }

  /** WriteRecords. Stops at the first record that cannot be written. */
  method WriteSection(out: ByteBuffer, names: NameMap, question: bytes, additional: bool, rs: seq<Record>)
    returns (ok: bool, ends: seq<nat>)
    modifies out, names`entries
    ensures var at, items := |old(out.data)| - names.base, ItemsFor(question, additional, rs);
      match EncodeItems(at, old(names.entries), items)
      case None => !ok
      case Some(w) =>
        && ok && out.data == old(out.data) + w.bytes && names.entries == w.names
        && |ends| == |rs| && EndsOf(ends, |old(out.data)|, at, old(names.entries), items)
  {
    hide EncodeRecord, ItemsFor, EncodeItems, ItemFor;
    ghost var items := ItemsFor(question, additional, rs);
    ghost var start, at, first := out.data, |out.data| - names.base, names.entries;
    ends := [];
    NoItems(at, first, items);
    assert start + [] == start;
    for i := 0 to |rs|
      invariant names.base == old(names.base) && |ends| == i
      invariant EncodeItems(at, first, items[..i]).Some?
      invariant out.data == start + EncodeItems(at, first, items[..i]).value.bytes
      invariant names.entries == EncodeItems(at, first, items[..i]).value.names
      invariant EndsOf(ends, |start|, at, first, items)
    {
      OneMoreItem(at, first, items, i);
      ghost var done := EncodeItems(at, first, items[..i]).value;
      var item := ItemFor(question, additional, rs[i]);
      ghost var w := EncodeRecord(at + |done.bytes|, names.entries, item.owner, item.rec);
      ok := WriteRecord(out, names, item.owner, item.rec);
      if !ok { return; }
      Concat(start, done.bytes, w.value.bytes);
      assert EndsAfter(|out.data|, |start|, at, first, items, i + 1);
      ends := ends + [|out.data|];
    }
    assert items[..|rs|] == items;
    ok := true;
  }

  lemma {:induction false} NoItems(at: int, names: Offsets, items: seq<Item>)
    ensures EncodeItems(at, names, items[..0]) == Some(Written([], names))
  {
  }

  /** One more item appended, and what its failure means for the whole list. */
  lemma {:induction false} OneMoreItem(at: int, names: Offsets, items: seq<Item>, i: nat)
    requires i < |items| && EncodeItems(at, names, items[..i]).Some?
    ensures var done := EncodeItems(at, names, items[..i]).value;
      var w := EncodeRecord(at + |done.bytes|, done.names, items[i].owner, items[i].rec);
      && EncodeItems(at, names, items[..i + 1]) ==
         (if w.None? then None else Some(Written(done.bytes + w.value.bytes, w.value.names)))
      && (w.None? ==> EncodeItems(at, names, items).None?)
  {
    hide EncodeRecord;
    var done := EncodeItems(at, names, items[..i]).value;
    var next := at + |done.bytes|;
    var w := EncodeRecord(next, done.names, items[i].owner, items[i].rec);
    assert items[..i + 1] == items[..i] + [items[i]];
    EncodeItemsAppends(at, names, items[..i], [items[i]]);
    OneItem(next, done.names, items[i]);
    assert items == items[..i + 1] + items[i + 1..];
    EncodeItemsAppends(at, names, items[..i + 1], items[i + 1..]);
  }

  lemma {:induction false} OneItem(at: int, names: Offsets, item: Item)
    ensures EncodeItems(at, names, [item]) == EncodeRecord(at, names, item.owner, item.rec)
  {
    var r := EncodeRecord(at, names, item.owner, item.rec);
    if r.Some? {
      assert EncodeItems(at + |r.value.bytes|, r.value.names, []) == Some(Written([], r.value.names));
      assert [item][1..] == [] && r.value.bytes + [] == r.value.bytes;
    }
  }

  // ----- Cutting a packet to size -----

  /** The first k of these sizes are within the limit and the others are beyond it. */
  predicate Splits(ends: seq<nat>, k: int, limit: int) {
    && (forall j :: 0 <= j < |ends| && j < k ==> ends[j] <= limit)
    && (forall j :: 0 <= j < |ends| && k <= j ==> ends[j] > limit)
  }

  /** The last size within the limit, or `current` when there is none. */
  method LastWithin(ends: seq<nat>, limit: nat, current: nat, ghost k: int) returns (t: nat)
    requires Splits(ends, k, limit)
    ensures t == if k <= 0 || |ends| == 0 then current else ends[Min(k, |ends|) - 1]
  {
    t := current;
    var i := 0;
    while i < |ends|
      invariant 0 <= i <= |ends| && (i <= k || i == 0)
      invariant t == if i == 0 then current else ends[i - 1]
    {
      if ends[i] > limit { break; }
      t := ends[i];
      i := i + 1;
    }
  }

  method CountWithin(ends: seq<nat>, t: nat, ghost k: int) returns (fit: nat)
    requires Splits(ends, k, t)
    ensures fit == Max(0, Min(k, |ends|))
  {
    fit := 0;
    var i := 0;
    while i < |ends|
      invariant 0 <= i <= |ends| && fit == i && (i <= k || i == 0)
    {
      if ends[i] > t { break; }
      fit := fit + 1;
      i := i + 1;
    }
  }

  predicate Increasing(ends: seq<nat>, start: nat) {
    && (forall i :: 0 <= i < |ends| ==> start < ends[i])
    && (forall i, j :: 0 <= i < j < |ends| ==> ends[i] < ends[j])
  }

  /** The end of the last record that fits, or of the questions. */
  method CutPoint(questionEnd: nat, an: seq<nat>, ns: seq<nat>, ar: seq<nat>, limit: nat, ghost k: nat) returns (t: nat)
    requires Increasing(an + ns + ar, questionEnd) && k <= |an + ns + ar| && Splits(an + ns + ar, k, limit)
    ensures t == (if k == 0 then questionEnd else (an + ns + ar)[k - 1]) && questionEnd <= t
    ensures Splits(an, k, t) && Splits(ns, k - |an|, t) && Splits(ar, k - |an| - |ns|, t)
  {
    ghost var all := an + ns + ar;
    SplitsParts(an, ns, ar, k, limit);
    t := LastWithin(an, limit, questionEnd, k);
    t := LastWithin(ns, limit, t, k - |an|);
    t := LastWithin(ar, limit, t, k - |an| - |ns|);
    assert t == if k == 0 then questionEnd else all[k - 1];
    SplitsAtCut(all, k, limit, questionEnd);
    SplitsParts(an, ns, ar, k, t);
  }

  /** Sets TC and rewrites the three record counts in the finished buffer. */
  method Recount(out: ByteBuffer, t: nat, an: seq<nat>, ns: seq<nat>, ar: seq<nat>,
                 ghost h: Header, ghost body: bytes, ghost k: int)
    requires out.data == HeaderBytes(h) + body
    requires Splits(an, k, t) && Splits(ns, k - |an|, t) && Splits(ar, k - |an| - |ns|, t)
    requires |an| <= UINT16_MAX && |ns| <= UINT16_MAX && |ar| <= UINT16_MAX
    modifies out
    ensures out.data == HeaderBytes(Header(h.id, WithTc(h.flags), h.qdcount, Max(0, Min(k, |an|)),
                                           Max(0, Min(k - |an|, |ns|)), Max(0, Min(k - |an| - |ns|, |ar|)))) + body
  {
    hide HeaderBytes, WithTc, Splits, Overwritten;
    HeaderReadsBack(h, out.data);
    out.PutU16(2, WithTc(ReadU16(out.data, 2)));
    PutFlags(h, body, WithTc(h.flags));
    ghost var h1 := h.(flags := WithTc(h.flags));
    var fit := CountWithin(an, t, k);
    out.PutU16(6, fit);
    PutAncount(h1, body, fit);
    ghost var h2 := h1.(ancount := fit);
    fit := CountWithin(ns, t, k - |an|);
    out.PutU16(8, fit);
    PutNscount(h2, body, fit);
    ghost var h3 := h2.(nscount := fit);
    fit := CountWithin(ar, t, k - |an| - |ns|);
    out.PutU16(10, fit);
    PutArcount(h3, body, fit);
  }

  lemma {:induction false} SplitsParts(an: seq<nat>, ns: seq<nat>, ar: seq<nat>, k: nat, limit: nat)
    requires Splits(an + ns + ar, k, limit)
    ensures Splits(an, k, limit) && Splits(ns, k - |an|, limit) && Splits(ar, k - |an| - |ns|, limit)
  {
    var all := an + ns + ar;
    assert forall j :: 0 <= j < |an| ==> an[j] == all[j];
    assert forall j :: 0 <= j < |ns| ==> ns[j] == all[|an| + j];
    assert forall j :: 0 <= j < |ar| ==> ar[j] == all[|an| + |ns| + j];
  }

  lemma {:induction false} SplitsAtCut(all: seq<nat>, k: nat, limit: nat, start: nat)
    requires k <= |all| && Splits(all, k, limit) && Increasing(all, start)
    ensures Splits(all, k, if k == 0 then start else all[k - 1])
    ensures k > 0 ==> start < all[k - 1]
  {
  }

  lemma {:induction false} PutFlags(h: Header, body: bytes, v: uint16)
    ensures Overwritten(HeaderBytes(h) + body, 2, v) == HeaderBytes(h.(flags := v)) + body
  {
  }

  lemma {:induction false} PutAncount(h: Header, body: bytes, v: uint16)
    ensures Overwritten(HeaderBytes(h) + body, 6, v) == HeaderBytes(h.(ancount := v)) + body
  {
  }

  lemma {:induction false} PutNscount(h: Header, body: bytes, v: uint16)
    ensures Overwritten(HeaderBytes(h) + body, 8, v) == HeaderBytes(h.(nscount := v)) + body
  {
  }

  lemma {:induction false} PutArcount(h: Header, body: bytes, v: uint16)
    ensures Overwritten(HeaderBytes(h) + body, 10, v) == HeaderBytes(h.(arcount := v)) + body
  {
  }

  // ----- From item sizes to the cut -----

  lemma {:induction false} EndsAreIncreasing(ends: seq<nat>, start: nat, at: int, names: Offsets, items: seq<Item>)
    requires EndsOf(ends, start, at, names, items)
    ensures Increasing(ends, start)
  {
    hide EncodeItems;
    forall i | 0 <= i < |ends|
      ensures start < ends[i]
      ensures i > 0 ==> ends[i - 1] < ends[i]
    {
      LongerEndsLater(ends[i], start, at, names, items, i + 1, 0);
      if i > 0 { LongerEndsLater(ends[i], start, at, names, items, i + 1, i); }
    }
    StepwiseIncreasing(ends);
  }

  lemma {:induction false} StepwiseIncreasing(ends: seq<nat>)
    requires forall i :: 0 < i < |ends| ==> ends[i - 1] < ends[i]
    ensures forall i, j :: 0 <= i < j < |ends| ==> ends[i] < ends[j]
    decreases |ends|
  {
    if |ends| > 1 {
      var front := ends[..|ends| - 1];
      StepwiseIncreasing(front);
      assert ends[|ends| - 2] == front[|front| - 1];
      assert forall i :: 0 <= i < |front| ==> ends[i] == front[i];
    }
  }

  lemma {:induction false} ItemsTakeSpace(at: int, names: Offsets, items: seq<Item>)
    requires items != [] && EncodeItems(at, names, items).Some?
    ensures EncodeItems(at, names, items).value.bytes != []
  {
    hide EncodeName, EncodeRdata, Labelled;
  }

  lemma {:induction false} LongerEndsLater(end: nat, start: nat, at: int, names: Offsets, items: seq<Item>, n: nat,
                                           m: nat)
    requires m < n <= |items| && EndsAfter(end, start, at, names, items, n)
    ensures EncodeItems(at, names, items[..m]).Some?
    ensures start + |EncodeItems(at, names, items[..m]).value.bytes| < end
    ensures m == 0 ==> EncodeItems(at, names, items[..m]).value.bytes == []
  {
    hide EncodeItems;
    var some, more := items[..m], items[..n];
    assert more[..m] == some && more[..m] + more[m..] == more;
    EncodeItemsAppends(at, names, some, more[m..]);
    var w := EncodeItems(at, names, some).value;
    ItemsTakeSpace(at + |w.bytes|, w.names, more[m..]);
    if m == 0 { NoItems(at, names, items); }
  }

  lemma {:induction false} EndsJoin(a: seq<nat>, b: seq<nat>, start: nat, at: int, names: Offsets, xs: seq<Item>,
                                    ys: seq<Item>)
    requires EncodeItems(at, names, xs).Some? && |a| == |xs| && EndsOf(a, start, at, names, xs)
    requires var w := EncodeItems(at, names, xs).value;
      EndsOf(b, start + |w.bytes|, at + |w.bytes|, w.names, ys)
    ensures EndsOf(a + b, start, at, names, xs + ys)
  {
    hide EncodeItems;
    var w := EncodeItems(at, names, xs).value;
    var all := xs + ys;
    forall j | 0 <= j < |a + b|
      ensures EndsAfter((a + b)[j], start, at, names, all, j + 1)
    {
      if j < |a| {
        assert all[..j + 1] == xs[..j + 1];
      } else {
        var n := j - |a| + 1;
        assert all[..j + 1] == xs + ys[..n];
        assert EndsAfter(b[j - |a|], start + |w.bytes|, at + |w.bytes|, w.names, ys, n);
        EncodeItemsAppends(at, names, xs, ys[..n]);
      }
    }
  }

  /** The ends of the items split at the number of items that fit. */
  lemma {:induction false} EndsSplit(ends: seq<nat>, at: nat, names: Offsets, items: seq<Item>, limit: int)
    requires EncodeItems(at, names, items).Some? && |ends| == |items| && EndsOf(ends, at, at, names, items)
    ensures Splits(ends, Fitting(at, names, items, limit), limit)
  {
    hide EncodeItems, Fitting, Increasing;
    var k := Fitting(at, names, items, limit);
    EndsAreIncreasing(ends, at, at, names, items);
    FittingIsMaximal(at, names, items, limit);
    if k > 0 { assert EndsAfter(ends[k - 1], at, at, names, items, k); }
    if k < |items| { assert EndsAfter(ends[k], at, at, names, items, k + 1); }
    IncreasingSplits(ends, at, k, limit);
  }

  lemma {:induction false} IncreasingSplits(ends: seq<nat>, start: nat, k: nat, limit: int)
    requires Increasing(ends, start) && k <= |ends|
    requires k > 0 ==> ends[k - 1] <= limit
    requires k < |ends| ==> ends[k] > limit
    ensures Splits(ends, k, limit)
  {
  }

  // ----- make_dns_packet -----

  method MakeDnsPacket(msg: Message, tcp: bool, udpLimit: uint16) returns (packet: Option<bytes>)
    ensures packet == PacketFor(msg, tcp, udpLimit)
  {
    hide HeaderBytes, EncodeItems, EncodeQuestions, Fitting, Increasing, EndsOf, Shorten, ItemsFor, Clamp;
    var out := new ByteBuffer();
    var names := new NameMap();
    if tcp {
      out.Append([0, 0]);
      names.SetOffset(2);
    }
    ghost var base := names.base;
    ghost var prefix := out.data;
    var h := CountedHeader(msg);
    out.Append(HeaderBytes(h));
    WriteQuestions(out, names, msg.questions);
    var question := FirstQuestionName(msg);
    var questionEnd := |out.data|;
    ghost var at, names0, head := questionEnd - base, names.entries, out.data;
    var ok, an, ns, ar;
    ok, an := WriteSection(out, names, question, false, Clamp(msg.answers));
    if !ok {
      SectionFails(msg);
      return None;
    }
    ghost var a := EncodeItems(at, names0, Answers(msg)).value;
    ok, ns := WriteSection(out, names, question, false, Clamp(msg.authorities));
    if !ok {
      SectionFails(msg);
      return None;
    }
    ghost var b := EncodeItems(at + |a.bytes|, a.names, Authorities(msg)).value;
    ok, ar := WriteSection(out, names, question, true, Clamp(msg.additionals));
    SectionFails(msg);
    if !ok { return None; }
    ghost var c := EncodeItems(at + |a.bytes| + |b.bytes|, b.names, Additionals(msg)).value;
    ghost var whole := EncodeMessage(msg).value;
    AllParts(prefix, HeaderBytes(h), QuestionPart(msg).bytes, a.bytes, b.bytes, c.bytes);
    if tcp {
      var len := |out.data| - 2;
      if len > UINT16_MAX { return None; }
      out.PutU16(0, len);
      assert out.data == U16(len) + whole;
      return Some(out.data);
    }
    assert out.data == whole;
    if |out.data| > Max(512, udpLimit) {
      CutToLimit(out, msg, questionEnd, an, ns, ar, Max(512, udpLimit), a, b);
    }
    return Some(out.data);
  }

  /** Parts appended one by one to a prefix. */
  lemma {:induction false} AllParts(prefix: bytes, h: bytes, q: bytes, a: bytes, b: bytes, c: bytes)
    ensures prefix + h + q + a + b + c == prefix + (h + q + (a + b + c))
  {
    Concat(prefix, h, q);
    Concat(prefix + h + q, a, b);
    Concat(prefix + h + q, a + b, c);
    Concat(prefix, h + q, a + b + c);
  }

  /** The UDP half of make_dns_packet once a finished message has turned out too long. */
  method CutToLimit(out: ByteBuffer, msg: Message, questionEnd: nat, an: seq<nat>, ns: seq<nat>, ar: seq<nat>,
                    limit: nat,
                    ghost a: Written, ghost b: Written)
    requires EncodeMessage(msg) == Some(out.data)
    requires questionEnd == HEADER_SIZE + |QuestionPart(msg).bytes|
    requires |an| == |Answers(msg)| && |ns| == |Authorities(msg)| && |ar| == |Additionals(msg)|
    requires EncodeItems(questionEnd, QuestionPart(msg).names, Answers(msg)) == Some(a)
    requires EncodeItems(questionEnd + |a.bytes|, a.names, Authorities(msg)) == Some(b)
    requires EndsOf(an, questionEnd, questionEnd, QuestionPart(msg).names, Answers(msg))
    requires EndsOf(ns, questionEnd + |a.bytes|, questionEnd + |a.bytes|, a.names, Authorities(msg))
    requires var last := questionEnd + |a.bytes| + |b.bytes|;
      EndsOf(ar, last, last, b.names, Additionals(msg))
    modifies out
    ensures EncodeMessage(Shorten(msg, FittingItems(msg, limit))) == Some(out.data)
  {
    hide HeaderBytes, EncodeItems, EncodeQuestions, EncodeMessage, Fitting, Increasing, EndsOf, Shorten, ItemsFor,
         QuestionPart, Splits;
    ghost var at, names := questionEnd, QuestionPart(msg).names;
    ghost var whole, h, all := out.data, CountedHeader(msg), an + ns + ar;
    ghost var k := FittingItems(msg, limit);
    EncodedItems(msg);
    EndsJoin(an, ns, at, at, names, Answers(msg), Authorities(msg));
    EncodeItemsAppends(at, names, Answers(msg), Authorities(msg));
    EndsJoin(an + ns, ar, at, at, names, Answers(msg) + Authorities(msg), Additionals(msg));
    EndsAreIncreasing(all, at, at, names, Items(msg));
    EndsSplit(all, at, names, Items(msg), limit);
    var t := CutPoint(questionEnd, an, ns, ar, limit, k);
    CutMessage(msg, all, k, t);
    out.Resize(t);
    Recount(out, t, an, ns, ar, h, whole[HEADER_SIZE..t], k);
    ShortenedCounts(msg, k);
  }

  /** The message has an encoding exactly when each of its three sections has one. */
  lemma {:induction false} SectionFails(msg: Message)
    ensures var q := QuestionPart(msg);
      var at := HEADER_SIZE + |q.bytes|;
      var a := EncodeItems(at, q.names, Answers(msg));
      if a.None? then EncodeMessage(msg).None? else
        var b := EncodeItems(at + |a.value.bytes|, a.value.names, Authorities(msg));
        if b.None? then EncodeMessage(msg).None? else
          var c := EncodeItems(at + |a.value.bytes| + |b.value.bytes|, b.value.names, Additionals(msg));
          EncodeMessage(msg) == if c.None? then None else
            Some(HeaderBytes(CountedHeader(msg)) + q.bytes + (a.value.bytes + b.value.bytes + c.value.bytes))
  {
    hide EncodeItems, HeaderBytes, CountedHeader, QuestionPart, Answers, Authorities, Additionals;
    var q := QuestionPart(msg);
    var at := HEADER_SIZE + |q.bytes|;
    EncodeItemsAppends(at, q.names, Answers(msg) + Authorities(msg), Additionals(msg));
    EncodeItemsAppends(at, q.names, Answers(msg), Authorities(msg));
  }

  lemma {:induction false} CutMessage(msg: Message, ends: seq<nat>, k: nat, t: nat)
    requires EncodeMessage(msg).Some?
    requires var q := QuestionPart(msg);
      var at := HEADER_SIZE + |q.bytes|;
      && EndsOf(ends, at, at, q.names, Items(msg)) && |ends| == |Items(msg)| && k <= |ends|
      && t == if k == 0 then at else ends[k - 1]
    ensures var whole := EncodeMessage(msg).value;
      && HEADER_SIZE <= t <= |whole|
      && whole[..t] == HeaderBytes(CountedHeader(msg)) + whole[HEADER_SIZE..t]
      && EncodeMessage(Shorten(msg, k)) ==
         Some(HeaderBytes(CountedHeader(Shorten(msg, k))) + whole[HEADER_SIZE..t])
  {
    hide EncodeItems, HeaderBytes, CountedHeader, Shorten, Items, QuestionPart;
    var q := QuestionPart(msg);
    var at := HEADER_SIZE + |q.bytes|;
    EncodedItems(msg);
    CutIsShorterMessage(msg, k);
    NoItemsNoSize(at, q.names, Items(msg));
    if k > 0 { assert EndsAfter(ends[k - 1], at, at, q.names, Items(msg), k); }
    var whole := EncodeMessage(msg).value;
    assert HeaderBytes(CountedHeader(msg)) <= whole;
  }

  lemma {:induction false} ShortenedCounts(msg: Message, k: nat)
    ensures var an, ns, ar := |Clamp(msg.answers)|, |Clamp(msg.authorities)|, |Clamp(msg.additionals)|;
      CountedHeader(Shorten(msg, k)) ==
        Header(msg.header.id, WithTc(msg.header.flags), Count(msg.questions), Max(0, Min(k, an)),
               Max(0, Min(k - an, ns)), Max(0, Min(k - an - ns, ar)))
  {
  }
}
