/** The cache as its callers see it: questions with a name, a type and a class, and what they are answered. */
module CacheQuestions {
  import opened Bytes
  import opened Messages
  import opened CacheModel
  import opened CacheResults
  import opened WireNames

  // ----- Questions and keys -----

  /** The same question: the name up to case, the type, the class. */
  predicate SameAsked(a: Question, b: Question) {
    SameUpToCase(a.name, b.name) && a.typ == b.typ && a.clas == b.clas
  }

  function KeyFor(q: Question): CacheKey {
    MakeKey(q.name, q.typ, q.clas)
  }

  /** Two questions share an entry exactly when they are the same question. */
  lemma {:induction false} KeysExactly(a: Question, b: Question)
    ensures KeyFor(a) == KeyFor(b) <==> SameAsked(a, b)
  {
    hide Lower, SameUpToCase;
    SameUpToCaseExactly(a.name, b.name);
  }

  // ----- Histories of questions -----

  datatype Request =
    | Asks(question: Question, now: nat)
    | Learns(question: Question, value: Message, now: nat)
    | Fails(question: Question, value: Message, ttl: uint32, now: nat)

  function OpFor(r: Request): Op {
    match r
    case Asks(q, now) => Find(KeyFor(q), now)
    case Learns(q, value, now) => Insert(KeyFor(q), value, now)
    case Fails(q, value, ttl, now) => InsertFailure(KeyFor(q), value, ttl, now)
  }

  function OpsFor(rs: seq<Request>): (ops: seq<Op>)
    ensures |ops| == |rs| && forall i :: 0 <= i < |rs| ==> ops[i] == OpFor(rs[i])
  {
    seq(|rs|, i requires 0 <= i < |rs| => OpFor(rs[i]))
  }

  /** How many seconds a value is to be kept. */
  function SecondsFor(r: Request): uint32 {
    match r
    case Asks(_, _) => 0
    case Learns(_, value, _) => Lifetime(value)
    case Fails(_, _, ttl, _) => if ttl < 1 then 1 else if ttl > 300 then 300 else ttl
  }

  /** What a value is charged for under a question. */
  function ChargeFor(l: Limits, r: Request): nat
    requires !r.Asks?
  {
    MakeItem(l, KeyFor(r.question), r.value, SecondsFor(r), r.now).charge
  }

  /** A value is taken if it is to be kept at all and its charge is within both limits. */
  predicate Taken(l: Limits, r: Request) {
    !r.Asks? && SecondsFor(r) > 0 && ChargeFor(l, r) <= l.maxEntrySize && ChargeFor(l, r) <= l.maxBytes
  }

  lemma {:induction false} TakenExactly(l: Limits, r: Request)
    ensures Offered(l, OpFor(r)).Some? <==> Taken(l, r)
    ensures GivenLifetime(OpFor(r)) == SecondsFor(r)
  {
    hide MakeItem, Lifetime;
  }

  /** Request i is the last whose value was taken for this question. */
  predicate LastFor(l: Limits, rs: seq<Request>, i: nat, q: Question)
    requires i < |rs|
  {
    && Taken(l, rs[i]) && SameAsked(rs[i].question, q)
    && forall j :: i < j < |rs| && SameAsked(rs[j].question, q) ==> !Taken(l, rs[j])
  }

  /** Until when a value is kept. */
  function KeptUntil(l: Limits, r: Request): nat {
    r.now + 1000 * (if SecondsFor(r) < l.maxTtl then SecondsFor(r) else l.maxTtl)
  }

  lemma {:induction false} KeyOfRequest(r: Request, q: Question)
    ensures OpFor(r).key == KeyFor(q) <==> SameAsked(r.question, q)
  {
    hide SameAsked, MakeKey;
    KeysExactly(r.question, q);
  }

  lemma {:induction false} LastForExactly(l: Limits, rs: seq<Request>, i: nat, q: Question)
    requires i < |rs| && OfferedLast(l, OpsFor(rs), KeyFor(q), i)
    ensures LastFor(l, rs, i, q)
  {
    hide SameAsked, Taken, Offered, MakeKey, LastAccepted;
    KeyOfRequest(rs[i], q);
    TakenExactly(l, rs[i]);
    forall j | i < j < |rs| && SameAsked(rs[j].question, q) ensures !Taken(l, rs[j]) {
      KeyOfRequest(rs[j], q);
      TakenExactly(l, rs[j]);
      assert OpsFor(rs)[j].key == KeyFor(q);
    }
  }

  /**
    * After any history a question is answered, if at all, from the value last taken for the same question:
    * the same name up to case, the same type and class; with that value as it was but for TTLs, and before
    * its time is up.
    */
  lemma {:induction false} QuestionsGetTheirOwnAnswers(l: Limits, rs: seq<Request>, q: Question, now: nat)
    requires forall i :: 0 <= i < |rs| ==> rs[i].now <= now
    requires Answer(Run(l, OpsFor(rs)), KeyFor(q), now).Some?
    ensures exists i :: 0 <= i < |rs| && LastFor(l, rs, i, q) && now < KeptUntil(l, rs[i]) &&
              IsHonestCopy(l, rs[i].value, Answer(Run(l, OpsFor(rs)), KeyFor(q), now).value, rs[i].now, now)
  {
    hide Run, Answer, IsHonestCopy, Offered, LastAccepted, MakeKey, LastFor, SecondsFor;
    var ops := OpsFor(rs);
    AnswersAreFresh(l, ops, KeyFor(q), now);
    var i :| 0 <= i < |ops| && OfferedLast(l, ops, KeyFor(q), i) && !ops[i].Find? &&
      now < ops[i].now + Min(GivenLifetime(ops[i]), l.maxTtl) * 1000 &&
      IsHonestCopy(l, ops[i].value, Answer(Run(l, ops), KeyFor(q), now).value, ops[i].now, now);
    LastForExactly(l, rs, i, q);
    TakenExactly(l, rs[i]);
    assert OpFor(rs[i]) == ops[i];
    assert LastFor(l, rs, i, q);
  }

  /** A value that is taken answers the same question, however spelled, until its time is up. */
  lemma {:induction false} LearnedIsAnswered(l: Limits, rs: seq<Request>, r: Request, q: Question, now: nat)
    requires Taken(l, r) && SameAsked(r.question, q) && r.now <= now
    ensures var answer := Answer(Run(l, OpsFor(rs + [r])), KeyFor(q), now);
      && (answer.Some? <==> now < KeptUntil(l, r))
      && (answer.Some? ==> IsHonestCopy(l, r.value, answer.value, r.now, now))
  {
    hide IsHonestCopy, MakeItem, SameAsked, Lifetime, Render, MakeRoom, Without, MakeKey;
    var ops := OpsFor(rs + [r]);
    assert ops[..|ops| - 1] == OpsFor(rs) && ops[|ops| - 1] == OpFor(r);
    KeysExactly(r.question, q);
    TakenExactly(l, r);
    HandedOutInTime(l, KeyFor(q), r.value, SecondsFor(r), r.now, now);
    FoundInFront(l, Run(l, OpsFor(rs)), MakeItem(l, KeyFor(q), r.value, SecondsFor(r), r.now));
    LearnedItem(l, r);
  }

  lemma {:induction false} FoundInFront(l: Limits, items: seq<Item>, item: Item)
    ensures Lookup(Store(l, items, item), item.key) == Some(item)
  {
  }

  lemma {:induction false} LearnedItem(l: Limits, r: Request)
    requires Taken(l, r)
    ensures Offered(l, OpFor(r)) == Some(MakeItem(l, KeyFor(r.question), r.value, SecondsFor(r), r.now))
    ensures MakeItem(l, KeyFor(r.question), r.value, SecondsFor(r), r.now).key == KeyFor(r.question)
  {
    hide Lifetime, MessageSize, StampAll;
  }

  // ----- What a request does to the other answers -----

  lemma {:induction false} LookupWithout(items: seq<Item>, gone: CacheKey, key: CacheKey)
    ensures Lookup(Without(items, gone), key) == if key == gone then None else Lookup(items, key)
  {
    if items != [] {
      LookupWithout(items[1..], gone, key);
      if items[0].key != gone {
        assert ([items[0]] + Without(items[1..], gone))[1..] == Without(items[1..], gone);
      }
    }
  }

  lemma {:induction false} LookupInFront(item: Item, items: seq<Item>, key: CacheKey)
    ensures Lookup([item] + items, key) == if item.key == key then Some(item) else Lookup(items, key)
  {
    assert ([item] + items)[1..] == items;
  }

  lemma {:induction false} LookupIsKeyed(items: seq<Item>, key: CacheKey)
    ensures Lookup(items, key).Some? ==> Lookup(items, key).value.key == key
  {
    if items != [] {
      LookupIsKeyed(items[1..], key);
    }
  }

  /** Asking a question changes no answer, to it or to any other. */
  lemma {:induction false} AskingChangesNothing(l: Limits, rs: seq<Request>, asked: Question, t: nat, q: Question,
                                                now: nat)
    requires t <= now
    ensures Answer(Run(l, OpsFor(rs + [Asks(asked, t)])), KeyFor(q), now) == Answer(Run(l, OpsFor(rs)), KeyFor(q), now)
  {
    hide Lookup, Without, Render;
    var ops, items := OpsFor(rs + [Asks(asked, t)]), Run(l, OpsFor(rs));
    assert ops[..|ops| - 1] == OpsFor(rs) && ops[|ops| - 1] == Find(KeyFor(asked), t);
    var found := Lookup(items, KeyFor(asked));
    LookupWithout(items, KeyFor(asked), KeyFor(q));
    if found.Some? {
      LookupIsKeyed(items, KeyFor(asked));
      LookupInFront(found.value, Without(items, KeyFor(asked)), KeyFor(q));
      LateIsNothing(found.value, t, now);
    }
  }

  lemma {:induction false} LateIsNothing(item: Item, t: nat, now: nat)
    requires t <= now
    ensures t >= item.expire ==> Render(item, now).None?
  {
  }

  /** A question that is answered is the most recently used from then on. */
  lemma {:induction false} AskedIsInFront(l: Limits, rs: seq<Request>, q: Question, t: nat)
    requires Answer(Run(l, OpsFor(rs)), KeyFor(q), t).Some?
    ensures var after := Run(l, OpsFor(rs + [Asks(q, t)]));
      after != [] && after[0].key == KeyFor(q) && Some(after[0]) == Lookup(Run(l, OpsFor(rs)), KeyFor(q))
  {
    hide Lookup, Without;
    var ops := OpsFor(rs + [Asks(q, t)]);
    assert ops[..|ops| - 1] == OpsFor(rs) && ops[|ops| - 1] == Find(KeyFor(q), t);
    LookupIsKeyed(Run(l, OpsFor(rs)), KeyFor(q));
  }

  lemma {:induction false} LookupInPrefix(items: seq<Item>, n: nat, key: CacheKey)
    requires n <= |items|
    ensures Lookup(items[..n], key).Some? ==> Lookup(items[..n], key) == Lookup(items, key)
  {
    if n > 0 {
      assert items[..n][1..] == items[1..][..n - 1];
      LookupInPrefix(items[1..], n - 1, key);
    }
  }

  lemma {:induction false} RoomIsPrefix(l: Limits, items: seq<Item>, charge: nat) returns (n: nat)
    ensures n <= |items| && MakeRoom(l, items, charge) == items[..n]
    decreases |items|
  {
    if items == [] || Fits(l, items, charge) {
      n := |items|;
      assert items[..n] == items;
    } else {
      n := RoomIsPrefix(l, items[..|items| - 1], charge);
      assert items[..|items| - 1][..n] == items[..n];
    }
  }

  /** What is offered for one question leaves the answer to another as it is, or takes its room. */
  lemma {:induction false} OthersAreKeptOrDropped(l: Limits, rs: seq<Request>, r: Request, q: Question, now: nat)
    requires !r.Asks? && !SameAsked(r.question, q)
    ensures var before := Answer(Run(l, OpsFor(rs)), KeyFor(q), now);
      var after := Answer(Run(l, OpsFor(rs + [r])), KeyFor(q), now);
      after == before || (after == None && Taken(l, r))
  {
    hide Lookup, Without, Render, MakeRoom, MakeItem, SameAsked, Lifetime, MakeKey;
    var ops, items := OpsFor(rs + [r]), Run(l, OpsFor(rs));
    assert ops[..|ops| - 1] == OpsFor(rs) && ops[|ops| - 1] == OpFor(r);
    KeysExactly(r.question, q);
    TakenExactly(l, r);
    var offered := Offered(l, OpFor(r));
    if offered.Some? {
      var rest := Without(items, KeyFor(r.question));
      var n := RoomIsPrefix(l, rest, offered.value.charge);
      LookupWithout(items, KeyFor(r.question), KeyFor(q));
      LookupInPrefix(rest, n, KeyFor(q));
      LookupInFront(offered.value, rest[..n], KeyFor(q));
    }
  }

  // ----- Lifetimes -----

  /** Record i is the first authority record of type SOA. */
  predicate FirstSoaAt(rs: seq<Record>, i: nat) {
    && i < |rs| && rs[i].typ == 6 && rs[i].payload.SoaPayload?
    && forall j :: 0 <= j < i ==> rs[j].typ != 6 || !rs[j].payload.SoaPayload?
  }

  lemma {:induction false} FirstSoaExactly(rs: seq<Record>)
    ensures match FirstSoa(rs)
            case None => forall i :: 0 <= i < |rs| ==> rs[i].typ != 6 || !rs[i].payload.SoaPayload?
            case Some(soa) => exists i :: 0 <= i < |rs| && FirstSoaAt(rs, i) && rs[i] == soa
  {
    if rs != [] && !HasSoa(rs[0]) {
      FirstSoaExactly(rs[1..]);
      if FirstSoa(rs[1..]).Some? {
        var i :| 0 <= i < |rs[1..]| && FirstSoaAt(rs[1..], i) && rs[1..][i] == FirstSoa(rs[1..]).value;
        assert forall j :: 0 < j < |rs| ==> rs[1..][j - 1] == rs[j];
        assert FirstSoaAt(rs, i + 1);
      } else {
        assert forall j :: 0 < j < |rs| ==> rs[1..][j - 1] == rs[j];
      }
    } else if rs != [] {
      assert FirstSoaAt(rs, 0);
    }
  }

  lemma {:induction false} OneSoa(rs: seq<Record>, i: nat)
    requires FirstSoaAt(rs, i)
    ensures FirstSoa(rs) == Some(rs[i])
  {
    hide FirstSoa;
    FirstSoaExactly(rs);
    if FirstSoa(rs).Some? {
      var j :| 0 <= j < |rs| && FirstSoaAt(rs, j) && rs[j] == FirstSoa(rs).value;
      assert i == j;
    }
  }

  lemma {:induction false} LeastIsOne(rs: seq<Record>)
    requires rs != []
    ensures exists i :: 0 <= i < |rs| && rs[i].ttl == LeastTtl(rs)
  {
    if |rs| > 1 && rs[0].ttl > LeastTtl(rs[1..]) {
      LeastIsOne(rs[1..]);
      var i :| 0 <= i < |rs[1..]| && rs[1..][i].ttl == LeastTtl(rs[1..]);
      assert rs[i + 1].ttl == LeastTtl(rs);
    } else {
      assert rs[1..] == [] || rs[0].ttl <= LeastTtl(rs[1..]);
      assert rs[0].ttl == LeastTtl(rs);
    }
  }

  /**
    * A negative answer, one with response code 3 or without answers, is kept as long as both the SOA record's
    * own TTL and its minimum allow, and not at all without one (section 5 of RFC 2308).
    */
  lemma {:induction false} NegativeLifetime(m: Message)
    requires m.header.flags % 16 == 3 || (m.header.flags % 16 == 0 && m.answers == [])
    ensures (forall i ::
        0 <= i < |m.authorities| ==> m.authorities[i].typ != 6 || !m.authorities[i].payload.SoaPayload?)
      ==> Lifetime(m) == 0
    ensures Lifetime(m) < 0xffff_ffff
    ensures forall i :: 0 <= i < |m.authorities| && FirstSoaAt(m.authorities, i) ==>
      var soa := m.authorities[i];
      && Lifetime(m) <= soa.ttl && Lifetime(m) <= soa.payload.minimum
      && (Lifetime(m) == soa.ttl || Lifetime(m) == soa.payload.minimum ||
          (soa.ttl == 0xffff_ffff && soa.payload.minimum == 0xffff_ffff && Lifetime(m) == 0))
  {
    hide FirstSoa;
    FirstSoaExactly(m.authorities);
    forall i | 0 <= i < |m.authorities| && FirstSoaAt(m.authorities, i)
      ensures FirstSoa(m.authorities) == Some(m.authorities[i])
    {
      OneSoa(m.authorities, i);
    }
  }

  /** A positive answer is kept as long as the least of its records' TTLs, and any other response not at all. */
  lemma {:induction false} PositiveLifetime(m: Message)
    requires m.header.flags % 16 != 3
    ensures m.header.flags % 16 != 0 ==> Lifetime(m) == 0
    ensures Lifetime(m) < 0xffff_ffff
    ensures m.header.flags % 16 == 0 && m.answers != [] ==>
      && (forall i :: 0 <= i < |m.answers| ==> Lifetime(m) <= m.answers[i].ttl)
      && ((exists i :: 0 <= i < |m.answers| && Lifetime(m) == m.answers[i].ttl) ||
          (Lifetime(m) == 0 && forall i :: 0 <= i < |m.answers| ==> m.answers[i].ttl == 0xffff_ffff))
  {
    hide LeastTtl;
    LeastIsLeast(m.answers);
    if m.answers != [] {
      LeastIsOne(m.answers);
    }
  }

  // ----- Charges -----

  /** The octets a record's data take in memory, by the type it is read as. */
  function DataCharge(z: Sizes, r: Record): nat {
    match r.payload
    case CnamePayload(n) => if r.typ == 5 then z.cname + |n| else 0
    case PtrPayload(n) => if r.typ == 12 then z.ptr + |n| else 0
    case NsPayload(n) => if r.typ == 2 then z.ns + |n| else 0
    case MxPayload(_, n) => if r.typ == 15 then z.mx + |n| else 0
    case SoaPayload(m, n, _, _, _, _, _) => if r.typ == 6 then z.soa + |m| + |n| else 0
    case HttpsPayload(_, n, params) => if r.typ == 65 then z.https + |n| + |params| else 0
    case NoPayload => 0
  }

  lemma {:induction false} SizesSplit(z: Sizes, before: seq<Record>, after: seq<Record>)
    ensures RecordSizes(z, before + after) == RecordSizes(z, before) + RecordSizes(z, after)
  {
    hide RecordSize;
    if before == [] {
      assert before + after == after;
    } else {
      assert (before + after)[1..] == before[1..] + after;
      SizesSplit(z, before[1..], after);
    }
  }

  /** Every answer record adds its name, its raw data and its payload to the charge, wherever it stands. */
  lemma {:induction false} EveryAnswerIsCharged(z: Sizes, key: CacheKey, m: Message, i: nat)
    requires i < |m.answers|
    ensures var r := m.answers[i];
      MessageSize(z, key, m) ==
      MessageSize(z, key, m.(answers := m.answers[..i] + m.answers[i + 1..]))
      + z.rec + |r.name| + |r.bin| + DataCharge(z, r)
  {
    hide RecordSizes, QuestionSizes;
    var r, before, after := m.answers[i], m.answers[..i], m.answers[i + 1..];
    assert m.answers == before + ([r] + after);
    SizesSplit(z, before, [r] + after);
    SizesSplit(z, [r], after);
    SizesSplit(z, before, after);
    OneSize(z, r);
  }

  lemma {:induction false} OneSize(z: Sizes, r: Record)
    ensures RecordSizes(z, [r]) == z.rec + |r.name| + |r.bin| + DataCharge(z, r)
  {
    assert [r][1..] == [];
  }

  /** So does every authority record; additional records are charged nothing, for they are not kept. */
  lemma {:induction false} EveryAuthorityIsCharged(z: Sizes, key: CacheKey, m: Message, i: nat)
    requires i < |m.authorities|
    ensures var r := m.authorities[i];
      MessageSize(z, key, m) ==
      MessageSize(z, key, m.(authorities := m.authorities[..i] + m.authorities[i + 1..]))
      + z.rec + |r.name| + |r.bin| + DataCharge(z, r)
  {
    hide RecordSizes, QuestionSizes;
    var r, before, after := m.authorities[i], m.authorities[..i], m.authorities[i + 1..];
    assert m.authorities == before + ([r] + after);
    SizesSplit(z, before, [r] + after);
    SizesSplit(z, [r], after);
    SizesSplit(z, before, after);
    OneSize(z, r);
  }

  lemma {:induction false} QuestionsSplit(z: Sizes, before: seq<Question>, after: seq<Question>)
    ensures QuestionSizes(z, before + after) == QuestionSizes(z, before) + QuestionSizes(z, after)
  {
    if before == [] {
      assert before + after == after;
    } else {
      assert (before + after)[1..] == before[1..] + after;
      QuestionsSplit(z, before[1..], after);
    }
  }

  /** Every question adds its name; and an entry takes room even for an empty message. */
  lemma {:induction false} EveryQuestionIsCharged(z: Sizes, key: CacheKey, m: Message, i: nat)
    requires i < |m.questions|
    ensures MessageSize(z, key, m) ==
            MessageSize(z, key, m.(questions := m.questions[..i] + m.questions[i + 1..]))
            + z.question + |m.questions[i].name|
    ensures MessageSize(z, key, m.(questions := [], answers := [], authorities := [])) == z.item + |key.name|
  {
    hide RecordSize;
    var q, before, after := m.questions[i], m.questions[..i], m.questions[i + 1..];
    assert m.questions == before + ([q] + after);
    QuestionsSplit(z, before, [q] + after);
    QuestionsSplit(z, [q], after);
    QuestionsSplit(z, before, after);
    assert [q][1..] == [];
  }

  // ----- Limits -----

  /** One entry more for every 512 octets allowed, but never fewer than 4096 nor more than a million. */
  lemma {:induction false} EntriesAllowed(maxBytes: nat)
    ensures EntryCap(maxBytes) ==
            if maxBytes < 4096 * 512 then 4096 else if maxBytes >= 1000000 * 512 then 1000000 else maxBytes / 512
  {
    if 4096 * 512 <= maxBytes < 1000000 * 512 {
      assert 4096 <= maxBytes / 512 <= 1000000;
    }
  }
}
