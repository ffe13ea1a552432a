/** Cutting a packet to size is the same as writing a shorter message. */
module Truncation {
  import opened Bytes
  import opened Names
  import opened NameCodec
  import opened Messages
  import opened RecordCodec
  import opened MessageCodec
  import opened MessageRoundTrip

  /** The first k items encode to a prefix of what all of them encode to. */
  lemma {:induction false} ItemPrefixEncodes(at: int, names: Offsets, items: seq<Item>, k: nat)
    requires k <= |items| && EncodeItems(at, names, items).Some?
    ensures EncodeItems(at, names, items[..k]).Some?
    ensures EncodeItems(at, names, items[..k]).value.bytes <= EncodeItems(at, names, items).value.bytes
  {
    assert items[..k] + items[k..] == items;
    EncodeItemsAppends(at, names, items[..k], items[k..]);
  }

  /** The octets of the first k items. */
  function PrefixSize(at: int, names: Offsets, items: seq<Item>, k: nat): nat
    requires k <= |items| && EncodeItems(at, names, items).Some?
  {
    ItemPrefixEncodes(at, names, items, k);
    |EncodeItems(at, names, items[..k]).value.bytes|
  }

  /** Fitting is greedy: what it keeps fits, and the next item, if any, would not. */
  lemma {:induction false} FittingIsMaximal(at: int, names: Offsets, items: seq<Item>, limit: int)
    requires EncodeItems(at, names, items).Some?
    ensures var k := Fitting(at, names, items, limit);
      && (k > 0 ==> at + PrefixSize(at, names, items, k) <= limit)
      && (k < |items| ==> at + PrefixSize(at, names, items, k + 1) > limit)
    decreases |items|
  {
    hide EncodeRecord, EncodeItems, PrefixSize;
    if items != [] {
      FirstItemSize(at, names, items, 0);
      var r := EncodeRecord(at, names, items[0].owner, items[0].rec).value;
      var tail := items[1..];
      var next := at + |r.bytes|;
      FittingIsMaximal(next, r.names, tail, limit);
      NoItemsNoSize(next, r.names, tail);
      var k := Fitting(next, r.names, tail, limit);
      FirstItemSize(at, names, items, k);
      if k < |tail| { FirstItemSize(at, names, items, k + 1); }
    }
  }

  lemma {:induction false} NoItemsNoSize(at: int, names: Offsets, items: seq<Item>)
    requires EncodeItems(at, names, items).Some?
    ensures PrefixSize(at, names, items, 0) == 0
  {
  }

  lemma {:induction false} FirstItemSize(at: int, names: Offsets, items: seq<Item>, k: nat)
    requires k < |items| && EncodeItems(at, names, items).Some?
    ensures var r := EncodeRecord(at, names, items[0].owner, items[0].rec);
      && r.Some?
      && EncodeItems(at + |r.value.bytes|, r.value.names, items[1..]).Some?
      && PrefixSize(at, names, items, k + 1) ==
         |r.value.bytes| + PrefixSize(at + |r.value.bytes|, r.value.names, items[1..], k)
  {
    hide EncodeRecord;
    assert items[..k + 1][1..] == items[1..][..k];
    assert items[..k + 1][0] == items[0];
    ItemPrefixEncodes(at, names, items, k + 1);
  }

  lemma {:induction false} TakeAcross<T>(a: seq<T>, b: seq<T>, c: seq<T>, k: nat)
    requires k <= |a + b + c|
    ensures (a + b + c)[..k] == Take(a, k) + Take(b, k - |a|) + Take(c, k - |a| - |b|)
  {
  }

  lemma {:induction false} TakeItems(question: bytes, additional: bool, rs: seq<Record>, n: int)
    ensures ItemsFor(question, additional, Take(rs, n)) == Take(ItemsFor(question, additional, rs), n)
  {
  }

  lemma {:induction false} TakeIsClamped<T>(s: seq<T>, n: int)
    ensures Clamp(Take(Clamp(s), n)) == Take(Clamp(s), n)
  {
  }

  /** The sections of a shortened message. */
  lemma {:induction false} ShortenedSections(msg: Message, k: nat)
    ensures var an, ns := |Answers(msg)|, |Authorities(msg)|;
      && Answers(Shorten(msg, k)) == Take(Answers(msg), k)
      && Authorities(Shorten(msg, k)) == Take(Authorities(msg), k - an)
      && Additionals(Shorten(msg, k)) == Take(Additionals(msg), k - an - ns)
  {
    hide ItemsFor, Clamp, Take;
    var q := FirstQuestionName(msg);
    var an, ns, ar := Clamp(msg.answers), Clamp(msg.authorities), Clamp(msg.additionals);
    TakeIsClamped(msg.answers, k);
    TakeIsClamped(msg.authorities, k - |an|);
    TakeIsClamped(msg.additionals, k - |an| - |ns|);
    TakeItems(q, false, an, k);
    TakeItems(q, false, ns, k - |an|);
    TakeItems(q, true, ar, k - |an| - |ns|);
  }

  lemma {:induction false} ShortenKeepsRules(msg: Message, k: nat)
    requires RoundTrippable(msg)
    ensures RoundTrippable(Shorten(msg, k))
  {
    hide Clamp, Take, NoOpt, OneOptAtMost, Encodable;
    var an, ns, ar := Clamp(msg.answers), Clamp(msg.authorities), Clamp(msg.additionals);
    TakeIsClamped(msg.answers, k);
    TakeIsClamped(msg.authorities, k - |an|);
    TakeIsClamped(msg.additionals, k - |an| - |ns|);
    TakeKeepsOpts(an, k);
    TakeKeepsOpts(ns, k - |an|);
    TakeKeepsOpts(ar, k - |an| - |ns|);
  }

  /** Keeping k records of a message keeps exactly the first k items it would write. */
  lemma {:induction false} ShortenKeepsItems(msg: Message, k: nat)
    requires k <= |Items(msg)|
    ensures Items(Shorten(msg, k)) == Items(msg)[..k]
    ensures QuestionPart(Shorten(msg, k)) == QuestionPart(msg)
  {
    hide Answers, Authorities, Additionals, EncodeQuestions, Take;
    ShortenedSections(msg, k);
    TakeAcross(Answers(msg), Authorities(msg), Additionals(msg), k);
  }

  lemma {:induction false} TakeKeepsOpts(rs: seq<Record>, n: int)
    ensures NoOpt(rs) ==> NoOpt(Take(rs, n))
    ensures OneOptAtMost(rs) ==> OneOptAtMost(Take(rs, n))
  {
  }

  /** What is left of a message's encoding when only k items are kept and the header is rewritten. */
  lemma {:induction false} CutIsShorterMessage(msg: Message, k: nat)
    requires EncodeMessage(msg).Some? && k <= |Items(msg)|
    ensures EncodeMessage(Shorten(msg, k)).Some?
    ensures var q := QuestionPart(msg);
      var whole, cut := EncodeMessage(msg).value, EncodeMessage(Shorten(msg, k)).value;
      var size := HEADER_SIZE + |q.bytes| + PrefixSize(HEADER_SIZE + |q.bytes|, q.names, Items(msg), k);
      size <= |whole| && cut == HeaderBytes(CountedHeader(Shorten(msg, k))) + whole[HEADER_SIZE..size]
  {
    hide EncodeItems, HeaderBytes, QuestionPart, Items, Shorten, CountedHeader;
    var q, items := QuestionPart(msg), Items(msg);
    var at := HEADER_SIZE + |q.bytes|;
    ShortenKeepsItems(msg, k);
    ItemPrefixEncodes(at, q.names, items, k);
    var head, all, kept := HeaderBytes(CountedHeader(msg)),
      EncodeItems(at, q.names, items).value.bytes, EncodeItems(at, q.names, items[..k]).value.bytes;
    var whole := head + q.bytes + all;
    var size := at + |kept|;
    assert whole[HEADER_SIZE..size] == q.bytes + kept;
    Concat(HeaderBytes(CountedHeader(Shorten(msg, k))), q.bytes, kept);
  }

  /**
    * A UDP packet that had to be cut is a complete message of its own: the same questions, a prefix
    * of the records with every compression pointer intact, the truncation flag and matching counts.
    */
  lemma {:induction false} TruncationKeepsMeaning(msg: Message, udpLimit: uint16)
    requires EncodeMessage(msg).Some? && |EncodeMessage(msg).value| > Max(512, udpLimit)
    ensures var k := FittingItems(msg, Max(512, udpLimit));
      var short := Shorten(msg, k);
      var whole, cut := EncodeMessage(msg).value, PacketFor(msg, false, udpLimit);
      && cut.Some? && HEADER_SIZE <= |cut.value| <= |whole|
      && cut.value[HEADER_SIZE..] == whole[HEADER_SIZE..|cut.value|]
      && short.questions == msg.questions && Items(short) == Items(msg)[..k]
      && short.header.flags / FLAG_TC % 2 == 1
      && EncodeMessage(short) == cut
      && (RoundTrippable(msg) ==> ParseMessage(cut.value) == Some(CanonMessage(short)))
  {
    hide EncodeItems, EncodeMessage, HeaderBytes, Items, RoundTrippable, CanonMessage, ParseMessage,
         PrefixSize, QuestionPart, Clamp, Take;
    var k := FittingItems(msg, Max(512, udpLimit));
    EncodedItems(msg);
    ShortenKeepsItems(msg, k);
    CutIsShorterMessage(msg, k);
    if RoundTrippable(msg) {
      ShortenKeepsRules(msg, k);
      RoundTrip(Shorten(msg, k));
    }
  }

  /** With at most one question the cut packet respects the limit, and one more record would not. */
  lemma {:induction false} TruncationIsTight(msg: Message, udpLimit: uint16)
    requires EncodeMessage(msg).Some? && |EncodeMessage(msg).value| > Max(512, udpLimit)
    ensures var limit := Max(512, udpLimit);
      var k := FittingItems(msg, limit);
      var cut := PacketFor(msg, false, udpLimit);
      && cut.Some?
      && (|msg.questions| <= 1 ==> |cut.value| <= limit)
      && (k < |Items(msg)| ==>
            EncodeMessage(Shorten(msg, k + 1)).Some? && |EncodeMessage(Shorten(msg, k + 1)).value| > limit)
  {
    hide EncodeItems, EncodeMessage, Items, PrefixSize, QuestionPart, Shorten, FittingItems;
    var limit := Max(512, udpLimit);
    var k := FittingItems(msg, limit);
    CutSize(msg, k);
    FittingSizes(msg, limit);
    if k < |Items(msg)| { CutSize(msg, k + 1); }
    if |msg.questions| <= 1 { OneQuestionFits(msg); }
  }

  /** The size of a message with only its first k records. */
  function SizeWith(msg: Message, k: nat): nat
    requires EncodeMessage(msg).Some? && k <= |Items(msg)|
  {
    var q := QuestionPart(msg);
    EncodedItems(msg);
    HEADER_SIZE + |q.bytes| + PrefixSize(HEADER_SIZE + |q.bytes|, q.names, Items(msg), k)
  }

  lemma {:induction false} CutSize(msg: Message, k: nat)
    requires EncodeMessage(msg).Some? && k <= |Items(msg)|
    ensures EncodeMessage(Shorten(msg, k)).Some? && |EncodeMessage(Shorten(msg, k)).value| == SizeWith(msg, k)
  {
    hide EncodeItems, EncodeMessage, Items, PrefixSize, QuestionPart, Shorten, CountedHeader;
    EncodedItems(msg);
    CutIsShorterMessage(msg, k);
  }

  /** The records that fit, if any, leave the message within the limit; one more would not. */
  lemma {:induction false} FittingSizes(msg: Message, limit: int)
    requires EncodeMessage(msg).Some?
    ensures var k := FittingItems(msg, limit);
      && (k > 0 ==> SizeWith(msg, k) <= limit)
      && (k == 0 ==> SizeWith(msg, k) == HEADER_SIZE + |QuestionPart(msg).bytes|)
      && (k < |Items(msg)| ==> SizeWith(msg, k + 1) > limit)
  {
    hide EncodeItems, EncodeMessage, Items, PrefixSize, QuestionPart;
    var q, items := QuestionPart(msg), Items(msg);
    var at := HEADER_SIZE + |q.bytes|;
    EncodedItems(msg);
    FittingIsMaximal(at, q.names, items, limit);
    NoItemsNoSize(at, q.names, items);
  }

  lemma {:induction false} EncodedItems(msg: Message)
    requires EncodeMessage(msg).Some?
    ensures var q := QuestionPart(msg);
      EncodeItems(HEADER_SIZE + |q.bytes|, q.names, Items(msg)).Some?
  {
  }

  lemma {:induction false} OneQuestionFits(msg: Message)
    requires |msg.questions| <= 1
    ensures HEADER_SIZE + |QuestionPart(msg).bytes| <= 512
  {
    hide EncodeName, Labelled;
    if msg.questions != [] {
      var q := EncodeQuestion(HEADER_SIZE, map[], msg.questions[0]);
      assert |q.bytes| <= 259;
      assert msg.questions[1..] == [];
      assert EncodeQuestions(HEADER_SIZE + |q.bytes|, q.names, msg.questions[1..]).bytes == [];
    }
  }
}
