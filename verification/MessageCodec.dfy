/** Whole messages on the wire: what make_dns_packet writes and what parse_dns_message accepts. */
module MessageCodec {
  import opened Bytes
  import opened Names
  import opened NameCodec
  import opened Messages
  import opened RecordCodec

  const HEADER_SIZE := 12
  const FLAG_TC := 0x0200

  // ----- Writing -----

  /** A record together with the owner name it will be written under. */
  datatype Item = Item(owner: bytes, rec: Record)

  function Clamp<T>(s: seq<T>): (r: seq<T>)
    ensures |r| == Min(|s|, MAX_SECTION_COUNT) && r <= s
  {
    if |s| > MAX_SECTION_COUNT then s[..MAX_SECTION_COUNT] else s
  }

  function Count<T>(s: seq<T>): uint16 {
    Min(|s|, MAX_SECTION_COUNT)
  }

  function FirstQuestionName(msg: Message): bytes {
    if msg.questions == [] then [] else msg.questions[0].name
  }

  /** Owners equal to the question take its spelling; the others are written in lower case. */
  function Spelling(question: bytes, owner: bytes): bytes {
    if SameIgnoringCase(question, owner) then question else Lower(owner)
  }

  function ItemFor(question: bytes, additional: bool, r: Record): Item {
    Item(if additional && r.typ == TYPE_OPT then [] else Spelling(question, r.name), r)
  }

  function ItemsFor(question: bytes, additional: bool, rs: seq<Record>): (items: seq<Item>)
    ensures |items| == |rs|
    ensures forall i :: 0 <= i < |rs| ==> items[i] == ItemFor(question, additional, rs[i])
  {
    seq(|rs|, i requires 0 <= i < |rs| => ItemFor(question, additional, rs[i]))
  }

  function Answers(msg: Message): seq<Item> {
    ItemsFor(FirstQuestionName(msg), false, Clamp(msg.answers))
  }

  function Authorities(msg: Message): seq<Item> {
    ItemsFor(FirstQuestionName(msg), false, Clamp(msg.authorities))
  }

  function Additionals(msg: Message): seq<Item> {
    ItemsFor(FirstQuestionName(msg), true, Clamp(msg.additionals))
  }

  /** Everything after the questions, in the order in which it is written. */
  function Items(msg: Message): seq<Item> {
    Answers(msg) + Authorities(msg) + Additionals(msg)
  }

  function HeaderBytes(h: Header): (b: bytes)
    ensures |b| == HEADER_SIZE
  {
    U16(h.id) + U16(h.flags) + U16(h.qdcount) + U16(h.ancount) + U16(h.nscount) + U16(h.arcount)
  }

  function CountedHeader(msg: Message): Header {
    Header(msg.header.id, msg.header.flags, Count(msg.questions), Count(msg.answers),
           Count(msg.authorities), Count(msg.additionals))
  }

  /** A question whose name has no wire form leaves only its type and class behind. */
  function EncodeQuestion(at: int, names: Offsets, q: Question): Written {
    var n := if Encodable(q.name) then EncodeName(at, names, q.name) else Written([], names);
    Written(n.bytes + (U16(q.typ) + U16(q.clas)), n.names)
  }

  function EncodeQuestions(at: int, names: Offsets, qs: seq<Question>): Written
    decreases |qs|
  {
    if qs == [] then Written([], names) else
      var q := EncodeQuestion(at, names, qs[0]);
      var rest := EncodeQuestions(at + |q.bytes|, q.names, qs[1..]);
      Written(q.bytes + rest.bytes, rest.names)
  }

  function EncodeItems(at: int, names: Offsets, items: seq<Item>): Option<Written>
    decreases |items|
  {
    if items == [] then Some(Written([], names)) else
      match EncodeRecord(at, names, items[0].owner, items[0].rec)
      case None => None
      case Some(r) =>
        match EncodeItems(at + |r.bytes|, r.names, items[1..])
        case None => None
        case Some(rest) => Some(Written(r.bytes + rest.bytes, rest.names))
  }

  function QuestionPart(msg: Message): Written {
    EncodeQuestions(HEADER_SIZE, map[], msg.questions)
  }

  function ItemPart(msg: Message): Option<Written> {
    EncodeItems(HEADER_SIZE + |QuestionPart(msg).bytes|, QuestionPart(msg).names, Items(msg))
  }

  function EncodeMessage(msg: Message): Option<bytes> {
    match ItemPart(msg)
    case None => None
    case Some(w) => Some(HeaderBytes(CountedHeader(msg)) + QuestionPart(msg).bytes + w.bytes)
  }

  // ----- Truncation -----

  function WithTc(flags: uint16): uint16 {
    if flags / FLAG_TC % 2 == 1 then flags else flags + FLAG_TC
  }

  /** How many whole items fit when the message may not exceed `limit` octets. */
  function Fitting(at: int, names: Offsets, items: seq<Item>, limit: int): (k: nat)
    ensures k <= |items|
    decreases |items|
  {
    if items == [] then 0 else
      match EncodeRecord(at, names, items[0].owner, items[0].rec)
      case None => 0
      case Some(r) =>
        if at + |r.bytes| > limit then 0
        else 1 + Fitting(at + |r.bytes|, r.names, items[1..], limit)
  }

  function FittingItems(msg: Message, limit: int): (k: nat)
    ensures k <= |Items(msg)|
  {
    Fitting(HEADER_SIZE + |QuestionPart(msg).bytes|, QuestionPart(msg).names, Items(msg), limit)
  }

  function Take<T>(s: seq<T>, n: int): seq<T> {
    if n <= 0 then [] else if n >= |s| then s else s[..n]
  }

  /** The message with only its first k records, flagged as truncated. */
  function Shorten(msg: Message, k: nat): Message {
    var an, ns, ar := Clamp(msg.answers), Clamp(msg.authorities), Clamp(msg.additionals);
    Message(msg.header.(flags := WithTc(msg.header.flags)), msg.questions,
            Take(an, k), Take(ns, k - |an|), Take(ar, k - |an| - |ns|))
  }

  /** The packet handed to the socket: framed for TCP, cut at a record boundary for UDP. */
  function PacketFor(msg: Message, tcp: bool, udpLimit: uint16): Option<bytes> {
    match EncodeMessage(msg)
    case None => None
    case Some(whole) =>
      if tcp then
        if |whole| > UINT16_MAX then None else Some(U16(|whole|) + whole)
      else
        var limit := Max(512, udpLimit);
        if |whole| <= limit then Some(whole) else EncodeMessage(Shorten(msg, FittingItems(msg, limit)))
  }

  // ----- Reading -----

  datatype ParsedQuestion = ParsedQuestion(q: Question, next: nat)
  datatype ParsedSection<T> = ParsedSection(entries: seq<T>, next: nat, seenOpt: bool)

  function ParseQuestion(buf: bytes, p: nat): (r: Option<ParsedQuestion>)
    ensures r.Some? ==> p < r.value.next <= |buf|
  {
    match DecodeName(buf, p)
    case None => None
    case Some(d) =>
      DecodeNameBounds(buf, p);
      var f := p + d.consumed;
      if |buf| - f < 4 then None
      else Some(ParsedQuestion(Question(d.name, ReadU16(buf, f), ReadU16(buf, f + 2)), f + 4))
  }

  function ParseQuestions(buf: bytes, p: nat, count: nat): (r: Option<ParsedSection<Question>>)
    requires p <= |buf|
    ensures r.Some? ==> |r.value.entries| == count && p <= r.value.next <= |buf|
    decreases count
  {
    if count == 0 then Some(ParsedSection([], p, false)) else
      match ParseQuestion(buf, p)
      case None => None
      case Some(first) =>
        match ParseQuestions(buf, first.next, count - 1)
        case None => None
        case Some(rest) => Some(ParsedSection([first.q] + rest.entries, rest.next, false))
  }

  function ParseRecords(buf: bytes, p: nat, count: nat, additional: bool,
                        seenOpt: bool): (r: Option<ParsedSection<Record>>)
    requires p <= |buf|
    ensures r.Some? ==> |r.value.entries| == count && p <= r.value.next <= |buf|
    decreases count
  {
    if count == 0 then Some(ParsedSection([], p, seenOpt)) else
      match ParseRecord(buf, p, additional, seenOpt)
      case None => None
      case Some(first) =>
        match ParseRecords(buf, first.next, count - 1, additional, first.seenOpt)
        case None => None
        case Some(rest) => Some(ParsedSection([first.rec] + rest.entries, rest.next, rest.seenOpt))
  }

  function ReadHeader(buf: bytes): Header
    requires |buf| >= HEADER_SIZE
  {
    Header(ReadU16(buf, 0), ReadU16(buf, 2), ReadU16(buf, 4), ReadU16(buf, 6), ReadU16(buf, 8), ReadU16(buf, 10))
  }

  predicate CountsAllowed(h: Header) {
    && h.qdcount <= MAX_SECTION_COUNT && h.ancount <= MAX_SECTION_COUNT
    && h.nscount <= MAX_SECTION_COUNT && h.arcount <= MAX_SECTION_COUNT
  }

  function ParseMessage(buf: bytes): Option<Message> {
    if |buf| < HEADER_SIZE || !CountsAllowed(ReadHeader(buf)) then None else
      var h := ReadHeader(buf);
      match ParseQuestions(buf, HEADER_SIZE, h.qdcount)
      case None => None
      case Some(qd) =>
        match ParseRecords(buf, qd.next, h.ancount, false, false)
        case None => None
        case Some(an) =>
          match ParseRecords(buf, an.next, h.nscount, false, an.seenOpt)
          case None => None
          case Some(ns) =>
            match ParseRecords(buf, ns.next, h.arcount, true, ns.seenOpt)
            case None => None
            case Some(ar) =>
              if ar.next == |buf| then Some(Message(h, qd.entries, an.entries, ns.entries, ar.entries)) else None
  }
}
