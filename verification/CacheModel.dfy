/** The answer cache as a plain recency list, most recently used first, and what its TTLs promise. */
module CacheModel {
  import opened Bytes
  import opened Messages

  datatype CacheKey = CacheKey(name: bytes, typ: uint16, clas: uint16)

  /** Times are in milliseconds. */
  datatype Item = Item(key: CacheKey, expire: nat, charge: nat, value: Message)

  /** Sizes of the fixed parts of what is stored; they depend on the compiler. */
  datatype Sizes = Sizes(item: nat, question: nat, rec: nat, cname: nat, ptr: nat, ns: nat, mx: nat, soa: nat,
      https: nat)

  datatype Limits = Limits(maxBytes: nat, maxEntrySize: nat, maxTtl: uint32, sizes: Sizes)

  const MIN_ENTRIES := 4096
  const MAX_ENTRIES := 1000000
  const ASSUMED_ENTRY_BYTES := 512

  /** The entry cap that goes with a byte limit. */
  function EntryCap(maxBytes: nat): (n: nat)
    ensures MIN_ENTRIES <= n <= MAX_ENTRIES
  {
    Max(MIN_ENTRIES, Min(MAX_ENTRIES, maxBytes / ASSUMED_ENTRY_BYTES))
  }

  function MakeKey(name: bytes, typ: uint16, clas: uint16): CacheKey {
    CacheKey(Lower(name), typ, clas)
  }

  // ----- Charges -----

  function RecordSize(z: Sizes, r: Record): nat {
    z.rec + |r.name| + |r.bin| +
    match r.payload
    case CnamePayload(n) => if r.typ == TYPE_CNAME then z.cname + |n| else 0
    case PtrPayload(n) => if r.typ == TYPE_PTR then z.ptr + |n| else 0
    case NsPayload(n) => if r.typ == TYPE_NS then z.ns + |n| else 0
    case MxPayload(_, n) => if r.typ == TYPE_MX then z.mx + |n| else 0
    case SoaPayload(m, n, _, _, _, _, _) => if r.typ == TYPE_SOA then z.soa + |m| + |n| else 0
    case HttpsPayload(_, n, params) => if r.typ == TYPE_HTTPS then z.https + |n| + |params| else 0
    case NoPayload => 0
  }

  function RecordSizes(z: Sizes, rs: seq<Record>): nat {
    if rs == [] then 0 else RecordSize(z, rs[0]) + RecordSizes(z, rs[1..])
  }

  function QuestionSizes(z: Sizes, qs: seq<Question>): nat {
    if qs == [] then 0 else z.question + |qs[0].name| + QuestionSizes(z, qs[1..])
  }

  function MessageSize(z: Sizes, key: CacheKey, value: Message): nat {
    z.item + |key.name| + QuestionSizes(z, value.questions)
    + RecordSizes(z, value.answers) + RecordSizes(z, value.authorities)
  }

  function TotalCharge(items: seq<Item>): nat {
    if items == [] then 0 else TotalCharge(items[..|items| - 1]) + items[|items| - 1].charge
  }

  // ----- What is stored -----

  function Stamp(r: Record, now: nat, expire: nat, maxTtl: uint32): Record {
    r.(deadline := Min(expire, now + Min(r.ttl, maxTtl) * 1000))
  }

  function StampAll(rs: seq<Record>, now: nat, expire: nat, maxTtl: uint32): (r: seq<Record>)
    ensures |r| == |rs|
    ensures forall i :: 0 <= i < |rs| ==> r[i] == Stamp(rs[i], now, expire, maxTtl)
  {
    seq(|rs|, i requires 0 <= i < |rs| => Stamp(rs[i], now, expire, maxTtl))
  }

  /** The entry for a value that is to live `ttl` seconds from now; additional records are not kept. */
  function MakeItem(l: Limits, key: CacheKey, value: Message, ttl: uint32, now: nat): Item {
    var expire := now + Min(ttl, l.maxTtl) * 1000;
    var kept := value.(additionals := [],
                       answers := StampAll(value.answers, now, expire, l.maxTtl),
                       authorities := StampAll(value.authorities, now, expire, l.maxTtl));
    Item(key, expire, MessageSize(l.sizes, key, kept), kept)
  }

  function Rcode(m: Message): uint16 {
    m.header.flags % 0x10
  }

  function FirstSoa(rs: seq<Record>): (r: Option<Record>)
    ensures r.Some? ==> HasSoa(r.value) && r.value in rs
    ensures r.None? ==> forall i :: 0 <= i < |rs| ==> !HasSoa(rs[i])
  {
    if rs == [] then None else if HasSoa(rs[0]) then Some(rs[0]) else FirstSoa(rs[1..])
  }

  function LeastTtl(rs: seq<Record>): uint32 {
    if rs == [] then UINT32_MAX else Min(rs[0].ttl, LeastTtl(rs[1..]))
  }

  predicate IsNegative(m: Message) {
    Rcode(m) == 3 || (Rcode(m) == 0 && m.answers == [])
  }

  /**
    * How long a response may be kept: for a negative one the lesser of the SOA's own TTL and its
    * minimum field (section 5 of RFC 2308), for a positive one the least TTL of its answers, for
    * anything else not at all.
    */
  function Lifetime(m: Message): uint32 {
    var ttl :=
      if IsNegative(m) then
        match FirstSoa(m.authorities)
        case None => 0
        case Some(soa) => Min(soa.ttl, soa.payload.minimum)
      else if Rcode(m) == 0 then LeastTtl(m.answers)
      else 0;
    if ttl == UINT32_MAX then 0 else ttl
  }

  /** Failures are kept between one second and five minutes. */
  function FailureLifetime(ttl: uint32): uint32 {
    Min(300, Max(1, ttl))
  }

  // ----- The recency list -----

  function Without(items: seq<Item>, key: CacheKey): seq<Item> {
    if items == [] then [] else
      if items[0].key == key then Without(items[1..], key) else [items[0]] + Without(items[1..], key)
  }

  function Lookup(items: seq<Item>, key: CacheKey): Option<Item> {
    if items == [] then None else if items[0].key == key then Some(items[0]) else Lookup(items[1..], key)
  }

  predicate Fits(l: Limits, items: seq<Item>, charge: nat) {
    |items| < EntryCap(l.maxBytes) && TotalCharge(items) + charge <= l.maxBytes
  }

  /** The list after dropping from its end until one more entry of this charge fits. */
  function MakeRoom(l: Limits, items: seq<Item>, charge: nat): seq<Item> {
    if items == [] || Fits(l, items, charge) then items else MakeRoom(l, items[..|items| - 1], charge)
  }

  predicate Storable(l: Limits, item: Item) {
    item.charge <= l.maxEntrySize && item.charge <= l.maxBytes
  }

  function Store(l: Limits, items: seq<Item>, item: Item): seq<Item> {
    [item] + MakeRoom(l, Without(items, item.key), item.charge)
  }

  /** What an offered value becomes, if it is taken at all. */
  function Accepted(l: Limits, key: CacheKey, value: Message, ttl: uint32, now: nat): (r: Option<Item>)
    ensures r.Some? ==> r.value.key == key && Storable(l, r.value)
  {
    if ttl == 0 || !Storable(l, MakeItem(l, key, value, ttl, now)) then None
    else Some(MakeItem(l, key, value, ttl, now))
  }

  function StoreIfAccepted(l: Limits, items: seq<Item>, item: Option<Item>): seq<Item> {
    match item
    case None => items
    case Some(it) => Store(l, items, it)
  }

  /** A lookup moves what it finds to the front, or drops it if its time is up. */
  function Touch(items: seq<Item>, key: CacheKey, now: nat): seq<Item> {
    match Lookup(items, key)
    case None => items
    case Some(item) => if now >= item.expire then Without(items, key) else [item] + Without(items, key)
  }

  function Remaining(r: Record, now: nat): Record {
    r.(ttl := if now < r.deadline then (r.deadline - now) / 1000 % 0x1_0000_0000 else 0)
  }

  function RemainingAll(rs: seq<Record>, now: nat): (r: seq<Record>)
    ensures |r| == |rs|
    ensures forall i :: 0 <= i < |rs| ==> r[i] == Remaining(rs[i], now)
  {
    seq(|rs|, i requires 0 <= i < |rs| => Remaining(rs[i], now))
  }

  /** An entry as it is handed out at a given time. */
  function Render(item: Item, now: nat): Option<Message> {
    if now >= item.expire then None
    else Some(item.value.(answers := RemainingAll(item.value.answers, now),
                          authorities := RemainingAll(item.value.authorities, now)))
  }

  function Answer(items: seq<Item>, key: CacheKey, now: nat): Option<Message> {
    match Lookup(items, key)
    case None => None
    case Some(item) => Render(item, now)
  }

  // ----- Runs -----

  datatype Op =
    | Find(key: CacheKey, now: nat)
    | Insert(key: CacheKey, value: Message, now: nat)
    | InsertFailure(key: CacheKey, value: Message, ttl: uint32, now: nat)

  /** The entry an operation puts in the cache, whatever the cache holds. */
  function Offered(l: Limits, op: Op): (r: Option<Item>)
    ensures r.Some? ==> !op.Find? && r.value.key == op.key && Storable(l, r.value)
  {
    match op
    case Find(_, _) => None
    case Insert(key, value, now) => Accepted(l, key, value, Lifetime(value), now)
    case InsertFailure(key, value, ttl, now) => Accepted(l, key, value, FailureLifetime(ttl), now)
  }

  function Apply(l: Limits, items: seq<Item>, op: Op): seq<Item> {
    if op.Find? then Touch(items, op.key, op.now) else StoreIfAccepted(l, items, Offered(l, op))
  }

  /** The list after a history of operations on an empty cache. */
  function Run(l: Limits, ops: seq<Op>): seq<Item> {
    if ops == [] then [] else Apply(l, Run(l, ops[..|ops| - 1]), ops[|ops| - 1])
  }

  /** The entry most recently accepted for a key, read off the history alone. */
  function LastAccepted(l: Limits, ops: seq<Op>, key: CacheKey): (r: Option<Item>)
    ensures r.Some? ==> r.value.key == key
  {
    if ops == [] then None else
      var op := ops[|ops| - 1];
      if op.key == key && Offered(l, op).Some? then Offered(l, op) else LastAccepted(l, ops[..|ops| - 1], key)
  }

  /** An operation uses a key when it looks it up or stores something under it. */
  predicate Uses(l: Limits, op: Op, key: CacheKey) {
    op.key == key && (op.Find? || Offered(l, op).Some?)
  }

  /** The position in the history of the last use of a key. */
  function LastUse(l: Limits, ops: seq<Op>, key: CacheKey): (n: int)
    ensures -1 <= n < |ops|
  {
    if ops == [] then -1 else
      if Uses(l, ops[|ops| - 1], key) then |ops| - 1 else LastUse(l, ops[..|ops| - 1], key)
  }
}
