/** DNS messages as the program holds them in memory (section 4.1 of RFC 1035). */
module Messages {
  import opened Bytes

  const TYPE_A: uint16 := 1
  const TYPE_NS: uint16 := 2
  const TYPE_CNAME: uint16 := 5
  const TYPE_SOA: uint16 := 6
  const TYPE_PTR: uint16 := 12
  const TYPE_MX: uint16 := 15
  const TYPE_TXT: uint16 := 16
  const TYPE_AAAA: uint16 := 28
  const TYPE_OPT: uint16 := 41
  const TYPE_HTTPS: uint16 := 65

  const MAX_SECTION_COUNT := 100

  datatype Header = Header(id: uint16, flags: uint16,
                           qdcount: uint16, ancount: uint16, nscount: uint16, arcount: uint16)

  datatype Question = Question(name: bytes, typ: uint16, clas: uint16)

  /** What the shared pointer of a record can hold; which of them is meant depends on the type. */
  datatype Payload =
    | NoPayload
    | CnamePayload(cname: bytes)
    | PtrPayload(ptr: bytes)
    | NsPayload(nsname: bytes)
    | MxPayload(preference: uint16, exchange: bytes)
    | SoaPayload(nname: bytes, rname: bytes, serial: uint32, refresh: uint32, retry: uint32,
                 expire: uint32, minimum: uint32)
    | HttpsPayload(priority: uint16, target: bytes, params: bytes)

  /** `deadline` is only used by the cache; `cacheable` says the raw data holds no compression pointer. */
  datatype Record = Record(name: bytes, typ: uint16, clas: uint16, ttl: uint32,
                           bin: bytes, payload: Payload, cacheable: bool, deadline: nat)

  datatype Message = Message(header: Header, questions: seq<Question>, answers: seq<Record>,
                             authorities: seq<Record>, additionals: seq<Record>)

  /** The SOA payload is visible only through a record of type SOA. */
  predicate HasSoa(r: Record) {
    r.typ == TYPE_SOA && r.payload.SoaPayload?
  }
}
