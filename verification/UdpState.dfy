/**
  * The UDP side of the forwarder as a state machine: fan-out, coalescing, EDNS retry, retirement.
  * Shared objects of the program are numbered; a transaction's coalescing entry carries the
  * transaction's own number, which the program never hands out twice.
  */
module UdpState {
  import opened Bytes
  import opened Messages
  import opened CoalescingKeys
  import opened Txids

  const MAX_WAITERS_PER_QUERY := 200
  const CHANNELS_PER_FORWARDER := 4

  datatype Config = Config(maxTasks: nat, fanout: nat, timeoutMs: nat)

  datatype Endpoint = Endpoint(address: nat, port: nat)

  /** One upstream query in flight, or once in flight. */
  datatype Query = Query(local: nat, upstreamId: uint16, fd: nat, endpoint: Endpoint, typ: uint16, clas: uint16,
                         requestName: bytes, forwardName: bytes, usedEdns: bool, timestamp: nat)

  /** `ticket` numbers the client query this waiter stands for. */
  datatype Waiter = Waiter(ticket: nat, requesterId: uint16, requestName: bytes)

  datatype Pending = Pending(key: bytes, waiters: seq<Waiter>)

  datatype Channel = Channel(endpoint: Endpoint, active: nat)

  /** What a client asked, by ticket, and what was put on the wire for a ticket. */
  datatype Asked = Asked(id: uint16, question: Question)
  datatype Reply = Reply(ticket: nat, id: uint16, question: Question, sent: bool)

  type Registration = (nat, nat)
  type SocketKey = (nat, uint16)

  /** `lineup` lists the sockets of the channels in the order in which they were opened. */
  datatype State = State(
    queries: map<nat, Query>,
    byLocal: multiset<Registration>,
    bySocket: multiset<(SocketKey, nat)>,
    pendings: map<nat, Pending>,
    pendingUdp: map<bytes, nat>,
    channels: map<nat, Channel>,
    lineup: seq<nat>,
    txids: map<Txid, nat>,
    nextLocal: nat,
    nextQuery: nat,
    tcpTasks: nat,
    clock: nat,
    asked: seq<Asked>,
    log: seq<Reply>)

  const INITIAL := State(map[], multiset{}, multiset{}, map[], map[], map[], [], map[], 0, 0, 0, 0, [], [])

  // ----- Reading the tables -----

  function KeyOf(q: Query): SocketKey {
    (q.fd, q.upstreamId)
  }

  function TxidOf(q: Query): Txid {
    Txid(q.endpoint.address, q.upstreamId)
  }

  /** The queries still registered: is_udp_query_active. */
  function Live(st: State): set<nat> {
    set q | q in st.queries && (st.queries[q].local, q) in st.byLocal
  }

  function Siblings(st: State, local: nat): set<nat> {
    set q | q in Live(st) && st.queries[q].local == local
  }

  /** The registrations of one transaction: equal_range over the local table. */
  function Registered(queries: map<nat, Query>, byLocal: multiset<Registration>, local: nat): set<nat> {
    set q | q in queries && (local, q) in byLocal && queries[q].local == local
  }

  predicate HasSibling(queries: map<nat, Query>, live: set<nat>, local: nat) {
    exists q :: q in live && q in queries && queries[q].local == local
  }

  function OnChannel(queries: map<nat, Query>, live: set<nat>, fd: nat): set<nat> {
    set q | q in live && q in queries && queries[q].fd == fd
  }

  function LocalEntries(queries: map<nat, Query>, live: set<nat>): set<Registration> {
    set q | q in live && q in queries :: (queries[q].local, q)
  }

  function SocketEntries(queries: map<nat, Query>, live: set<nat>): set<(SocketKey, nat)> {
    set q | q in live && q in queries :: (KeyOf(queries[q]), q)
  }

  function TaskCount(st: State): nat {
    st.tcpTasks + |st.byLocal|
  }

  /** Erases one registration, found by key and identity. */
  function Unlist<K(==)>(table: multiset<(K, nat)>, entry: (K, nat)): multiset<(K, nat)> {
    table - multiset{entry}
  }

  function Enlist<K(==)>(table: multiset<(K, nat)>, entry: (K, nat)): multiset<(K, nat)> {
    table + multiset{entry}
  }

  function WithoutEntry(entries: map<bytes, nat>, key: bytes): map<bytes, nat> {
    entries - {key}
  }

  /** udp_queries_by_local_txid.count(local) != 0. */
  predicate AnyRegistered(byLocal: multiset<Registration>, local: nat) {
    exists x :: x in byLocal && x.0 == local
  }

  function TxidsOf(queries: map<nat, Query>, qs: set<nat>): set<Txid> {
    set q | q in qs && q in queries :: TxidOf(queries[q])
  }

  // ----- Retiring -----

  /**
    * The state once the queries in `done` are retired: both tables list exactly the others, every
    * channel counts the others it carries, and a coalescing entry survives just while one of the
    * others belongs to it.
    */
  function Finish(st: State, done: set<nat>): State {
    var live := Live(st) - done;
    st.(byLocal := multiset(LocalEntries(st.queries, live)),
        bySocket := multiset(SocketEntries(st.queries, live)),
        channels := map fd | fd in st.channels :: st.channels[fd].(active := |OnChannel(st.queries, live, fd)|),
        pendingUdp := map k | k in st.pendingUdp && HasSibling(st.queries, live, st.pendingUdp[k]) :: st.pendingUdp[k],
        txids := st.txids - TxidsOf(st.queries, done))
  }

  // ----- Forwarding -----

  /**
    * The environment's part in one forward_udp: what opening a socket comes to, should one be opened,
    * the random draws, and whether the send worked.
    */
  datatype Attempt = Attempt(endpoint: Endpoint, socket: Option<nat>, flips: seq<bool>, draws: seq<uint16>, sent: bool)

  predicate Serves(channels: map<nat, Channel>, fd: nat, endpoint: Endpoint) {
    fd in channels && channels[fd].endpoint == endpoint
  }

  /** How many of the channels in line serve this endpoint. */
  function Serving(channels: map<nat, Channel>, lineup: seq<nat>, endpoint: Endpoint): nat {
    if lineup == [] then 0 else
      var last := |lineup| - 1;
      Serving(channels, lineup[..last], endpoint) + if Serves(channels, lineup[last], endpoint) then 1 else 0
  }

  /** choose_udp_channel: each in line replaces the best so far only if it is strictly less active. */
  function LeastActive(channels: map<nat, Channel>, lineup: seq<nat>, endpoint: Endpoint): (fd: Option<nat>)
    ensures fd.Some? ==> Serves(channels, fd.value, endpoint)
  {
    if lineup == [] then None else
      var last := |lineup| - 1;
      var best := LeastActive(channels, lineup[..last], endpoint);
      if Serves(channels, lineup[last], endpoint) &&
         (best.None? || channels[lineup[last]].active < channels[best.value].active)
      then Some(lineup[last]) else best
  }

  datatype Chosen = Chosen(fd: nat, channels: map<nat, Channel>, lineup: seq<nat>)

  /** get_or_create_udp_channel: a new socket below four, the least active channel from then on. */
  function UseChannel(channels: map<nat, Channel>, lineup: seq<nat>, endpoint: Endpoint,
                      socket: Option<nat>): (c: Option<Chosen>)
    ensures c.Some? ==> Serves(c.value.channels, c.value.fd, endpoint)
  {
    if Serving(channels, lineup, endpoint) >= CHANNELS_PER_FORWARDER then
      match LeastActive(channels, lineup, endpoint)
      case None => None
      case Some(fd) => Some(Chosen(fd, channels, lineup))
    else if socket.None? || socket.value in channels then None
    else Some(Chosen(socket.value, channels[socket.value := Channel(endpoint, 0)], lineup + [socket.value]))
  }

  function Register(st: State, q: Query): State
    requires q.fd in st.channels
  {
    var id, ch := st.nextQuery, st.channels[q.fd];
    st.(queries := st.queries[id := q],
        nextQuery := id + 1,
        byLocal := Enlist(st.byLocal, (q.local, id)),
        bySocket := Enlist(st.bySocket, (KeyOf(q), id)),
        channels := st.channels[q.fd := ch.(active := ch.active + 1)])
  }

  function Forward(st: State, cfg: Config, local: nat, question: Question, a: Attempt): State {
    if TaskCount(st) >= cfg.maxTasks then st else
      match UseChannel(st.channels, st.lineup, a.endpoint, a.socket)
      case None => st
      case Some(c) =>
        var prepared := st.(channels := c.channels, lineup := c.lineup);
        match FirstFree(prepared.txids, a.endpoint.address, a.draws)
        case None => prepared
        case Some(id) =>
          var ready := prepared.(txids := prepared.txids[Txid(a.endpoint.address, id) := st.clock]);
          if !a.sent then ready
          else Register(ready, Query(local, id, c.fd, a.endpoint, question.typ, question.clas,
                                     question.name, RandomizeCase(question.name, a.flips), true, st.clock))
  }

  function ForwardAll(st: State, cfg: Config, local: nat, question: Question, attempts: seq<Attempt>): State
    decreases |attempts|
  {
    if attempts == [] then st
    else ForwardAll(Forward(st, cfg, local, question, attempts[0]), cfg, local, question, attempts[1..])
  }

  // ----- Client queries -----

  /** When the server is half full each query goes to one forwarder only. */
  function Usable(st: State, cfg: Config, attempts: seq<Attempt>): seq<Attempt> {
    var n := if TaskCount(st) < cfg.maxTasks / 2 then cfg.fanout else 1;
    if |attempts| > n then attempts[..n] else attempts
  }

  function Refuse(st: State, ticket: nat, id: uint16, question: Question, sent: bool): State {
    st.(log := st.log + [Reply(ticket, id, question, sent)])
  }

  /** A new transaction with its first waiter, dropped again if no forwarder could be reached. */
  function Open(s: State, cfg: Config, waiter: Waiter, question: Question, usable: seq<Attempt>,
                refusalSent: bool): State {
    var local, key := s.nextLocal, PendingKey(question);
    var prepared := s.(nextLocal := local + 1,
                       pendings := s.pendings[local := Pending(key, [waiter])],
                       pendingUdp := s.pendingUdp[key := local]);
    var sent := ForwardAll(prepared, cfg, local, question, usable);
    if Siblings(sent, local) != {} then sent
    else Refuse(sent.(pendingUdp := WithoutEntry(sent.pendingUdp, key)), waiter.ticket, waiter.requesterId, question,
        refusalSent)
  }

  /** process_query_udp, for a question that could not be answered locally. */
  function Ask(st: State, cfg: Config, id: uint16, question: Question, attempts: seq<Attempt>,
               refusalSent: bool): State {
    var ticket, key := |st.asked|, PendingKey(question);
    var waiter := Waiter(ticket, id, question.name);
    var s := st.(asked := st.asked + [Asked(id, question)]);
    var usable := Usable(st, cfg, attempts);
    if usable == [] then Refuse(s, ticket, id, question, refusalSent)
    else if key in s.pendingUdp && s.pendingUdp[key] in s.pendings then
      var p := s.pendingUdp[key];
      var pending := s.pendings[p];
      if |pending.waiters| >= MAX_WAITERS_PER_QUERY then Refuse(s, ticket, id, question, refusalSent)
      else s.(pendings := s.pendings[p := pending.(waiters := pending.waiters + [waiter])])
    else Open(s, cfg, waiter, question, usable, refusalSent)
  }

  // ----- Upstream replies -----

  datatype Upstream = Upstream(id: uint16, flags: uint16, questions: seq<Question>)

  function Rcode(flags: uint16): uint16 {
    flags % 0x10
  }

  /** A response, of opcode QUERY, to exactly the question that was sent, spelled as it was sent. */
  predicate Matches(q: Query, msg: Upstream) {
    && msg.id == q.upstreamId
    && msg.flags / 0x8000 % 2 == 1 && msg.flags / 0x800 % 0x10 == 0
    && msg.questions == [Question(q.forwardName, q.typ, q.clas)]
  }

  /** The replies of one transaction, one per waiter in order. */
  function RepliesTo(waiters: seq<Waiter>, typ: uint16, clas: uint16, sends: seq<bool>): (rs: seq<Reply>)
    ensures |rs| == |waiters|
  {
    seq(|waiters|, i requires 0 <= i < |waiters| =>
      Reply(waiters[i].ticket, waiters[i].requesterId, Question(waiters[i].requestName, typ, clas),
            i < |sends| && sends[i]))
  }

  predicate AnySent(rs: seq<Reply>) {
    exists i :: 0 <= i < |rs| && rs[i].sent
  }

  function WaitersOf(st: State, q: nat): seq<Waiter>
    requires q in st.queries
  {
    var p := st.queries[q].local;
    if p in st.pendings then st.pendings[p].waiters else []
  }

  /** A query under the id of its one retry. */
  function Retried(q: Query, id: uint16, now: nat): Query {
    q.(upstreamId := id, usedEdns := false, timestamp := now)
  }

  function Retry(st: State, q: nat, id: uint16): State
    requires q in st.queries
  {
    var was := st.queries[q];
    var now := Retried(was, id, st.clock);
    st.(queries := st.queries[q := now],
        bySocket := Enlist(Unlist(st.bySocket, (KeyOf(was), q)), (KeyOf(now), q)))
  }

  function Deliver(st: State, q: nat, sends: seq<bool>): State
    requires q in st.queries
  {
    var query := st.queries[q];
    var replies := RepliesTo(WaitersOf(st, q), query.typ, query.clas, sends);
    var s := st.(log := st.log + replies);
    if AnySent(replies) then Finish(s, Siblings(s, query.local)) else Finish(s, {q})
  }

  /**
    * One datagram in process_upstream_udp_channel. `pick` is the registration the lookup happened to
    * return; the socket table may hold several under one key.
    */
  function Receive(st: State, fd: nat, msg: Upstream, pick: nat, draws: seq<uint16>, retrySent: bool,
                   sends: seq<bool>): State {
    if ((fd, msg.id), pick) !in st.bySocket || pick !in Live(st) || !Matches(st.queries[pick], msg) then st else
      var q := st.queries[pick];
      if (Rcode(msg.flags) == 1 || Rcode(msg.flags) == 4) && q.usedEdns then
        match FirstFree(st.txids, q.endpoint.address, draws)
        case None => Deliver(st, pick, sends)
        case Some(id) =>
          var s := st.(txids := st.txids[Txid(q.endpoint.address, id) := st.clock]);
          if retrySent then Retry(s, pick, id) else Deliver(s, pick, sends)
      else Deliver(st, pick, sends)
  }

  // ----- Maintenance -----

  predicate Overdue(st: State, cfg: Config, q: nat)
    requires q in st.queries
  {
    st.clock - st.queries[q].timestamp >= cfg.timeoutMs
  }

  /** One expired query of the clean-up phase: its whole transaction fails. */
  function Expire(st: State, cfg: Config, q: nat, sends: seq<bool>): State {
    if q !in Live(st) || !Overdue(st, cfg, q) then st else
      var query := st.queries[q];
      var s := st.(log := st.log + RepliesTo(WaitersOf(st, q), query.typ, query.clas, sends));
      Finish(s, Siblings(s, query.local))
  }

  /** The transaction-id phase, which goes by age alone. */
  function Sweep(st: State, cfg: Config): State {
    st.(txids := Young(st.txids, st.clock, cfg.timeoutMs))
  }

  // ----- Runs -----

  datatype Event =
    | AskEvent(id: uint16, question: Question, attempts: seq<Attempt>, refusalSent: bool)
    | ReceiveEvent(fd: nat, msg: Upstream, pick: nat, draws: seq<uint16>, retrySent: bool, sends: seq<bool>)
    | ExpireEvent(query: nat, sends: seq<bool>)
    | SweepEvent
    | TimePasses(elapsed: nat)
    | TcpWork(tasks: nat, txids: map<Txid, nat>)

  function Step(st: State, cfg: Config, e: Event): State {
    match e
    case AskEvent(id, question, attempts, refusalSent) => Ask(st, cfg, id, question, attempts, refusalSent)
    case ReceiveEvent(fd, msg, pick, draws, retrySent, sends) => Receive(st, fd, msg, pick, draws, retrySent, sends)
    case ExpireEvent(q, sends) => Expire(st, cfg, q, sends)
    case SweepEvent => Sweep(st, cfg)
    case TimePasses(elapsed) => st.(clock := st.clock + elapsed)
    case TcpWork(tasks, txids) => st.(tcpTasks := tasks, txids := txids)
  }

  function Run(st: State, cfg: Config, events: seq<Event>): State
    decreases |events|
  {
    if events == [] then st else Run(Step(st, cfg, events[0]), cfg, events[1..])
  }
}
