/** The TCP side as a state machine: which task owns which descriptor, and who is answered. */
module TcpTasks {
  import opened Bytes
  import opened Txids
  import Messages
  import MessageCodec

  datatype Op = Reading | Forwarding | Replying | Writing

  /**
    * `asker` is the connection whose question the task serves; `clientFd` is -1 unless it forwards. The
    * others have no forwarder, and the id they release has an address family that no id is filed under.
    */
  datatype Task = Task(id: nat, op: Op, upstreamFd: int, clientFd: int, asker: nat, usedEdns: bool,
                       txid: Option<Txid>, deadline: nat)

  datatype Limits = Limits(maxTasks: nat, maxClients: nat, clientTimeout: nat, upstreamTimeout: nat,
      tcpUpstreamTimeout: nat)

  /** An answer written out in full: the connection it went to, and the one that had asked. */
  datatype Answer = Answer(connection: nat, asker: nat)

  /**
    * `open` is the operating system's descriptor table: descriptors are used again, the serial number
    * of what they stand for is not. `system` holds the listeners and the UDP channels.
    */
  datatype State = State(open: map<int, nat>, nextSerial: nat, tasks: map<int, Task>, system: set<int>,
                         udp: nat, nextId: nat, txids: map<Txid, nat>, answered: seq<Answer>)

  predicate Forwards(t: Task) {
    t.op.Forwarding? || t.op.Replying?
  }

  // ----- Parts of a step -----

  function Opened(s: State, fd: int): State {
    s.(open := s.open[fd := s.nextSerial], nextSerial := s.nextSerial + 1)
  }

  function Closed(s: State, fd: int): State {
    s.(open := s.open - {fd})
  }

  function Put(tasks: map<int, Task>, fd: int, t: Task): (r: map<int, Task>)
    ensures |r| == |tasks| + (if fd in tasks then 0 else 1)
  {
    assert tasks[fd := t].Keys == tasks.Keys + {fd};
    tasks[fd := t]
  }

  function Drop(tasks: map<int, Task>, fd: int): (r: map<int, Task>)
    ensures |r| == |tasks| - (if fd in tasks then 1 else 0)
  {
    assert (tasks - {fd}).Keys == tasks.Keys - {fd};
    tasks - {fd}
  }

  function PushTask(s: State, t: Task, now: nat, timeout: nat): State {
    s.(tasks := Put(s.tasks, t.upstreamFd, t.(deadline := now + timeout)))
  }

  function Filed(s: State, it: Txid, now: nat): State {
    s.(txids := s.txids[it := now])
  }

  function Released(s: State, t: Task): State {
    if t.txid.None? then s else s.(txids := ReleaseTxid(s.txids, t.txid.value))
  }

  /** Takes the task out of the table, if the table still has it, closes what it holds and releases its id. */
  function FinishTask(s: State, t: Task, closeClient: bool): State {
    var fd := t.upstreamFd;
    var s1 :=
      if fd == -1 then s
      else Closed(if fd in s.tasks && s.tasks[fd].id == t.id then s.(tasks := Drop(s.tasks, fd)) else s, fd);
    Released(if closeClient && t.clientFd != -1 && t.clientFd != fd then Closed(s1, t.clientFd) else s1, t)
  }

  /** Whether the message could be encoded, and whether the poll set could be changed. */
  datatype SendOutcome = SendOutcome(encoded: bool, polled: bool)

  datatype Sent = Sent(state: State, ok: bool)

  /** Whether a packet can be made of the message for a TCP client. */
  predicate Encoded(msg: Messages.Message) {
    MessageCodec.PacketFor(msg, true, 0).Some?
  }

  /** Starts a reply on a client connection: in place if a task has it, else in a new task. */
  function SendReply(l: Limits, s: State, fd: int, asker: nat, now: nat, o: SendOutcome): Sent {
    if !o.encoded || fd == -1 then Sent(s, false)
    else if fd !in s.tasks then
      if |s.tasks| + s.udp >= l.maxTasks then Sent(s, false)
      else Sent(PushTask(s.(nextId := s.nextId + 1), Task(s.nextId, Writing, fd, -1, asker, true, None, 0), now,
          l.tcpUpstreamTimeout), true)
    else Sent(s.(tasks := Put(s.tasks, fd, s.tasks[fd].(op := Writing, asker := asker))), o.polled)
  }

  /** Closes the upstream side and turns the client's descriptor over to a reply. */
  function AnswerClient(l: Limits, s: State, t: Task, now: nat, o: SendOutcome): State {
    var sent := SendReply(l, FinishTask(s, t, false), t.clientFd, t.asker, now, o);
    if sent.ok then sent.state else Closed(sent.state, t.clientFd)
  }

  function QueueResponse(l: Limits, s: State, t: Task, now: nat, o: SendOutcome): State {
    if t.clientFd == -1 then FinishTask(s, t, true) else AnswerClient(l, s, t, now, o)
  }

  function ReplyOrFinish(l: Limits, s: State, t: Task, now: nat, o: SendOutcome): State {
    var sent := SendReply(l, s, t.upstreamFd, t.asker, now, o);
    if sent.ok then sent.state else FinishTask(sent.state, t, true)
  }

  // ----- What the outside world decides -----

  datatype WriteResult = WriteNeedMore | WriteDone | WriteError

  /**
    * How setting up an upstream connection goes: the new socket, the address to connect to, the random
    * draws of a transaction id, and whether the connection could be started. Making the query's packet
    * has no outcome of its own, because it cannot fail: see Rewriting.QueriesAreWritten.
    */
  datatype Upstream =
    | BadFamily
    | NoSocket
    | Socket(fd: int, address: nat, draws: seq<uint16>, connected: bool)

  /** A reply made on the spot is the message itself, so that its content decides whether it can be encoded. */
  datatype Request =
    | NotYet
    | Garbled
    | Unwanted
    | Refused
    | Local(reply: Messages.Message, polled: bool)
    | Unroutable(first: SendOutcome)
    | Routed(upstream: Upstream)

  datatype Reply = ReplyNotYet | ReplyBad | ReplyRejectsEdns(draws: seq<uint16>) | ReplyGood

  datatype Outcome = Outcome(write: WriteResult, request: Request, connected: bool, polled: bool, reply: Reply,
      send: SendOutcome)

  datatype Event =
    | Accept(fd: int, allowed: bool, now: nat)
    | Ready(fd: int, now: nat, outcome: Outcome)
    | Expire(expired: seq<Task>, sends: seq<SendOutcome>, now: nat)
    | UdpWork(udp: nat, sockets: seq<int>, txids: map<Txid, nat>)

  // ----- Steps -----

  function AcceptClient(l: Limits, s: State, fd: int, allowed: bool, now: nat): State {
    var s1 := Opened(s, fd);
    if !allowed || |s.tasks| + s.udp >= l.maxTasks || |s.tasks| >= l.maxClients then Closed(s1, fd)
    else PushTask(s1.(nextId := s.nextId + 1), Task(s.nextId, Reading, fd, -1, s.nextSerial, true, None, 0), now,
        l.clientTimeout)
  }

  function WriteToClient(s: State, t: Task, result: WriteResult): State {
    match result
    case WriteNeedMore => s
    case WriteError => FinishTask(s, t, true)
    case WriteDone =>
      var connection := if t.upstreamFd in s.open then s.open[t.upstreamFd] else s.nextSerial;
      FinishTask(s, t, true).(answered := s.answered + [Answer(connection, t.asker)])
  }

  /** A socket that gets no transaction id is left open; an id whose connection fails is left filed. */
  function ForwardTcp(l: Limits, s: State, t: Task, now: nat, u: Upstream): Sent {
    var s1 := s.(nextId := s.nextId + 1);
    match u
    case BadFamily => Sent(s1, false)
    case NoSocket => Sent(s1, false)
    case Socket(fd, address, draws, connected) =>
      match FirstFree(s.txids, address, draws)
      case None => Sent(Opened(s1, fd), false)
      case Some(id) =>
        var s2 := Filed(Opened(s1, fd), Txid(address, id), now);
        if !connected then Sent(Closed(s2, fd), false)
        else Sent(PushTask(s2, Task(s.nextId, Forwarding, fd, t.upstreamFd, t.asker, true, Some(Txid(address, id)), 0),
                           now, l.upstreamTimeout), true)
  }

  function AfterQuery(l: Limits, s: State, t: Task, now: nat, queried: Sent, o: SendOutcome): State {
    var s1 := queried.state;
    if queried.ok then
      if t.upstreamFd in s1.tasks && s1.tasks[t.upstreamFd].op == Writing then s1
      else s1.(tasks := Drop(s1.tasks, t.upstreamFd))
    else ReplyOrFinish(l, s1, t, now, o)
  }

  function ReadFromClient(l: Limits, s: State, t: Task, now: nat, o: Outcome): State {
    match o.request
    case NotYet => s
    case Garbled => ReplyOrFinish(l, s, t, now, o.send)
    case Unwanted => FinishTask(s, t, true)
    case Refused => ReplyOrFinish(l, s, t, now, o.send)
    case Local(reply, polled) =>
      var sent := SendReply(l, s, t.upstreamFd, t.asker, now, SendOutcome(Encoded(reply), polled));
      AfterQuery(l, s, t, now, Sent(sent.state, true), o.send)
    case Unroutable(first) =>
      AfterQuery(l, s, t, now, SendReply(l, s, t.upstreamFd, t.asker, now, first), o.send)
    case Routed(u) =>
      AfterQuery(l, s, t, now, ForwardTcp(l, s, t, now, u), o.send)
  }

  function WriteUpstream(l: Limits, s: State, t: Task, now: nat, o: Outcome): State {
    if !o.connected then QueueResponse(l, s, t, now, o.send)
    else match o.write
      case WriteNeedMore => s
      case WriteError => QueueResponse(l, s, t, now, o.send)
      case WriteDone =>
        var t1 := t.(op := Replying);
        var s1 := s.(tasks := Put(s.tasks, t.upstreamFd, t1));
        if o.polled then s1 else QueueResponse(l, s1, t1, now, o.send)
  }

  /** The question is asked again without EDNS under a new id; the old one stays filed until it is swept. */
  function Retried(t: Task, id: uint16): (r: Task)
    requires t.txid.Some?
    ensures r.txid == Some(Txid(t.txid.value.address, id))
  {
    t.(usedEdns := false, op := Forwarding, txid := Some(Txid(t.txid.value.address, id)))
  }

  function ReadUpstream(l: Limits, s: State, t: Task, now: nat, o: Outcome): State {
    match o.reply
    case ReplyNotYet => s
    case ReplyBad => QueueResponse(l, s, t, now, o.send)
    case ReplyGood => QueueResponse(l, s, t, now, o.send)
    case ReplyRejectsEdns(draws) =>
      if !t.usedEdns || t.txid.None? then QueueResponse(l, s, t, now, o.send) else
        match FirstFree(s.txids, t.txid.value.address, draws)
        case None => QueueResponse(l, s, t, now, o.send)
        case Some(id) =>
          var t1 := Retried(t, id);
          var s1 := Filed(s, t1.txid.value, now);
          var s2 := s1.(tasks := Put(s.tasks, t.upstreamFd, t1));
          if o.polled then s2 else QueueResponse(l, s2, t1, now, o.send)
  }

  function Receive(l: Limits, s: State, fd: int, now: nat, o: Outcome): State {
    if fd in s.system || fd !in s.tasks || s.tasks[fd].upstreamFd != fd then s
    else
      var t := s.tasks[fd];
      match t.op
      case Writing => WriteToClient(s, t, o.write)
      case Reading => ReadFromClient(l, s, t, now, o)
      case Forwarding => WriteUpstream(l, s, t, now, o)
      case Replying => ReadUpstream(l, s, t, now, o)
  }

  function ExpireOne(l: Limits, s: State, t: Task, now: nat, o: SendOutcome): State {
    if t.upstreamFd == -1 || t.upstreamFd !in s.tasks || s.tasks[t.upstreamFd].id != t.id then s
    else if Forwards(t) then AnswerClient(l, s, t, now, o)
    else FinishTask(s, t, true)
  }

  function ExpireAll(l: Limits, s: State, expired: seq<Task>, sends: seq<SendOutcome>, now: nat): State
    requires |sends| == |expired|
    decreases |expired|
  {
    if expired == [] then s
    else ExpireAll(l, ExpireOne(l, s, expired[0], now, sends[0]), expired[1..], sends[1..], now)
  }

  ghost predicate Holds(s: State, t: Task) {
    t.upstreamFd in s.tasks && s.tasks[t.upstreamFd] == t
  }

  /** The overdue tasks, each once, in whatever order the table yields them. */
  ghost predicate Overdue(s: State, expired: seq<Task>, now: nat) {
    && (forall t :: t in expired <==> Holds(s, t) && t.deadline <= now)
    && (forall i, j :: 0 <= i < j < |expired| ==> expired[i] != expired[j])
  }

  /** The operating system hands out only descriptors that are not open. */
  predicate Fresh(s: State, fd: int) {
    fd >= 0 && fd !in s.open
  }

  predicate UpstreamFresh(s: State, u: Upstream) {
    match u
    case BadFamily => true
    case NoSocket => true
    case _ => Fresh(s, u.fd)
  }

  /** What the outside world can do in a state; the UDP side counts TCP tasks before it adds to its own. */
  ghost predicate Possible(l: Limits, s: State, e: Event) {
    match e
    case Accept(fd, _, _) => Fresh(s, fd)
    case Ready(_, _, o) => o.request.Routed? ==> UpstreamFresh(s, o.request.upstream)
    case Expire(expired, sends, now) => |sends| == |expired| && Overdue(s, expired, now)
    case UdpWork(udp, sockets, _) =>
      && (udp <= s.udp || |s.tasks| + udp <= l.maxTasks)
      && AllFresh(s, sockets)
  }

  predicate AllFresh(s: State, sockets: seq<int>) {
    && (forall i :: 0 <= i < |sockets| ==> Fresh(s, sockets[i]))
    && (forall i, j :: 0 <= i < j < |sockets| ==> sockets[i] != sockets[j])
  }

  /** New sockets for UDP channels, which are never closed. */
  function OpenChannels(s: State, sockets: seq<int>): State
    decreases |sockets|
  {
    if sockets == [] then s
    else OpenChannels(Opened(s, sockets[0]).(system := s.system + {sockets[0]}), sockets[1..])
  }

  function UdpStep(s: State, udp: nat, sockets: seq<int>, txids: map<Txid, nat>): State {
    OpenChannels(s, sockets).(udp := udp, txids := txids)
  }

  ghost function Step(l: Limits, s: State, e: Event): State
    requires Possible(l, s, e)
  {
    match e
    case Accept(fd, allowed, now) => AcceptClient(l, s, fd, allowed, now)
    case Ready(fd, now, o) => Receive(l, s, fd, now, o)
    case Expire(expired, sends, now) => ExpireAll(l, s, expired, sends, now)
    case UdpWork(udp, sockets, txids) => UdpStep(s, udp, sockets, txids)
  }

  // ----- Runs -----

  /** The program has started: only listeners and the like are open. */
  ghost predicate Init(s: State) {
    && s.tasks == map[] && s.udp == 0 && s.txids == map[] && s.answered == []
    && s.open.Keys == s.system && Serials(s)
  }

  ghost predicate IsRun(l: Limits, states: seq<State>, events: seq<Event>) {
    && |states| == |events| + 1 && Init(states[0])
    && forall i :: 0 <= i < |events| ==>
        Possible(l, states[i], events[i]) && states[i + 1] == Step(l, states[i], events[i])
  }

  // ----- The invariant -----

  /** Serial numbers are never given out twice. */
  ghost predicate Serials(s: State) {
    && -1 !in s.open
    && (forall fd :: fd in s.open ==> s.open[fd] < s.nextSerial)
    && (forall f, g :: f in s.open && g in s.open && f != g ==> s.open[f] != s.open[g])
  }

  ghost predicate TaskOwns(s: State, fd: int) {
    fd in s.tasks ==>
      var t := s.tasks[fd];
      && t.upstreamFd == fd && fd in s.open && fd !in s.system && t.id < s.nextId
      && (t.txid.Some? <==> Forwards(t))
      && if Forwards(t) then
           && t.clientFd in s.open && t.clientFd !in s.tasks && t.clientFd !in s.system
           && s.open[t.clientFd] == t.asker
         else
           t.clientFd == -1 && s.open[fd] == t.asker
  }

  ghost predicate Disjoint(s: State, f: int, g: int) {
    f in s.tasks && g in s.tasks && f != g ==>
      && s.tasks[f].id != s.tasks[g].id
      && (Forwards(s.tasks[f]) && Forwards(s.tasks[g]) ==> s.tasks[f].clientFd != s.tasks[g].clientFd)
  }

  /** Every descriptor a task reads, writes or will close is open, and is its alone. */
  ghost predicate Ownership(s: State) {
    && s.system <= s.open.Keys
    && (forall fd :: TaskOwns(s, fd))
    && (forall f, g :: Disjoint(s, f, g))
  }

  /** Every answer went to the connection that asked, which is closed since, so that it had no other. */
  ghost predicate Delivery(s: State) {
    && (forall a :: a in s.answered ==>
                      a.connection == a.asker && a.connection < s.nextSerial
                      && forall fd :: fd in s.open ==> s.open[fd] != a.connection)
    && (forall i, j :: 0 <= i < j < |s.answered| ==> s.answered[i].connection != s.answered[j].connection)
  }

  predicate Capacity(l: Limits, s: State) {
    |s.tasks| + s.udp <= l.maxTasks && |s.tasks| <= l.maxClients
  }

  ghost predicate Inv(l: Limits, s: State) {
    Serials(s) && Ownership(s) && Delivery(s) && Capacity(l, s)
  }
}
