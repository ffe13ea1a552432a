/** What an event on the TCP side brings about, by what the task was doing and how the event went. */
module TcpOutcomes {
  import opened Bytes
  import opened Txids
  import opened TcpTasks
  import opened TcpResults

  // ----- Endings -----

  /** A reply to whoever asked is on its way out on this descriptor. */
  function Telling(id: nat, fd: int, asker: nat, deadline: nat): Task {
    Task(id, Writing, fd, -1, asker, true, None, deadline)
  }

  /**
    * The upstream connection is closed, its task and its transaction id are gone; and the client is being
    * told, or, if no packet could be made for it, its connection is closed too.
    */
  predicate Answered(l: Limits, s: State, r: State, t: Task, now: nat, encoded: bool) {
    && r.txids.Keys == (if t.txid.Some? then s.txids.Keys - {t.txid.value} else s.txids.Keys)
    && r.answered == s.answered && r.system == s.system && r.udp == s.udp
    && if encoded then
         && r.open == s.open - {t.upstreamFd}
         && r.tasks == (s.tasks - {t.upstreamFd})[t.clientFd :=
                          Telling(s.nextId, t.clientFd, t.asker, now + l.tcpUpstreamTimeout)]
       else
         && r.open == s.open - {t.upstreamFd, t.clientFd}
         && r.tasks == s.tasks - {t.upstreamFd}
  }

  /** The client's connection is closed and its task gone. */
  predicate Dismissed(s: State, r: State, t: Task) {
    && r.open == s.open - {t.upstreamFd} && r.tasks == s.tasks - {t.upstreamFd}
    && r.system == s.system && r.udp == s.udp && r.txids == s.txids
  }

  /** The task goes on as t1, and nothing else changes but, perhaps, the ids in use. */
  predicate Continues(s: State, r: State, t1: Task) {
    r == s.(tasks := s.tasks[t1.upstreamFd := t1], txids := r.txids)
  }

  /** The client of a task that reads from it is told on the spot, or dismissed if that cannot be done. */
  predicate ToldOrDismissed(s: State, r: State, t: Task, o: SendOutcome) {
    if o.encoded && o.polled then Continues(s, r, t.(op := Writing)) && r.txids == s.txids
    else Dismissed(s, r, t) && r.answered == s.answered
  }

  lemma {:induction false} DropIs(tasks: map<int, Task>, fd: int)
    ensures Drop(tasks, fd) == tasks - {fd}
  {
  }

  lemma {:induction false} AnswerAnswers(l: Limits, s: State, t: Task, now: nat, o: SendOutcome)
    requires Inv(l, s) && Holds(s, t) && Forwards(t)
    ensures Answered(l, s, QueueResponse(l, s, t, now, o), t, now, o.encoded)
    ensures Answered(l, s, AnswerClient(l, s, t, now, o), t, now, o.encoded)
  {
    hide Inv, FinishTask, AnswerClient, QueueResponse, Drop;
    AnswerIs(l, s, t, now, o);
    OwnsBoth(l, s, t);
    DropIs(s.tasks, t.upstreamFd);
    if !o.encoded {
      FinishForwarding(s, t);
    }
  }

  lemma {:induction false} OwnsBoth(l: Limits, s: State, t: Task)
    requires Inv(l, s) && Holds(s, t) && Forwards(t)
    ensures t.upstreamFd != -1 && t.clientFd != -1 && t.clientFd != t.upstreamFd && t.clientFd !in s.tasks
  {
    assert TaskOwns(s, t.upstreamFd);
  }

  lemma {:induction false} FinishForwarding(s: State, t: Task)
    requires Holds(s, t) && t.upstreamFd != -1 && t.clientFd != -1 && t.clientFd != t.upstreamFd
    ensures FinishTask(s, t, true) ==
            Released(s.(open := s.open - {t.upstreamFd, t.clientFd}, tasks := Drop(s.tasks, t.upstreamFd)), t)
  {
    hide Drop, Released;
    ClosedTwice(s.(tasks := Drop(s.tasks, t.upstreamFd)), t.upstreamFd, t.clientFd);
  }

  lemma {:induction false} ClosedTwice(s: State, f: int, g: int)
    ensures Closed(Closed(s, f), g) == s.(open := s.open - {f, g})
  {
    assert s.open - {f} - {g} == s.open - {f, g};
  }

  lemma {:induction false} FinishDismisses(l: Limits, s: State, t: Task)
    requires Inv(l, s) && Holds(s, t) && !Forwards(t)
    ensures Dismissed(s, FinishTask(s, t, true), t) && FinishTask(s, t, true).answered == s.answered
  {
    assert TaskOwns(s, t.upstreamFd);
    hide Inv, TaskOwns, Drop;
    DropIs(s.tasks, t.upstreamFd);
  }

  lemma {:induction false} ReplyTells(l: Limits, s: State, t: Task, now: nat, o: SendOutcome)
    requires Inv(l, s) && Holds(s, t) && !Forwards(t)
    ensures ToldOrDismissed(s, ReplyOrFinish(l, s, t, now, o), t, o)
  {
    hide Inv, ReplyOrFinish, FinishTask, Dismissed;
    ReplyOrFinishKeeps(l, s, t, now, o);
    FinishDismisses(l, s, t);
  }

  // ----- Upstream -----

  /**
    * A task that waits for the upstream answer: nothing until the answer is complete; then, right or
    * wrong, the client is answered. Only a refusal of EDNS to a question that used it is answered by one
    * retry on the same connection, under a new id and without EDNS, if an id is free.
    */
  lemma {:induction false} ReplyingOutcome(l: Limits, s: State, fd: int, now: nat, o: Outcome)
    requires Inv(l, s) && fd in s.tasks && s.tasks[fd].op == Replying
    ensures var t, r := s.tasks[fd], Receive(l, s, fd, now, o);
      && (o.reply == ReplyNotYet ==> r == s)
      && (o.reply == ReplyGood || o.reply == ReplyBad ==> Answered(l, s, r, t, now, o.send.encoded))
      && (o.reply.ReplyRejectsEdns? && !t.usedEdns ==> Answered(l, s, r, t, now, o.send.encoded))
      && (o.reply.ReplyRejectsEdns? && t.usedEdns ==> RetriesOnce(l, s, r, t, now, o))
  {
    hide Inv, QueueResponse, FirstFree, Answered;
    var t := s.tasks[fd];
    OwnTask(l, s, fd);
    AnswerAnswers(l, s, t, now, o.send);
    if o.reply.ReplyRejectsEdns? && t.usedEdns {
      var free := FirstFree(s.txids, t.txid.value.address, o.reply.draws);
      if free.Some? {
        var t1 := Retried(t, free.value);
        FirstFreeExactly(s.txids, t.txid.value.address, o.reply.draws);
        RetryKeeps(l, s, t, t1, now);
        AnswerAnswers(l, RetriedState(s, t1, now), t1, now, o.send);
      }
    }
  }

  lemma {:induction false} OwnTask(l: Limits, s: State, fd: int)
    requires Inv(l, s) && fd in s.tasks
    ensures fd !in s.system && s.tasks[fd].upstreamFd == fd && Holds(s, s.tasks[fd])
    ensures s.tasks[fd].txid.Some? <==> Forwards(s.tasks[fd])
    ensures !Forwards(s.tasks[fd]) ==> s.tasks[fd].clientFd == -1
  {
    assert TaskOwns(s, fd);
  }

  predicate RetriesOnce(l: Limits, s: State, r: State, t: Task, now: nat, o: Outcome) {
    t.txid.Some? && o.reply.ReplyRejectsEdns? &&
    var address := t.txid.value.address;
    match FirstFree(s.txids, address, o.reply.draws)
    case None => Answered(l, s, r, t, now, o.send.encoded)
    case Some(id) =>
      var t1 := t.(usedEdns := false, op := Forwarding, txid := Some(Txid(address, id)));
      var s1 := s.(tasks := s.tasks[t.upstreamFd := t1], txids := s.txids[Txid(address, id) := now]);
      && Txid(address, id) !in s.txids
      && if o.polled then r == s1 else Answered(l, s1, r, t1, now, o.send.encoded)
  }

  /** A task that sends the question upstream: once all is sent it waits for the answer; a failure is the client's
      answer. */
  lemma {:induction false} ForwardingOutcome(l: Limits, s: State, fd: int, now: nat, o: Outcome)
    requires Inv(l, s) && fd in s.tasks && s.tasks[fd].op == Forwarding
    ensures var t, r := s.tasks[fd], Receive(l, s, fd, now, o);
      var waits := t.(op := Replying);
      if !o.connected || o.write == WriteError then Answered(l, s, r, t, now, o.send.encoded)
      else if o.write == WriteNeedMore then r == s
      else if o.polled then Continues(s, r, waits) && r.txids == s.txids
      else Answered(l, s, r, t, now, o.send.encoded)
  {
    hide Inv, QueueResponse, Answered;
    var t := s.tasks[fd];
    var waits := t.(op := Replying);
    OwnTask(l, s, fd);
    AnswerAnswers(l, s, t, now, o.send);
    ChangeKeeps(l, s, t, waits);
    AnswerAnswers(l, Changed(s, waits), waits, now, o.send);
    SameAnswer(l, s, t, waits, QueueResponse(l, Changed(s, waits), waits, now, o.send), now, o.send.encoded);
  }

  lemma {:induction false} SameAnswer(l: Limits, s: State, t: Task, t1: Task, r: State, now: nat, encoded: bool)
    requires t1 == t.(op := t1.op) && Answered(l, Changed(s, t1), r, t1, now, encoded)
    ensures Answered(l, s, r, t, now, encoded)
  {
    hide Put;
    PutIs(s.tasks, t.upstreamFd, t1);
    Overwritten(s.tasks, t.upstreamFd, t1);
  }

  lemma {:induction false} Overwritten(tasks: map<int, Task>, fd: int, t: Task)
    ensures tasks[fd := t] - {fd} == tasks - {fd}
  {
  }

  // ----- Clients -----

  /** A reply that is written out in full counts as an answer to who asked; then, as on failure, the connection is
      closed. */
  lemma {:induction false} WritingOutcome(l: Limits, s: State, fd: int, now: nat, o: Outcome)
    requires Inv(l, s) && fd in s.tasks && s.tasks[fd].op == Writing
    ensures fd in s.open
    ensures var t, r := s.tasks[fd], Receive(l, s, fd, now, o);
      if o.write == WriteNeedMore then r == s
      else
        && Dismissed(s, r, t)
        && r.answered == s.answered + (if o.write == WriteDone then [Answer(s.open[fd], t.asker)] else [])
  {
    hide Inv, FinishTask;
    var t := s.tasks[fd];
    OwnTask(l, s, fd);
    IsOpen(l, s, fd);
    FinishDismisses(l, s, t);
  }

  lemma {:induction false} IsOpen(l: Limits, s: State, fd: int)
    requires Inv(l, s) && fd in s.tasks
    ensures fd in s.open
  {
    assert TaskOwns(s, fd);
  }

  /**
    * A task that reads a question. Part of one changes nothing; octets that are none, and questions that
    * are refused, are answered on the spot; a response is no question, and its sender is dismissed.
    */
  lemma {:induction false} ReadingOutcome(l: Limits, s: State, fd: int, now: nat, o: Outcome)
    requires Inv(l, s) && fd in s.tasks && s.tasks[fd].op == Reading
    ensures var t, r := s.tasks[fd], Receive(l, s, fd, now, o);
      && (o.request == NotYet ==> r == s)
      && (o.request == Garbled || o.request == Refused ==> ToldOrDismissed(s, r, t, o.send))
      && (o.request == Unwanted ==> Dismissed(s, r, t) && r.answered == s.answered)
  {
    hide Inv, ReplyOrFinish, FinishTask, AfterQuery, SendReply, Encoded, ForwardTcp, ToldOrDismissed, Dismissed;
    var t := s.tasks[fd];
    OwnTask(l, s, fd);
    ReplyTells(l, s, t, now, o.send);
    FinishDismisses(l, s, t);
  }

  /** A question that is answered on the spot: the reply is started in the task, if a packet can be made of it. */
  lemma {:induction false} LocalOutcome(l: Limits, s: State, fd: int, now: nat, o: Outcome)
    requires Inv(l, s) && fd in s.tasks && s.tasks[fd].op == Reading && o.request.Local?
    ensures var t, r := s.tasks[fd], Receive(l, s, fd, now, o);
      if Encoded(o.request.reply) then Continues(s, r, t.(op := Writing)) && r.txids == s.txids
      else r == s.(tasks := s.tasks - {fd})
  {
    hide Inv, ReplyOrFinish, SendReply, Encoded, Drop;
    var t := s.tasks[fd];
    OwnTask(l, s, fd);
    ReplyKeeps(l, s, t, now, SendOutcome(Encoded(o.request.reply), o.request.polled));
    DropIs(s.tasks, fd);
  }

  /** A question for which there is no forwarder is refused, and if that fails, once more. */
  lemma {:induction false} UnroutableOutcome(l: Limits, s: State, fd: int, now: nat, o: Outcome)
    requires Inv(l, s) && fd in s.tasks && s.tasks[fd].op == Reading && o.request.Unroutable?
    ensures var t, r := s.tasks[fd], Receive(l, s, fd, now, o);
      if o.request.first.encoded && o.request.first.polled then Continues(s, r, t.(op := Writing)) && r.txids == s.txids
      else ToldOrDismissed(s, r, t, o.send)
  {
    hide Inv, ReplyOrFinish, SendReply, ToldOrDismissed;
    var t := s.tasks[fd];
    var w := t.(op := Writing);
    OwnTask(l, s, fd);
    ReplyKeeps(l, s, t, now, o.request.first);
    ReplyTells(l, s, t, now, o.send);
    if o.request.first.encoded && !o.request.first.polled {
      ChangeKeeps(l, s, t, w);
      StaleReply(l, Changed(s, w), t, w, now, o.send);
      ReplyTells(l, Changed(s, w), w, now, o.send);
      SameTelling(s, t, w, ReplyOrFinish(l, Changed(s, w), w, now, o.send), o.send);
    }
  }

  lemma {:induction false} SameTelling(s: State, t: Task, w: Task, r: State, o: SendOutcome)
    requires w == t.(op := Writing) && ToldOrDismissed(Changed(s, w), r, w, o)
    ensures ToldOrDismissed(s, r, t, o)
  {
    hide Put;
    PutIs(s.tasks, t.upstreamFd, w);
    Overwritten(s.tasks, t.upstreamFd, w);
  }

  /** The connection on which a question goes upstream, for the client that asked it. */
  function Asking(id: nat, fd: int, client: int, asker: nat, it: Txid, deadline: nat): Task {
    Task(id, Forwarding, fd, client, asker, true, Some(it), deadline)
  }

  /** Everything but descriptor numbers given out and ids filed is as it was. */
  predicate OnlyCounted(s: State, m: State, added: set<int>) {
    && m.tasks == s.tasks
    && m.open.Keys == s.open.Keys + added && (forall f :: f in s.open ==> m.open[f] == s.open[f])
    && m.system == s.system && m.udp == s.udp && m.answered == s.answered && s.txids.Keys <= m.txids.Keys
  }

  /** A connection can be started: there is a socket, an id and no refusal. */
  predicate Starts(s: State, u: Upstream) {
    u.Socket? && u.connected && FirstFree(s.txids, u.address, u.draws).Some?
  }

  /**
    * A question to be forwarded, when a connection can be started: it gets a task that holds the client's
    * descriptor and an id that was free, and the client's own task is gone.
    */
  lemma {:induction false} RoutedOutcome(l: Limits, s: State, fd: int, now: nat, o: Outcome)
    requires Inv(l, s) && fd in s.tasks && s.tasks[fd].op == Reading && o.request.Routed?
    requires UpstreamFresh(s, o.request.upstream) && Starts(s, o.request.upstream)
    ensures var t, r, u := s.tasks[fd], Receive(l, s, fd, now, o), o.request.upstream;
      var it := Txid(u.address, FirstFree(s.txids, u.address, u.draws).value);
      && it !in s.txids && r.txids == s.txids[it := now]
      && r.open == s.open[u.fd := s.nextSerial]
      && r.tasks == (s.tasks - {fd})[u.fd := Asking(s.nextId, u.fd, fd, t.asker, it, now + l.upstreamTimeout)]
      && r.answered == s.answered && r.system == s.system && r.udp == s.udp
  {
    hide Inv, AfterQuery, ForwardTcp, FirstFree, Put, Drop;
    var t, u := s.tasks[fd], o.request.upstream;
    OwnTask(l, s, fd);
    RoutedIs(l, s, t, now, u, o.send);
    FirstFreeExactly(s.txids, u.address, u.draws);
    NewSocketIsUnused(l, s, t, u.fd);
    HandsOver(s.tasks, fd, u.fd, Asking(s.nextId, u.fd, fd, t.asker, Connected(s, u).value, now + l.upstreamTimeout));
  }

  /** The set-up was tried in vain, leaving at most a socket without an id open, and the client told or dismissed. */
  predicate ToldAfter(s: State, m: State, r: State, t: Task, o: SendOutcome, u: Upstream) {
    && OnlyCounted(s, m, if u.Socket? && FirstFree(s.txids, u.address, u.draws).None? then {u.fd} else {})
    && ToldOrDismissed(m, r, t, o)
  }

  /** When no connection can be started the client is told so, and only a socket without an id stays open. */
  lemma {:induction false} UnroutedOutcome(l: Limits, s: State, fd: int, now: nat, o: Outcome)
    requires Inv(l, s) && fd in s.tasks && s.tasks[fd].op == Reading && o.request.Routed?
    requires UpstreamFresh(s, o.request.upstream) && !Starts(s, o.request.upstream)
    ensures exists m :: ToldAfter(s, m, Receive(l, s, fd, now, o), s.tasks[fd], o.send, o.request.upstream)
  {
    hide Inv, AfterQuery, ReplyOrFinish, ForwardTcp, FirstFree, ToldOrDismissed, OnlyCounted;
    var t, u := s.tasks[fd], o.request.upstream;
    OwnTask(l, s, fd);
    RoutedIs(l, s, t, now, u, o.send);
    var m := ForwardTcp(l, s, t, now, u).state;
    UnconnectedKeeps(l, s, t, now, u);
    UnconnectedCounts(l, s, t, now, u);
    ReplyTells(l, m, t, now, o.send);
    assert ToldAfter(s, m, Receive(l, s, fd, now, o), t, o.send, u);
  }

  lemma {:induction false} HandsOver(tasks: map<int, Task>, fd: int, to: int, w: Task)
    requires fd in tasks && fd != to && to !in tasks
    ensures Drop(Put(tasks, to, w), fd) == (tasks - {fd})[to := w]
  {
  }

  lemma {:induction false} UnconnectedCounts(l: Limits, s: State, t: Task, now: nat, u: Upstream)
    requires Connected(s, u).None? && UpstreamFresh(s, u)
    ensures OnlyCounted(s, ForwardTcp(l, s, t, now, u).state,
                        if u.Socket? && FirstFree(s.txids, u.address, u.draws).None? then {u.fd} else {})
  {
    hide FirstFree;
  }

  /** A new connection is admitted exactly if its sender is allowed and there is room within both limits. */
  lemma {:induction false} AcceptOutcome(l: Limits, s: State, fd: int, allowed: bool, now: nat)
    requires Fresh(s, fd)
    ensures var r := AcceptClient(l, s, fd, allowed, now);
      if allowed && |s.tasks| + s.udp < l.maxTasks && |s.tasks| < l.maxClients then
        && r.open == s.open[fd := s.nextSerial]
        && r.tasks == s.tasks[fd := Task(s.nextId, Reading, fd, -1, s.nextSerial, true, None, now + l.clientTimeout)]
      else r.open == s.open && r.tasks == s.tasks
  {
    hide Put;
    PutIs(s.tasks, fd, Task(s.nextId, Reading, fd, -1, s.nextSerial, true, None, now + l.clientTimeout));
  }

  lemma {:induction false} PutIs(tasks: map<int, Task>, fd: int, t: Task)
    ensures Put(tasks, fd, t) == tasks[fd := t]
  {
  }

  /** A task whose time is up: a client that was forwarded is told so, any other is dismissed. */
  lemma {:induction false} ExpireOutcome(l: Limits, s: State, t: Task, now: nat, o: SendOutcome)
    requires Inv(l, s) && Holds(s, t)
    ensures var r := ExpireOne(l, s, t, now, o);
      if t.op == Forwarding || t.op == Replying then Answered(l, s, r, t, now, o.encoded)
      else Dismissed(s, r, t) && r.answered == s.answered
  {
    hide Inv, AnswerClient, FinishTask, Answered, Dismissed;
    StandsAtDescriptor(l, s, t);
    if Forwards(t) {
      AnswerAnswers(l, s, t, now, o);
    } else {
      FinishDismisses(l, s, t);
    }
  }

  lemma {:induction false} StandsAtDescriptor(l: Limits, s: State, t: Task)
    requires Inv(l, s) && Holds(s, t)
    ensures t.upstreamFd != -1
  {
    assert TaskOwns(s, t.upstreamFd);
  }
}
