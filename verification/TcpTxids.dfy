/** Whether the transaction ids of the TCP side stay its tasks' own. */
module TcpTxids {
  import opened Bytes
  import opened Txids
  import opened TcpTasks
  import opened TcpResults

  /** The ids the forwarding tasks go by. */
  function TaskIds(tasks: map<int, Task>): set<Txid> {
    set fd | fd in tasks && tasks[fd].txid.Some? :: tasks[fd].txid.value
  }

  /** Every task's id is filed, no two tasks have the same, and the ids in `others` are held beside theirs. */
  predicate TasksHold(tasks: map<int, Task>, txids: map<Txid, nat>, others: set<Txid>) {
    && (forall f :: f in tasks && tasks[f].txid.Some? ==> tasks[f].txid.value in txids.Keys - others)
    && (forall f, g :: f in tasks && g in tasks && f != g && tasks[f].txid.Some? ==> tasks[f].txid != tasks[g].txid)
    && others <= txids.Keys
  }

  predicate Held(s: State, others: set<Txid>) {
    TasksHold(s.tasks, s.txids, others)
  }

  // ----- Changed tables -----

  lemma {:induction false} DropHolds(tasks: map<int, Task>, txids: map<Txid, nat>, others: set<Txid>, fd: int)
    requires TasksHold(tasks, txids, others)
    ensures TasksHold(Drop(tasks, fd), txids, others)
    ensures fd in tasks && tasks[fd].txid.Some? ==>
            TasksHold(Drop(tasks, fd), ReleaseTxid(txids, tasks[fd].txid.value), others)
  {
  }

  lemma {:induction false} PutHolds(tasks: map<int, Task>, txids: map<Txid, nat>, others: set<Txid>, fd: int, t: Task)
    requires TasksHold(tasks, txids, others)
    requires t.txid.None? || (fd in tasks && t.txid == tasks[fd].txid)
    ensures TasksHold(Put(tasks, fd, t), txids, others)
  {
  }

  /** A task under an id that was free. */
  lemma {:induction false} PutFreshHolds(tasks: map<int, Task>, txids: map<Txid, nat>, others: set<Txid>, fd: int,
                                         t: Task, now: nat)
    requires TasksHold(tasks, txids, others) && t.txid.Some? && t.txid.value !in txids
    ensures TasksHold(Put(tasks, fd, t), txids[t.txid.value := now], others)
  {
  }

  lemma {:induction false} FileHolds(tasks: map<int, Task>, txids: map<Txid, nat>, others: set<Txid>, it: Txid,
                                     now: nat)
    requires TasksHold(tasks, txids, others)
    ensures TasksHold(tasks, txids[it := now], others)
  {
  }

  // ----- The changes a step is made of -----

  lemma {:induction false} TasksOwnIds(l: Limits, s: State, t: Task)
    requires Inv(l, s) && Holds(s, t)
    ensures (t.txid.Some? <==> Forwards(t)) && t.upstreamFd != -1
    ensures Forwards(t) ==> t.clientFd != -1 && t.clientFd != t.upstreamFd
  {
    assert TaskOwns(s, t.upstreamFd);
  }

  lemma {:induction false} FinishHolds(l: Limits, s: State, t: Task, others: set<Txid>)
    requires Inv(l, s) && Holds(s, t) && Held(s, others)
    ensures Held(FinishTask(s, t, true), others)
  {
    hide Inv, TasksHold, Drop;
    TasksOwnIds(l, s, t);
    DropHolds(s.tasks, s.txids, others, t.upstreamFd);
  }

  lemma {:induction false} AnswerHolds(l: Limits, s: State, t: Task, now: nat, o: SendOutcome, others: set<Txid>)
    requires Inv(l, s) && Holds(s, t) && Forwards(t) && Held(s, others)
    ensures Held(QueueResponse(l, s, t, now, o), others)
    ensures Held(AnswerClient(l, s, t, now, o), others)
  {
    hide Inv, TasksHold, Drop, Put, AnswerClient, QueueResponse, FinishTask;
    AnswerIs(l, s, t, now, o);
    FinishHolds(l, s, t, others);
    TasksOwnIds(l, s, t);
    var w := Task(s.nextId, Writing, t.clientFd, -1, t.asker, true, None, now + l.tcpUpstreamTimeout);
    DropHolds(s.tasks, s.txids, others, t.upstreamFd);
    PutHolds(Drop(s.tasks, t.upstreamFd), ReleaseTxid(s.txids, t.txid.value), others, t.clientFd, w);
  }

  lemma {:induction false} ChangeHolds(s: State, t: Task, t1: Task, others: set<Txid>)
    requires Holds(s, t) && Held(s, others) && t1.upstreamFd == t.upstreamFd && t1.txid == t.txid
    ensures Held(Changed(s, t1), others)
  {
    hide TasksHold, Put;
    PutHolds(s.tasks, s.txids, others, t.upstreamFd, t1);
  }

  lemma {:induction false} ReplyOrFinishHolds(l: Limits, s: State, t: Task, now: nat, o: SendOutcome,
                                              others: set<Txid>)
    requires Inv(l, s) && Holds(s, t) && !Forwards(t) && Held(s, others)
    ensures Held(ReplyOrFinish(l, s, t, now, o), others)
  {
    hide Inv, TasksHold, Put, ReplyOrFinish, FinishTask;
    ReplyOrFinishKeeps(l, s, t, now, o);
    FinishHolds(l, s, t, others);
    ChangeHolds(s, t, t.(op := Writing), others);
  }

  // ----- Steps -----

  lemma {:induction false} HandOverHolds(l: Limits, s: State, t: Task, fd: int, it: Txid, now: nat, others: set<Txid>)
    requires Held(s, others) && it !in s.txids
    ensures Held(HandedOver(l, s, t, fd, it, now), others)
  {
    hide TasksHold, Put, Drop;
    var w := Task(s.nextId, Forwarding, fd, t.upstreamFd, t.asker, true, Some(it), now + l.upstreamTimeout);
    PutFreshHolds(s.tasks, s.txids, others, fd, w, now);
    DropHolds(Put(s.tasks, fd, w), s.txids[it := now], others, t.upstreamFd);
  }

  lemma {:induction false} RoutedHolds(l: Limits, s: State, t: Task, now: nat, u: Upstream, o: SendOutcome,
                                       others: set<Txid>)
    requires Inv(l, s) && Holds(s, t) && t.op == Reading && UpstreamFresh(s, u) && Held(s, others)
    ensures Held(AfterQuery(l, s, t, now, ForwardTcp(l, s, t, now, u), o), others)
  {
    hide Inv, AfterQuery, ReplyOrFinish, HandedOver, ForwardTcp, FirstFree, Held;
    RoutedIs(l, s, t, now, u, o);
    match Connected(s, u) {
      case Some(it) =>
        FirstFreeExactly(s.txids, u.address, u.draws);
        HandOverHolds(l, s, t, u.fd, it, now, others);
      case None =>
        UnconnectedKeeps(l, s, t, now, u);
        UnconnectedHolds(l, s, t, now, u, others);
        ReplyOrFinishHolds(l, ForwardTcp(l, s, t, now, u).state, t, now, o, others);
    }
  }

  /** An id whose connection could not be started stays filed and is nobody's. */
  lemma {:induction false} UnconnectedHolds(l: Limits, s: State, t: Task, now: nat, u: Upstream, others: set<Txid>)
    requires Held(s, others) && Connected(s, u).None?
    ensures Held(ForwardTcp(l, s, t, now, u).state, others)
  {
    hide TasksHold, FirstFree;
    if u.Socket? {
      var free := FirstFree(s.txids, u.address, u.draws);
      if free.Some? {
        FileHolds(s.tasks, s.txids, others, Txid(u.address, free.value), now);
      }
    }
  }

  lemma {:induction false} ReadFromClientHolds(l: Limits, s: State, t: Task, now: nat, o: Outcome, others: set<Txid>)
    requires Inv(l, s) && Holds(s, t) && t.op == Reading && Held(s, others)
    requires o.request.Routed? ==> UpstreamFresh(s, o.request.upstream)
    ensures Held(ReadFromClient(l, s, t, now, o), others)
  {
    hide Inv, ReplyOrFinish, AfterQuery, SendReply, ForwardTcp, FinishTask, Held, Encoded;
    match o.request {
      case NotYet =>
      case Garbled => ReplyOrFinishHolds(l, s, t, now, o.send, others);
      case Unwanted => FinishHolds(l, s, t, others);
      case Refused => ReplyOrFinishHolds(l, s, t, now, o.send, others);
      case Local(reply, polled) => LocalHolds(l, s, t, now, SendOutcome(Encoded(reply), polled), o.send, others);
      case Unroutable(first) => UnroutableHolds(l, s, t, now, first, o.send, others);
      case Routed(u) => RoutedHolds(l, s, t, now, u, o.send, others);
    }
  }

  lemma {:induction false} LocalHolds(l: Limits, s: State, t: Task, now: nat, local: SendOutcome, o: SendOutcome,
                                      others: set<Txid>)
    requires Inv(l, s) && Holds(s, t) && t.op == Reading && Held(s, others)
    ensures var sent := Sent(SendReply(l, s, t.upstreamFd, t.asker, now, local).state, true);
      Held(AfterQuery(l, s, t, now, sent, o), others)
  {
    hide Inv, SendReply, ReplyOrFinish, TasksHold;
    ReplyKeeps(l, s, t, now, local);
    DropHolds(s.tasks, s.txids, others, t.upstreamFd);
    ChangeHolds(s, t, t.(op := Writing), others);
  }

  lemma {:induction false} UnroutableHolds(l: Limits, s: State, t: Task, now: nat, first: SendOutcome, o: SendOutcome,
                                           others: set<Txid>)
    requires Inv(l, s) && Holds(s, t) && t.op == Reading && Held(s, others)
    ensures Held(AfterQuery(l, s, t, now, SendReply(l, s, t.upstreamFd, t.asker, now, first), o), others)
  {
    hide Inv, SendReply, ReplyOrFinish, Held;
    var w := t.(op := Writing);
    ReplyKeeps(l, s, t, now, first);
    if first.encoded {
      ChangeKeeps(l, s, t, w);
      ChangeHolds(s, t, w, others);
      if !first.polled {
        ReplyOrFinishHolds(l, Changed(s, w), w, now, o, others);
        StaleReply(l, Changed(s, w), t, w, now, o);
      }
    } else {
      ReplyOrFinishHolds(l, s, t, now, o, others);
    }
  }

  lemma {:induction false} WriteUpstreamHolds(l: Limits, s: State, t: Task, now: nat, o: Outcome, others: set<Txid>)
    requires Inv(l, s) && Holds(s, t) && t.op == Forwarding && Held(s, others)
    ensures Held(WriteUpstream(l, s, t, now, o), others)
  {
    hide Inv, QueueResponse, AnswerClient, Held;
    AnswerHolds(l, s, t, now, o.send, others);
    var t1 := t.(op := Replying);
    ChangeKeeps(l, s, t, t1);
    ChangeHolds(s, t, t1, others);
    AnswerHolds(l, Changed(s, t1), t1, now, o.send, others);
  }

  lemma {:induction false} ReadUpstreamHolds(l: Limits, s: State, t: Task, now: nat, o: Outcome, others: set<Txid>)
    requires Inv(l, s) && Holds(s, t) && t.op == Replying && Held(s, others)
    ensures Held(ReadUpstream(l, s, t, now, o), others)
  {
    hide Inv, QueueResponse, AnswerClient, FirstFree, Held;
    AnswerHolds(l, s, t, now, o.send, others);
    if o.reply.ReplyRejectsEdns? && t.txid.Some? {
      var free := FirstFree(s.txids, t.txid.value.address, o.reply.draws);
      if free.Some? {
        FirstFreeExactly(s.txids, t.txid.value.address, o.reply.draws);
        var t1 := Retried(t, free.value);
        RetryKeeps(l, s, t, t1, now);
        RetryHolds(s, t1, now, others);
        AnswerHolds(l, RetriedState(s, t1, now), t1, now, o.send, others);
      }
    }
  }

  lemma {:induction false} RetryHolds(s: State, t1: Task, now: nat, others: set<Txid>)
    requires Held(s, others) && t1.txid.Some? && t1.txid.value !in s.txids
    ensures Held(RetriedState(s, t1, now), others)
  {
    hide TasksHold, Put;
    PutFreshHolds(s.tasks, s.txids, others, t1.upstreamFd, t1, now);
  }

  lemma {:induction false} ReadyHolds(l: Limits, s: State, fd: int, now: nat, o: Outcome, others: set<Txid>)
    requires Inv(l, s) && (o.request.Routed? ==> UpstreamFresh(s, o.request.upstream)) && Held(s, others)
    ensures Held(Receive(l, s, fd, now, o), others)
  {
    hide Inv, WriteToClient, ReadFromClient, WriteUpstream, ReadUpstream, Held;
    if fd in s.tasks && s.tasks[fd].upstreamFd == fd {
      var t := s.tasks[fd];
      match t.op {
        case Writing => WriteToClientHolds(l, s, t, o.write, others);
        case Reading => ReadFromClientHolds(l, s, t, now, o, others);
        case Forwarding => WriteUpstreamHolds(l, s, t, now, o, others);
        case Replying => ReadUpstreamHolds(l, s, t, now, o, others);
      }
    }
  }

  lemma {:induction false} WriteToClientHolds(l: Limits, s: State, t: Task, result: WriteResult, others: set<Txid>)
    requires Inv(l, s) && Holds(s, t) && t.op == Writing && Held(s, others)
    ensures Held(WriteToClient(s, t, result), others)
  {
    hide Inv, FinishTask, TasksHold;
    FinishHolds(l, s, t, others);
  }

  lemma {:induction false} ExpireAllHolds(l: Limits, s: State, expired: seq<Task>, sends: seq<SendOutcome>, now: nat,
                                          others: set<Txid>)
    requires Inv(l, s) && |sends| == |expired| && Snapshot(s, expired) && Held(s, others)
    ensures Held(ExpireAll(l, s, expired, sends, now), others)
    decreases |expired|
  {
    hide Inv, ExpireOne, Held;
    if expired != [] {
      var r := ExpireOne(l, s, expired[0], now, sends[0]);
      ExpireOneKeeps(l, s, expired[0], now, sends[0]);
      ExpireOneAffects(l, s, expired[0], now, sends[0]);
      ExpireOneHolds(l, s, expired[0], now, sends[0], others);
      ExpireAllHolds(l, r, expired[1..], sends[1..], now, others);
    }
  }

  lemma {:induction false} ExpireOneHolds(l: Limits, s: State, t: Task, now: nat, o: SendOutcome, others: set<Txid>)
    requires Inv(l, s) && Held(s, others)
    requires t.upstreamFd in s.tasks && s.tasks[t.upstreamFd].id == t.id ==> Holds(s, t)
    ensures Held(ExpireOne(l, s, t, now, o), others)
  {
    hide Inv, AnswerClient, FinishTask, Held;
    if Holds(s, t) {
      if Forwards(t) {
        AnswerHolds(l, s, t, now, o, others);
      } else {
        FinishHolds(l, s, t, others);
      }
    }
  }

  lemma {:induction false} AcceptHolds(l: Limits, s: State, fd: int, allowed: bool, now: nat, others: set<Txid>)
    requires Held(s, others)
    ensures Held(AcceptClient(l, s, fd, allowed, now), others)
  {
    hide TasksHold, Put;
    var t := Task(s.nextId, Reading, fd, -1, s.nextSerial, true, None, now + l.clientTimeout);
    PutHolds(s.tasks, s.txids, others, fd, t);
  }

  /** Whatever the TCP side does, its tasks' ids stay theirs, and it neither takes nor frees anybody else's. */
  lemma {:induction false} StepKeepsHeld(l: Limits, s: State, e: Event, others: set<Txid>)
    requires Inv(l, s) && Possible(l, s, e) && !e.UdpWork? && Held(s, others)
    ensures Held(Step(l, s, e), others)
  {
    hide Inv, Receive, ExpireAll, AcceptClient, Overdue, Fresh, Held;
    match e {
      case Accept(fd, allowed, now) => AcceptHolds(l, s, fd, allowed, now, others);
      case Ready(fd, now, o) => ReadyHolds(l, s, fd, now, o, others);
      case Expire(expired, sends, now) =>
        OverdueIsSnapshot(l, s, expired, now);
        ExpireAllHolds(l, s, expired, sends, now, others);
    }
  }
}
