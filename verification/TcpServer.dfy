/** The TCP side as the program runs it: a table of tasks by descriptor, changed event by event. */
module TcpServer {
  import opened Bytes
  import opened Txids
  import opened TcpTasks
  import opened TcpResults

  class Server {
    const limits: Limits
    var open: map<int, nat>
    var nextSerial: nat
    var tasksByFd: map<int, Task>
    const listeners: set<int>
    var channels: set<int>
    var udpInFlight: nat
    var nextId: nat
    var txids: map<Txid, nat>
    var answered: seq<Answer>

    ghost function Snap(): State
      reads this
    {
      State(open, nextSerial, tasksByFd, listeners + channels, udpInFlight, nextId, txids, answered)
    }

    ghost predicate Valid()
      reads this
    {
      Inv(limits, Snap())
    }

    constructor (limits: Limits, listeners: set<int>, open: map<int, nat>, nextSerial: nat)
      requires Init(State(open, nextSerial, map[], listeners, 0, 0, map[], []))
      ensures Valid() && Init(Snap()) && this.limits == limits
    {
      this.limits, this.listeners, this.open, this.nextSerial := limits, listeners, open, nextSerial;
      channels, tasksByFd, udpInFlight, nextId, txids, answered := {}, map[], 0, 0, map[], [];
      new;
      assert listeners + {} == listeners;
      var s := Snap();
      RunKeepsInvariant(limits, [s], [], 0);
    }

    method ActiveTaskCount() returns (n: nat)
      ensures n == |tasksByFd| + udpInFlight
    {
      n := |tasksByFd| + udpInFlight;
    }

    // ----- The operating system -----

    /** Closing what is not open could close another client's connection. */
    method Close(fd: int)
      requires fd in open
      modifies this
      ensures Snap() == Closed(old(Snap()), fd)
    {
      open := open - {fd};
    }

    method Open(fd: int)
      requires fd !in open
      modifies this
      ensures Snap() == Opened(old(Snap()), fd)
    {
      open := open[fd := nextSerial];
      nextSerial := nextSerial + 1;
    }

    method NextLocalTransactionId() returns (id: nat)
      modifies this
      ensures id == old(nextId)
      ensures Snap() == old(Snap()).(nextId := old(nextId) + 1)
    {
      id := nextId;
      nextId := nextId + 1;
    }

    // ----- Transaction ids -----

    method AllocateTxid(address: nat, draws: seq<uint16>, now: nat) returns (id: Option<uint16>)
      modifies this
      ensures id == FirstFree(old(txids), address, draws)
      ensures Snap() == if id.None? then old(Snap()) else Filed(old(Snap()), Txid(address, id.value), now)
    {
      id := DrawFree(txids, address, draws);
      if id.Some? {
        txids := txids[Txid(address, id.value) := now];
      }
    }

    /** Only a task that forwards has an id to release. */
    method ReleaseTxid(t: Task)
      modifies this
      ensures Snap() == Released(old(Snap()), t)
    {
      if t.txid.Some? {
        txids := Txids.ReleaseTxid(txids, t.txid.value);
      }
    }

    // ----- Tasks -----

    method PushTask(t: Task, now: nat, timeout: nat)
      requires t.upstreamFd in open
      modifies this
      ensures Snap() == TcpTasks.PushTask(old(Snap()), t, now, timeout)
    {
      tasksByFd := Put(tasksByFd, t.upstreamFd, t.(deadline := now + timeout));
    }

    method FinishTask(t: Task, closeClient: bool)
      requires t.upstreamFd in open && t.upstreamFd != -1
      requires closeClient && t.clientFd != -1 && t.clientFd != t.upstreamFd ==> t.clientFd in open
      modifies this
      ensures Snap() == TcpTasks.FinishTask(old(Snap()), t, closeClient)
    {
      var fd := t.upstreamFd;
      if fd in tasksByFd && tasksByFd[fd].id == t.id {
        tasksByFd := Drop(tasksByFd, fd);
      }
      Close(fd);
      if closeClient && t.clientFd != -1 && t.clientFd != fd {
        Close(t.clientFd);
      }
      ReleaseTxid(t);
    }

    /** The reply to `asker`, on whatever connection the descriptor now stands for. */
    method SendReply(fd: int, asker: nat, now: nat, o: SendOutcome) returns (ok: bool)
      requires fd in open
      modifies this
      ensures Sent(Snap(), ok) == TcpTasks.SendReply(limits, old(Snap()), fd, asker, now, o)
    {
      if !o.encoded || fd == -1 {
        return false;
      }
      if fd !in tasksByFd {
        var active := ActiveTaskCount();
        if active >= limits.maxTasks {
          return false;
        }
        var id := NextLocalTransactionId();
        PushTask(Task(id, Writing, fd, -1, asker, true, None, 0), now, limits.tcpUpstreamTimeout);
        return true;
      }
      tasksByFd := Put(tasksByFd, fd, tasksByFd[fd].(op := Writing, asker := asker));
      return o.polled;
    }

    method AnswerClient(t: Task, now: nat, o: SendOutcome)
      requires Valid() && Holds(Snap(), t) && Forwards(t)
      modifies this
      ensures Valid() && Snap() == TcpTasks.AnswerClient(limits, old(Snap()), t, now, o)
    {
      hide Inv, TcpTasks.FinishTask, TcpTasks.SendReply, Closed;
      OpenForAnswer(limits, Snap(), t, now, o);
      AnswerKeeps(limits, Snap(), t, now, o);
      FinishTask(t, false);
      var ok := SendReply(t.clientFd, t.asker, now, o);
      if !ok {
        Close(t.clientFd);
      }
    }

    method QueueTcpResponse(t: Task, now: nat, o: SendOutcome)
      requires Valid() && Holds(Snap(), t) && Forwards(t)
      modifies this
      ensures Valid() && Snap() == QueueResponse(limits, old(Snap()), t, now, o)
    {
      hide Inv, TcpTasks.FinishTask, TcpTasks.AnswerClient;
      if t.clientFd == -1 {
        OpenForFinish(limits, Snap(), t);
        FinishTask(t, true);
      } else {
        AnswerClient(t, now, o);
      }
    }

    method ReplyOrFinish(t: Task, now: nat, o: SendOutcome)
      requires Valid() && !Forwards(t) && IsStale(Snap(), t)
      modifies this
      ensures Valid() && Snap() == TcpTasks.ReplyOrFinish(limits, old(Snap()), t, now, o)
    {
      hide Inv, TcpTasks.FinishTask, TcpTasks.SendReply;
      ghost var whole :| Holds(Snap(), whole) && whole == t.(op := whole.op) && !Forwards(whole);
      ghost var s := Snap();
      OpenForReply(limits, s, whole, t.asker, now, o);
      ReplyOrFinishKeeps(limits, s, whole, now, o);
      StaleReply(limits, s, t, whole, now, o);
      var ok := SendReply(t.upstreamFd, t.asker, now, o);
      if !ok {
        FinishTask(t, true);
      }
    }

    // ----- Events -----

    method ProcessTcp(fd: int, allowed: bool, now: nat)
      requires Valid() && Fresh(Snap(), fd)
      modifies this
      ensures Valid() && Snap() == AcceptClient(limits, old(Snap()), fd, allowed, now)
    {
      hide Inv;
      AcceptKeeps(limits, Snap(), fd, allowed, now);
      var connection := nextSerial;
      Open(fd);
      if !allowed {
        Close(fd);
        return;
      }
      var active := ActiveTaskCount();
      if active >= limits.maxTasks {
        Close(fd);
        return;
      }
      if |tasksByFd| >= limits.maxClients {
        Close(fd);
        return;
      }
      var id := NextLocalTransactionId();
      PushTask(Task(id, Reading, fd, -1, connection, true, None, 0), now, limits.clientTimeout);
    }

    method ForwardTcp(t: Task, now: nat, u: Upstream) returns (ok: bool)
      requires UpstreamFresh(Snap(), u)
      modifies this
      ensures Sent(Snap(), ok) == TcpTasks.ForwardTcp(limits, old(Snap()), t, now, u)
    {
      hide FirstFree;
      var id := NextLocalTransactionId();
      match u {
        case BadFamily =>
          return false;
        case NoSocket =>
          return false;
        case Socket(fd, address, draws, connected) =>
          Open(fd);
          var txid := AllocateTxid(address, draws, now);
          if txid.None? {
            return false;
          }
          if !connected {
            Close(fd);
            return false;
          }
          var it := Txid(address, txid.value);
          PushTask(Task(id, Forwarding, fd, t.upstreamFd, t.asker, true, Some(it), 0), now, limits.upstreamTimeout);
          return true;
      }
    }

    method ProcessReceive(fd: int, now: nat, o: Outcome)
      requires Valid() && (o.request.Routed? ==> UpstreamFresh(Snap(), o.request.upstream))
      modifies this
      ensures Valid() && Snap() == Receive(limits, old(Snap()), fd, now, o)
    {
      hide Inv, WriteToClient, ReadFromClient, WriteUpstream, ReadUpstream;
      if fd in listeners + channels || fd !in tasksByFd {
        return;
      }
      var t := tasksByFd[fd];
      if t.upstreamFd != fd {
        return;
      }
      match t.op {
        case Writing => ReceiveWriting(t, o.write);
        case Reading => ReceiveReading(t, now, o);
        case Forwarding => ReceiveForwarding(t, now, o);
        case Replying => ReceiveReplying(t, now, o);
      }
    }

    method ReceiveWriting(t: Task, result: WriteResult)
      requires Valid() && Holds(Snap(), t) && t.op == Writing
      modifies this
      ensures Valid() && Snap() == WriteToClient(old(Snap()), t, result)
    {
      WriteToClientKeeps(limits, Snap(), t, result);
      assert TaskOwns(Snap(), t.upstreamFd);
      hide Inv, TcpTasks.FinishTask, TaskOwns;
      match result {
        case WriteNeedMore =>
        case WriteError => FinishTask(t, true);
        case WriteDone =>
          var connection := open[t.upstreamFd];
          FinishTask(t, true);
          answered := answered + [Answer(connection, t.asker)];
      }
    }

    method ReceiveReading(t: Task, now: nat, o: Outcome)
      requires Valid() && Holds(Snap(), t) && t.op == Reading
      requires o.request.Routed? ==> UpstreamFresh(Snap(), o.request.upstream)
      modifies this
      ensures Valid() && Snap() == ReadFromClient(limits, old(Snap()), t, now, o)
    {
      hide Inv, TcpTasks.ReplyOrFinish, TcpTasks.SendReply, TcpTasks.ForwardTcp, TcpTasks.FinishTask, Encoded;
      ReadFromClientKeeps(limits, Snap(), t, now, o);
      OpenForReply(limits, Snap(), t, t.asker, now, o.send);
      match o.request {
        case NotYet =>
        case Garbled => ReplyOrFinish(t, now, o.send);
        case Unwanted => FinishTask(t, true);
        case Refused => ReplyOrFinish(t, now, o.send);
        case Local(reply, polled) => ProcessLocal(t, now, SendOutcome(Encoded(reply), polled));
        case Unroutable(first) => ProcessUnroutable(t, now, first, o.send);
        case Routed(u) => ProcessRouted(t, now, u, o.send);
      }
    }

    method ProcessLocal(t: Task, now: nat, local: SendOutcome)
      requires Valid() && Holds(Snap(), t) && t.op == Reading
      modifies this
      ensures Valid()
      ensures var sent := TcpTasks.SendReply(limits, old(Snap()), t.upstreamFd, t.asker, now, local);
              forall o :: Snap() == AfterQuery(limits, old(Snap()), t, now, Sent(sent.state, true), o)
    {
      hide Inv, TcpTasks.SendReply;
      ghost var s := Snap();
      OpenForReply(limits, s, t, t.asker, now, local);
      ReplyKeeps(limits, s, t, now, local);
      ForgetKeeps(limits, TcpTasks.SendReply(limits, s, t.upstreamFd, t.asker, now, local).state, t.upstreamFd);
      var _ := SendReply(t.upstreamFd, t.asker, now, local);
      ReleaseClient(t);
    }

    /** A reply may have been started in the task itself; otherwise the client is someone else's by now. */
    method ReleaseClient(t: Task)
      requires t.upstreamFd in open
      modifies this
      ensures Snap() == if t.upstreamFd in old(tasksByFd) && old(tasksByFd)[t.upstreamFd].op == Writing then old(Snap())
                        else old(Snap()).(tasks := Drop(old(tasksByFd), t.upstreamFd))
    {
      if t.upstreamFd in tasksByFd && tasksByFd[t.upstreamFd].op == Writing {
        return;
      }
      tasksByFd := Drop(tasksByFd, t.upstreamFd);
    }

    method ProcessUnroutable(t: Task, now: nat, first: SendOutcome, o: SendOutcome)
      requires Valid() && Holds(Snap(), t) && t.op == Reading
      modifies this
      ensures Valid()
      ensures var sent := TcpTasks.SendReply(limits, old(Snap()), t.upstreamFd, t.asker, now, first);
              Snap() == AfterQuery(limits, old(Snap()), t, now, sent, o)
    {
      hide Inv, TcpTasks.SendReply, TcpTasks.ReplyOrFinish;
      ghost var s := Snap();
      OpenForReply(limits, s, t, t.asker, now, first);
      UnroutableKeeps(limits, s, t, now, first, o);
      ReplyKeeps(limits, s, t, now, first);
      ghost var w := t.(op := Writing);
      ChangeKeeps(limits, s, t, w);
      var ok := SendReply(t.upstreamFd, t.asker, now, first);
      if ok {
        ReleaseClient(t);
      } else {
        assert Holds(Snap(), if first.encoded then w else t);
        ReplyOrFinish(t, now, o);
      }
    }

    method ProcessRouted(t: Task, now: nat, u: Upstream, o: SendOutcome)
      requires Valid() && Holds(Snap(), t) && t.op == Reading && UpstreamFresh(Snap(), u)
      modifies this
      ensures Valid()
      ensures Snap() == AfterQuery(limits, old(Snap()), t, now, TcpTasks.ForwardTcp(limits, old(Snap()), t, now, u), o)
    {
      hide Inv, TcpTasks.ForwardTcp, TcpTasks.ReplyOrFinish;
      ghost var s := Snap();
      RoutedKeeps(limits, s, t, now, u, o);
      UnroutedKeeps(limits, s, t, now, u);
      var ok := ForwardTcp(t, now, u);
      if ok {
        ReleaseClient(t);
      } else {
        ReplyOrFinish(t, now, o);
      }
    }

    method ReceiveForwarding(t: Task, now: nat, o: Outcome)
      requires Valid() && Holds(Snap(), t) && t.op == Forwarding
      modifies this
      ensures Valid() && Snap() == WriteUpstream(limits, old(Snap()), t, now, o)
    {
      hide Inv, QueueResponse;
      if !o.connected {
        QueueTcpResponse(t, now, o.send);
        return;
      }
      match o.write {
        case WriteNeedMore =>
        case WriteError => QueueTcpResponse(t, now, o.send);
        case WriteDone =>
          Continue(t, t.(op := Replying), now, o);
      }
    }

    method Continue(t: Task, t1: Task, now: nat, o: Outcome)
      requires Valid() && Holds(Snap(), t) && Forwards(t) && Forwards(t1)
      requires t1 == t.(op := t1.op, usedEdns := t1.usedEdns, txid := t1.txid) && (t.txid.Some? <==> t1.txid.Some?)
      modifies this
      ensures Valid()
      ensures Snap() ==
              var s1 := Changed(old(Snap()), t1);
              if o.polled then s1 else QueueResponse(limits, s1, t1, now, o.send)
    {
      hide Inv, QueueResponse;
      ChangeKeeps(limits, Snap(), t, t1);
      tasksByFd := Put(tasksByFd, t.upstreamFd, t1);
      if !o.polled {
        QueueTcpResponse(t1, now, o.send);
      }
    }

    method ReceiveReplying(t: Task, now: nat, o: Outcome)
      requires Valid() && Holds(Snap(), t) && t.op == Replying
      modifies this
      ensures Valid() && Snap() == ReadUpstream(limits, old(Snap()), t, now, o)
    {
      hide Inv, QueueResponse;
      match o.reply {
        case ReplyNotYet =>
        case ReplyBad => QueueTcpResponse(t, now, o.send);
        case ReplyGood => QueueTcpResponse(t, now, o.send);
        case ReplyRejectsEdns(draws) =>
          if !t.usedEdns || t.txid.None? {
            QueueTcpResponse(t, now, o.send);
            return;
          }
          RetryWithoutEdns(t, now, draws, o);
      }
    }

    method RetryWithoutEdns(t: Task, now: nat, draws: seq<uint16>, o: Outcome)
      requires Valid() && Holds(Snap(), t) && t.op == Replying && t.usedEdns && t.txid.Some?
      requires o.reply == ReplyRejectsEdns(draws)
      modifies this
      ensures Valid() && Snap() == ReadUpstream(limits, old(Snap()), t, now, o)
    {
      hide Inv, QueueResponse, FirstFree;
      ghost var s := Snap();
      var id := AllocateTxid(t.txid.value.address, draws, now);
      if id.None? {
        QueueTcpResponse(t, now, o.send);
        return;
      }
      TxidsKeep(limits, s, txids);
      Continue(t, Retried(t, id.value), now, o);
    }

    method CleanExpired(expired: seq<Task>, sends: seq<SendOutcome>, now: nat)
      requires Valid() && |sends| == |expired| && Overdue(Snap(), expired, now)
      modifies this
      ensures Valid() && Snap() == ExpireAll(limits, old(Snap()), expired, sends, now)
    {
      hide Inv, ExpireOne, Overdue;
      ghost var s := Snap();
      OverdueIsSnapshot(limits, s, expired, now);
      assert expired[0..] == expired && sends[0..] == sends;
      for i := 0 to |expired|
        invariant Valid() && Snapshot(Snap(), expired[i..])
        invariant ExpireAll(limits, Snap(), expired[i..], sends[i..], now) == ExpireAll(limits, s, expired, sends, now)
      {
        assert expired[i..][1..] == expired[i + 1..] && sends[i..][1..] == sends[i + 1..];
        assert expired[i..][0] == expired[i];
        CleanOne(expired[i], expired[i + 1..], now, sends[i]);
      }
    }

    method CleanOne(t: Task, ghost rest: seq<Task>, now: nat, o: SendOutcome)
      requires Valid() && Snapshot(Snap(), [t] + rest)
      modifies this
      ensures Valid() && Snapshot(Snap(), rest)
      ensures Snap() == ExpireOne(limits, old(Snap()), t, now, o)
    {
      hide Inv, TcpTasks.FinishTask, TcpTasks.AnswerClient;
      ghost var s := Snap();
      assert ([t] + rest)[0] == t && ([t] + rest)[1..] == rest;
      ExpireOneKeeps(limits, s, t, now, o);
      ExpireOneAffects(limits, s, t, now, o);
      if t.upstreamFd == -1 || t.upstreamFd !in tasksByFd || tasksByFd[t.upstreamFd].id != t.id {
        return;
      }
      if Forwards(t) {
        AnswerClient(t, now, o);
      } else {
        OpenForReply(limits, s, t, t.asker, now, o);
        FinishTask(t, true);
      }
    }
  }

  /** The table has this task, though perhaps in another operation by now. */
  ghost predicate IsStale(s: State, t: Task) {
    exists whole :: Holds(s, whole) && whole == t.(op := whole.op) && !Forwards(whole)
  }

  // ----- What is open when it is needed -----

  lemma {:induction false} OpenForAnswer(l: Limits, s: State, t: Task, now: nat, o: SendOutcome)
    requires Inv(l, s) && Holds(s, t) && Forwards(t)
    ensures t.upstreamFd in s.open && t.upstreamFd != -1 && t.clientFd in s.open && t.clientFd != -1 &&
            t.clientFd != t.upstreamFd
    ensures t.clientFd in FinishTask(s, t, false).open
    ensures t.clientFd in SendReply(l, FinishTask(s, t, false), t.clientFd, t.asker, now, o).state.open
  {
    assert TaskOwns(s, t.upstreamFd);
  }

  lemma {:induction false} OpenForFinish(l: Limits, s: State, t: Task)
    requires Inv(l, s) && Holds(s, t)
    ensures t.upstreamFd in s.open && t.upstreamFd != -1
    ensures t.clientFd != -1 ==> t.clientFd in s.open
    ensures Inv(l, FinishTask(s, t, true))
  {
    assert TaskOwns(s, t.upstreamFd);
    FinishKeeps(l, s, t);
  }

  lemma {:induction false} OpenForReply(l: Limits, s: State, t: Task, asker: nat, now: nat, o: SendOutcome)
    requires Inv(l, s) && Holds(s, t) && !Forwards(t)
    ensures t.upstreamFd in s.open && t.upstreamFd != -1 && t.clientFd == -1
    ensures SendReply(l, s, t.upstreamFd, asker, now, o).state.open == s.open
  {
    assert TaskOwns(s, t.upstreamFd);
  }

  /** A client whose question could not be forwarded still has its task. */
  lemma {:induction false} UnroutedKeeps(l: Limits, s: State, t: Task, now: nat, u: Upstream)
    requires Inv(l, s) && Holds(s, t) && t.op == Reading && UpstreamFresh(s, u)
    ensures var sent := ForwardTcp(l, s, t, now, u);
            && t.upstreamFd in sent.state.open
            && (!sent.ok ==> Inv(l, sent.state) && Holds(sent.state, t))
  {
    assert TaskOwns(s, t.upstreamFd);
    hide Inv, TaskOwns, FirstFree;
    if Connected(s, u).None? {
      UnconnectedKeeps(l, s, t, now, u);
      StaysOpen(l, ForwardTcp(l, s, t, now, u).state, t);
    }
  }

  lemma {:induction false} StaysOpen(l: Limits, s: State, t: Task)
    requires Inv(l, s) && Holds(s, t)
    ensures t.upstreamFd in s.open
  {
    assert TaskOwns(s, t.upstreamFd);
  }
}
