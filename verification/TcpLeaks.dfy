/** Which descriptors the TCP side loses track of, and when. */
module TcpLeaks {
  import opened Bytes
  import opened Txids
  import opened TcpTasks
  import opened TcpResults

  ghost predicate IsClient(tasks: map<int, Task>, fd: int) {
    exists g :: g in tasks && HasClient(tasks[g], fd)
  }

  /** Open, and nothing will ever close it. */
  ghost predicate Lost(s: State, fd: int) {
    fd in s.open && fd !in s.system && fd !in s.tasks && !IsClient(s.tasks, fd)
  }

  /**
    * What a step loses: a new socket for which every draw of a transaction id is taken, and a client whose
    * local reply cannot be encoded.
    */
  function Loses(s: State, e: Event): set<int> {
    if e.Ready? && e.fd !in s.system && e.fd in s.tasks && s.tasks[e.fd].op == Reading then
      match e.outcome.request
      case Routed(u) => Stranded(s, u)
      case Local(reply, _) => if Encoded(reply) then {} else {e.fd}
      case _ => {}
    else {}
  }

  /** The new socket, if it is opened and no transaction id can be had for it. */
  function Stranded(s: State, u: Upstream): set<int> {
    if u.Socket? && FirstFree(s.txids, u.address, u.draws).None? then {u.fd} else {}
  }

  ghost predicate LosesJust(s: State, r: State, lost: set<int>) {
    forall fd :: Lost(r, fd) <==> Lost(s, fd) || fd in lost
  }

  // ----- Clients of changed tables -----

  predicate HasClient(t: Task, fd: int) {
    Forwards(t) && t.clientFd == fd
  }

  lemma {:induction false} ClientsAfterDrop(s: State, gone: int)
    requires Ownership(s) && gone in s.tasks
    ensures forall fd :: IsClient(Drop(s.tasks, gone), fd) <==> IsClient(s.tasks, fd) && !HasClient(s.tasks[gone], fd)
  {
    var r := Drop(s.tasks, gone);
    forall fd ensures IsClient(r, fd) <==> IsClient(s.tasks, fd) && !HasClient(s.tasks[gone], fd) {
      if IsClient(r, fd) {
        var g :| g in r && HasClient(r[g], fd);
        assert Disjoint(s, g, gone);
        assert g in s.tasks && HasClient(s.tasks[g], fd);
      }
      if IsClient(s.tasks, fd) && !HasClient(s.tasks[gone], fd) {
        var g :| g in s.tasks && HasClient(s.tasks[g], fd);
        assert g in r && HasClient(r[g], fd);
      }
    }
  }

  lemma {:induction false} ClientsAfterPut(tasks: map<int, Task>, at: int, t: Task)
    requires at in tasks ==> forall fd :: HasClient(tasks[at], fd) ==> HasClient(t, fd)
    ensures forall fd :: IsClient(Put(tasks, at, t), fd) <==> IsClient(tasks, fd) || HasClient(t, fd)
  {
    var r := Put(tasks, at, t);
    forall fd ensures IsClient(r, fd) <==> IsClient(tasks, fd) || HasClient(t, fd) {
      if IsClient(r, fd) {
        var g :| g in r && HasClient(r[g], fd);
        assert g != at ==> g in tasks && HasClient(tasks[g], fd);
      }
      if IsClient(tasks, fd) {
        var g :| g in tasks && HasClient(tasks[g], fd);
        assert g in r && HasClient(r[g], fd);
      }
      if HasClient(t, fd) {
        assert at in r && HasClient(r[at], fd);
      }
    }
  }

  lemma {:induction false} ClientIsHeld(l: Limits, s: State, t: Task)
    requires Inv(l, s) && Holds(s, t)
    ensures t.upstreamFd in s.open && t.upstreamFd !in s.system && t.upstreamFd != -1 &&
            !IsClient(s.tasks, t.upstreamFd)
    ensures Forwards(t) ==> t.clientFd in s.open && t.clientFd !in s.tasks && t.clientFd !in s.system
                            && t.clientFd != -1 && IsClient(s.tasks, t.clientFd)
    ensures !Forwards(t) ==> t.clientFd == -1
  {
    assert TaskOwns(s, t.upstreamFd);
    forall g | g in s.tasks ensures !HasClient(s.tasks[g], t.upstreamFd) {
      assert TaskOwns(s, g);
    }
    if Forwards(t) {
      assert HasClient(s.tasks[t.upstreamFd], t.clientFd);
    }
  }

  // ----- The changes a step is made of -----

  lemma {:induction false} FinishLoses(l: Limits, s: State, t: Task)
    requires Inv(l, s) && Holds(s, t)
    ensures LosesJust(s, FinishTask(s, t, true), {})
  {
    hide Delivery, Capacity, Serials, IsClient, Disjoint, TaskOwns, Drop, Put;
    ClientIsHeld(l, s, t);
    ClientsAfterDrop(s, t.upstreamFd);
    DropHolds(s.tasks, t.upstreamFd);
  }

  lemma {:induction false} DropHolds(tasks: map<int, Task>, fd: int)
    ensures Drop(tasks, fd).Keys == tasks.Keys - {fd}
  {
  }

  lemma {:induction false} AnswerLoses(l: Limits, s: State, t: Task, now: nat, o: SendOutcome)
    requires Inv(l, s) && Holds(s, t) && Forwards(t)
    ensures LosesJust(s, QueueResponse(l, s, t, now, o), {})
    ensures LosesJust(s, AnswerClient(l, s, t, now, o), {})
  {
    hide Delivery, Capacity, Serials, IsClient, Disjoint, TaskOwns, Drop, Put, AnswerClient, QueueResponse, LosesJust;
    AnswerIs(l, s, t, now, o);
    FinishLoses(l, s, t);
    TurnOverLoses(l, s, t, Task(s.nextId, Writing, t.clientFd, -1, t.asker, true, None, now + l.tcpUpstreamTimeout));
  }

  lemma {:induction false} TurnOverLoses(l: Limits, s: State, t: Task, w: Task)
    requires Inv(l, s) && Holds(s, t) && Forwards(t) && !Forwards(w)
    ensures LosesJust(s, TurnedOver(s, t, w), {})
  {
    hide Delivery, Capacity, Serials, IsClient, Disjoint, TaskOwns;
    ClientIsHeld(l, s, t);
    ClientsAfterDrop(s, t.upstreamFd);
    ClientsAfterPut(Drop(s.tasks, t.upstreamFd), t.clientFd, w);
  }

  lemma {:induction false} ChangeLoses(l: Limits, s: State, t: Task, t1: Task)
    requires Inv(l, s) && Holds(s, t)
    requires t1 == t.(op := t1.op, usedEdns := t1.usedEdns, txid := t1.txid) && (Forwards(t) <==> Forwards(t1))
    ensures LosesJust(s, Changed(s, t1), {})
  {
    hide Delivery, Capacity, Serials, IsClient, Disjoint, TaskOwns;
    ClientIsHeld(l, s, t);
    ClientsAfterPut(s.tasks, t.upstreamFd, t1);
  }

  lemma {:induction false} ReplyOrFinishLoses(l: Limits, s: State, t: Task, now: nat, o: SendOutcome)
    requires Inv(l, s) && Holds(s, t) && !Forwards(t)
    ensures LosesJust(s, ReplyOrFinish(l, s, t, now, o), {})
  {
    hide Delivery, Capacity, Serials, IsClient, Disjoint, TaskOwns, Drop, Put, ReplyOrFinish, LosesJust;
    ReplyOrFinishKeeps(l, s, t, now, o);
    FinishLoses(l, s, t);
    ChangeLoses(l, s, t, t.(op := Writing));
  }

  lemma {:induction false} OpenLoses(l: Limits, s: State, fd: int)
    requires Inv(l, s) && Fresh(s, fd)
    ensures LosesJust(s, Opened(s, fd), {fd})
  {
    hide Delivery, Capacity, Serials, Disjoint;
    assert TaskOwns(s, fd);
    forall g | g in s.tasks ensures !HasClient(s.tasks[g], fd) {
      assert TaskOwns(s, g);
    }
  }

  lemma {:induction false} HandOverLoses(l: Limits, s: State, t: Task, fd: int, it: Txid, now: nat)
    requires Inv(l, s) && Holds(s, t) && !Forwards(t) && Fresh(s, fd)
    ensures LosesJust(s, HandedOver(l, s, t, fd, it, now), {})
  {
    var w := Task(s.nextId, Forwarding, fd, t.upstreamFd, t.asker, true, Some(it), now + l.upstreamTimeout);
    var r := HandedOver(l, s, t, fd, it, now);
    assert TaskOwns(s, fd) && TaskOwns(s, t.upstreamFd);
    hide Delivery, Capacity, Serials, IsClient, Disjoint, TaskOwns;
    assert r.tasks == Put(Drop(s.tasks, t.upstreamFd), fd, w);
    ClientIsHeld(l, s, t);
    ClientsAfterDrop(s, t.upstreamFd);
    ClientsAfterPut(Drop(s.tasks, t.upstreamFd), fd, w);
    OpenLoses(l, s, fd);
  }

  lemma {:induction false} ForgetLoses(l: Limits, s: State, t: Task)
    requires Inv(l, s) && Holds(s, t) && !Forwards(t)
    ensures LosesJust(s, s.(tasks := Drop(s.tasks, t.upstreamFd)), {t.upstreamFd})
  {
    hide Delivery, Capacity, Serials, IsClient, Disjoint, TaskOwns;
    ClientIsHeld(l, s, t);
    ClientsAfterDrop(s, t.upstreamFd);
  }

  // ----- Steps -----

  lemma {:induction false} Chain(s: State, m: State, r: State, lost: set<int>)
    requires LosesJust(s, m, lost) && LosesJust(m, r, {})
    ensures LosesJust(s, r, lost)
  {
    forall fd ensures Lost(r, fd) <==> Lost(s, fd) || fd in lost {
      assert Lost(m, fd) <==> Lost(s, fd) || fd in lost;
    }
  }

  /** Only the descriptors, the tasks and the program's own descriptors decide what is lost. */
  lemma {:induction false} LossFrame(s: State, r: State)
    requires r.open.Keys == s.open.Keys && r.tasks == s.tasks && r.system == s.system
    ensures LosesJust(s, r, {})
  {
    hide IsClient;
  }

  lemma {:induction false} RoutedLoses(l: Limits, s: State, t: Task, now: nat, u: Upstream, o: SendOutcome)
    requires Inv(l, s) && Holds(s, t) && t.op == Reading && UpstreamFresh(s, u)
    ensures LosesJust(s, AfterQuery(l, s, t, now, ForwardTcp(l, s, t, now, u), o), Stranded(s, u))
  {
    hide Inv, AfterQuery, ReplyOrFinish, HandedOver, LosesJust, ForwardTcp, FirstFree;
    RoutedIs(l, s, t, now, u, o);
    match Connected(s, u) {
      case Some(it) =>
        HandOverLoses(l, s, t, u.fd, it, now);
      case None =>
        UnconnectedKeeps(l, s, t, now, u);
        UnconnectedLoses(l, s, t, now, u);
        var m := ForwardTcp(l, s, t, now, u).state;
        ReplyOrFinishLoses(l, m, t, now, o);
        Chain(s, m, ReplyOrFinish(l, m, t, now, o), Stranded(s, u));
    }
  }

  lemma {:induction false} UnconnectedLoses(l: Limits, s: State, t: Task, now: nat, u: Upstream)
    requires Inv(l, s) && Holds(s, t) && t.op == Reading && UpstreamFresh(s, u) && Connected(s, u).None?
    ensures LosesJust(s, ForwardTcp(l, s, t, now, u).state, Stranded(s, u))
  {
    hide Inv, LosesJust, FirstFree;
    var m := ForwardTcp(l, s, t, now, u).state;
    if !u.Socket? {
      LossFrame(s, m);
    } else if FirstFree(s.txids, u.address, u.draws).None? {
      OpenAfterTick(l, s, u.fd);
    } else {
      assert m.open == s.open;
      LossFrame(s, m);
    }
  }

  lemma {:induction false} OpenAfterTick(l: Limits, s: State, fd: int)
    requires Inv(l, s) && Fresh(s, fd)
    ensures LosesJust(s, Opened(s.(nextId := s.nextId + 1), fd), {fd})
  {
    hide Inv, Lost, Opened;
    var s1 := s.(nextId := s.nextId + 1);
    TickKeeps(l, s);
    LossFrame(s, s1);
    OpenLoses(l, s1, fd);
    forall f ensures Lost(Opened(s1, fd), f) <==> Lost(s, f) || f in {fd} {
      assert Lost(s1, f) <==> Lost(s, f) || f in {};
    }
  }

  lemma {:induction false} LocalLoses(l: Limits, s: State, t: Task, now: nat, local: SendOutcome, o: SendOutcome)
    requires Inv(l, s) && Holds(s, t) && t.op == Reading
    ensures var sent := Sent(SendReply(l, s, t.upstreamFd, t.asker, now, local).state, true);
            LosesJust(s, AfterQuery(l, s, t, now, sent, o), if local.encoded then {} else {t.upstreamFd})
  {
    hide Inv, SendReply, ReplyOrFinish, LosesJust;
    ReplyKeeps(l, s, t, now, local);
    ForgetLoses(l, s, t);
    ChangeLoses(l, s, t, t.(op := Writing));
  }

  lemma {:induction false} UnroutableLoses(l: Limits, s: State, t: Task, now: nat, first: SendOutcome, o: SendOutcome)
    requires Inv(l, s) && Holds(s, t) && t.op == Reading
    ensures LosesJust(s, AfterQuery(l, s, t, now, SendReply(l, s, t.upstreamFd, t.asker, now, first), o), {})
  {
    hide Inv, SendReply, ReplyOrFinish, LosesJust;
    var w := t.(op := Writing);
    ReplyKeeps(l, s, t, now, first);
    if first.encoded {
      ChangeKeeps(l, s, t, w);
      ChangeLoses(l, s, t, w);
      if !first.polled {
        ReplyOrFinishLoses(l, Changed(s, w), w, now, o);
        StaleReply(l, Changed(s, w), t, w, now, o);
        Chain(s, Changed(s, w), ReplyOrFinish(l, Changed(s, w), t, now, o), {});
      }
    } else {
      ReplyOrFinishLoses(l, s, t, now, o);
    }
  }

  lemma {:induction false} NothingLost(s: State)
    ensures LosesJust(s, s, {})
  {
  }

  lemma {:induction false} ReadFromClientLoses(l: Limits, s: State, t: Task, now: nat, o: Outcome)
    requires Inv(l, s) && Holds(s, t) && t.op == Reading && t.upstreamFd !in s.system
    requires o.request.Routed? ==> UpstreamFresh(s, o.request.upstream)
    ensures LosesJust(s, ReadFromClient(l, s, t, now, o), Loses(s, Ready(t.upstreamFd, now, o)))
  {
    hide Inv, ReplyOrFinish, AfterQuery, SendReply, ForwardTcp, FinishTask, LosesJust, Encoded, Stranded;
    match o.request {
      case NotYet => NothingLost(s);
      case Garbled => ReplyOrFinishLoses(l, s, t, now, o.send);
      case Unwanted => FinishLoses(l, s, t);
      case Refused => ReplyOrFinishLoses(l, s, t, now, o.send);
      case Local(reply, polled) => LocalLoses(l, s, t, now, SendOutcome(Encoded(reply), polled), o.send);
      case Unroutable(first) => UnroutableLoses(l, s, t, now, first, o.send);
      case Routed(u) => RoutedLoses(l, s, t, now, u, o.send);
    }
  }

  lemma {:induction false} ForwardingLoses(l: Limits, s: State, t: Task, now: nat, o: Outcome)
    requires Inv(l, s) && Holds(s, t)
    ensures t.op == Forwarding ==> LosesJust(s, WriteUpstream(l, s, t, now, o), {})
    ensures t.op == Replying ==> LosesJust(s, ReadUpstream(l, s, t, now, o), {})
  {
    hide Inv, QueueResponse, AnswerClient, LosesJust, FirstFree;
    NothingLost(s);
    if Forwards(t) {
      AnswerLoses(l, s, t, now, o.send);
      ChangedAnswerLoses(l, s, t, t.(op := Replying), now, o.send);
      if o.reply.ReplyRejectsEdns? && t.txid.Some? {
        var free := FirstFree(s.txids, t.txid.value.address, o.reply.draws);
        if free.Some? {
          RetryLoses(l, s, t, Retried(t, free.value), now, o.send);
        }
      }
    }
  }

  lemma {:induction false} RetryLoses(l: Limits, s: State, t: Task, t1: Task, now: nat, o: SendOutcome)
    requires Inv(l, s) && Holds(s, t) && Forwards(t) && t.txid.Some? && t1.txid.Some?
    requires t1 == Retried(t, t1.txid.value.id)
    ensures LosesJust(s, RetriedState(s, t1, now), {})
    ensures LosesJust(s, QueueResponse(l, RetriedState(s, t1, now), t1, now, o), {})
  {
    hide Inv, QueueResponse, AnswerClient, LosesJust, Changed;
    var m, r := Filed(s, t1.txid.value, now), RetriedState(s, t1, now);
    TxidsKeep(l, s, m.txids);
    LossFrame(s, m);
    ChangedAnswerLoses(l, m, t, t1, now, o);
    Chain(s, m, r, {});
    Chain(s, m, QueueResponse(l, r, t1, now, o), {});
  }

  lemma {:induction false} ChangedAnswerLoses(l: Limits, s: State, t: Task, t1: Task, now: nat, o: SendOutcome)
    requires Inv(l, s) && Holds(s, t) && Forwards(t) && Forwards(t1)
    requires t1 == t.(op := t1.op, usedEdns := t1.usedEdns, txid := t1.txid) && (t.txid.Some? <==> t1.txid.Some?)
    ensures LosesJust(s, Changed(s, t1), {})
    ensures LosesJust(s, QueueResponse(l, Changed(s, t1), t1, now, o), {})
  {
    hide Inv, QueueResponse, AnswerClient, LosesJust;
    ChangeKeeps(l, s, t, t1);
    ChangeLoses(l, s, t, t1);
    AnswerLoses(l, Changed(s, t1), t1, now, o);
    Chain(s, Changed(s, t1), QueueResponse(l, Changed(s, t1), t1, now, o), {});
  }

  lemma {:induction false} WriteToClientLoses(l: Limits, s: State, t: Task, result: WriteResult)
    requires Inv(l, s) && Holds(s, t) && t.op == Writing
    ensures LosesJust(s, WriteToClient(s, t, result), {})
  {
    hide Inv, FinishTask;
    FinishLoses(l, s, t);
    var f, r := FinishTask(s, t, true), WriteToClient(s, t, result);
    forall fd ensures Lost(r, fd) <==> Lost(s, fd) || fd in {} {
      assert Lost(f, fd) <==> Lost(s, fd) || fd in {};
    }
  }

  lemma {:induction false} ExpireAllLoses(l: Limits, s: State, expired: seq<Task>, sends: seq<SendOutcome>, now: nat)
    requires Inv(l, s) && |sends| == |expired| && Snapshot(s, expired)
    ensures LosesJust(s, ExpireAll(l, s, expired, sends, now), {})
    decreases |expired|
  {
    hide Inv, ExpireOne, LosesJust;
    NothingLost(s);
    if expired != [] {
      var r := ExpireOne(l, s, expired[0], now, sends[0]);
      ExpireOneKeeps(l, s, expired[0], now, sends[0]);
      ExpireOneAffects(l, s, expired[0], now, sends[0]);
      ExpireOneLoses(l, s, expired[0], now, sends[0]);
      ExpireAllLoses(l, r, expired[1..], sends[1..], now);
      Chain(s, r, ExpireAll(l, s, expired, sends, now), {});
    }
  }

  lemma {:induction false} ExpireOneLoses(l: Limits, s: State, t: Task, now: nat, o: SendOutcome)
    requires Inv(l, s)
    requires t.upstreamFd in s.tasks && s.tasks[t.upstreamFd].id == t.id ==> Holds(s, t)
    ensures LosesJust(s, ExpireOne(l, s, t, now, o), {})
  {
    hide Inv, AnswerClient, FinishTask, LosesJust;
    NothingLost(s);
    if Holds(s, t) {
      if Forwards(t) {
        AnswerLoses(l, s, t, now, o);
      } else {
        FinishLoses(l, s, t);
      }
    }
  }

  lemma {:induction false} AcceptLoses(l: Limits, s: State, fd: int, allowed: bool, now: nat)
    requires Inv(l, s) && Fresh(s, fd)
    ensures LosesJust(s, AcceptClient(l, s, fd, allowed, now), {})
  {
    var r := AcceptClient(l, s, fd, allowed, now);
    OpenKeeps(l, s, fd);
    OpenLoses(l, s, fd);
    hide Inv, IsClient, Put;
    var t := Task(s.nextId, Reading, fd, -1, s.nextSerial, true, None, now + l.clientTimeout);
    ClientsAfterPut(s.tasks, fd, t);
  }

  lemma {:induction false} UdpLoses(l: Limits, s: State, udp: nat, sockets: seq<int>, txids: map<Txid, nat>)
    requires Inv(l, s) && Possible(l, s, UdpWork(udp, sockets, txids))
    ensures LosesJust(s, UdpStep(s, udp, sockets, txids), {})
  {
    hide Inv, LosesJust, OpenChannels;
    ChannelsLose(l, s, sockets);
    var m := OpenChannels(s, sockets);
    LossFrame(m, UdpStep(s, udp, sockets, txids));
    Chain(s, m, UdpStep(s, udp, sockets, txids), {});
  }

  lemma {:induction false} ChannelsLose(l: Limits, s: State, sockets: seq<int>)
    requires Inv(l, s) && AllFresh(s, sockets)
    ensures LosesJust(s, OpenChannels(s, sockets), {})
    decreases |sockets|
  {
    hide Inv, LosesJust;
    NothingLost(s);
    if sockets != [] {
      var s1 := Opened(s, sockets[0]).(system := s.system + {sockets[0]});
      OpenLoses(l, s, sockets[0]);
      ChannelLoses(s, sockets[0]);
      ChannelKeeps(l, s, sockets[0]);
      ChannelsLose(l, s1, sockets[1..]);
      Chain(s, s1, OpenChannels(s, sockets), {});
    }
  }

  /** A descriptor that becomes the program's own is not lost. */
  lemma {:induction false} ChannelLoses(s: State, fd: int)
    requires LosesJust(s, Opened(s, fd), {fd}) && fd !in s.open
    ensures LosesJust(s, Opened(s, fd).(system := s.system + {fd}), {})
  {
    hide IsClient;
    var r := Opened(s, fd).(system := s.system + {fd});
    forall f ensures Lost(r, f) <==> Lost(s, f) || f in {} {
      assert Lost(Opened(s, fd), f) <==> Lost(s, f) || f in {fd};
    }
  }

  lemma {:induction false} ReadyLoses(l: Limits, s: State, fd: int, now: nat, o: Outcome)
    requires Inv(l, s) && (o.request.Routed? ==> UpstreamFresh(s, o.request.upstream))
    ensures LosesJust(s, Receive(l, s, fd, now, o), Loses(s, Ready(fd, now, o)))
  {
    if fd in s.tasks {
      assert TaskOwns(s, fd);
    }
    hide Inv, LosesJust, WriteToClient, ReadFromClient, WriteUpstream, ReadUpstream;
    NothingLost(s);
    if fd in s.tasks && fd !in s.system {
      var t := s.tasks[fd];
      match t.op {
        case Writing => WriteToClientLoses(l, s, t, o.write);
        case Reading => ReadFromClientLoses(l, s, t, now, o);
        case _ => ForwardingLoses(l, s, t, now, o);
      }
    }
  }

  /**
    * A step loses track of a descriptor exactly in two cases: a new upstream socket when all hundred draws
    * of an id for it are taken, and the client's own descriptor when a reply made on the spot cannot be encoded.
    */
  lemma {:induction false} StepLosesExactly(l: Limits, s: State, e: Event)
    requires Inv(l, s) && Possible(l, s, e)
    ensures LosesJust(s, Step(l, s, e), Loses(s, e))
  {
    hide Inv, LosesJust, Receive, ExpireAll, AcceptClient, UdpStep, Overdue, Fresh;
    match e {
      case Accept(fd, allowed, now) => AcceptLoses(l, s, fd, allowed, now);
      case Ready(fd, now, o) => ReadyLoses(l, s, fd, now, o);
      case Expire(expired, sends, now) =>
        OverdueIsSnapshot(l, s, expired, now);
        ExpireAllLoses(l, s, expired, sends, now);
      case UdpWork(udp, sockets, txids) => UdpLoses(l, s, udp, sockets, txids);
    }
  }

  /** Nothing open is lost in a run exactly when no step of it was one of those. */
  lemma {:induction false} RunsLoseExactly(l: Limits, states: seq<State>, events: seq<Event>, i: nat)
    requires IsRun(l, states, events) && i < |states|
    ensures forall fd :: Lost(states[i], fd) <==> LostBefore(states, events, i, fd)
  {
    hide Lost, Loses, Inv, LostBefore;
    if i == 0 {
      NothingLostAtStart(states[0]);
      forall fd ensures !LostBefore(states, events, 0, fd) {
        LostBeforeGrows(states, events, 0, fd);
      }
    } else {
      RunKeepsInvariant(l, states, events, i - 1);
      RunsLoseExactly(l, states, events, i - 1);
      StepLosesExactly(l, states[i - 1], events[i - 1]);
      forall fd ensures Lost(states[i], fd) <==> LostBefore(states, events, i, fd) {
        LostBeforeGrows(states, events, i, fd);
        assert Lost(states[i - 1], fd) <==> LostBefore(states, events, i - 1, fd);
        assert Lost(states[i], fd) <==> Lost(states[i - 1], fd) || fd in Loses(states[i - 1], events[i - 1]);
      }
    }
  }

  ghost predicate LostBefore(states: seq<State>, events: seq<Event>, i: nat, fd: int)
    requires i <= |events| < |states|
  {
    exists j :: 0 <= j < i && fd in Loses(states[j], events[j])
  }

  lemma {:induction false} LostBeforeGrows(states: seq<State>, events: seq<Event>, i: nat, fd: int)
    requires i <= |events| < |states|
    ensures i == 0 ==> !LostBefore(states, events, i, fd)
    ensures i > 0 ==> (LostBefore(states, events, i, fd) <==>
                       LostBefore(states, events, i - 1, fd) || fd in Loses(states[i - 1], events[i - 1]))
  {
    hide Loses;
  }

  lemma {:induction false} NothingLostAtStart(s: State)
    requires Init(s)
    ensures forall fd :: !Lost(s, fd)
  {
  }
}
