/** What every run of the TCP side keeps. */
module TcpResults {
  import opened Bytes
  import opened Txids
  import opened TcpTasks

  // ----- The changes a step is made of -----

  lemma {:induction false} FinishKeeps(l: Limits, s: State, t: Task)
    requires Inv(l, s) && Holds(s, t)
    ensures Inv(l, FinishTask(s, t, true))
  {
    assert TaskOwns(s, t.upstreamFd);
    var r := FinishTask(s, t, true);
    forall fd ensures TaskOwns(r, fd) {
      assert TaskOwns(s, fd);
      assert Disjoint(s, fd, t.upstreamFd);
    }
    forall f, g ensures Disjoint(r, f, g) {
      assert Disjoint(s, f, g);
    }
  }

  lemma {:induction false} AnswerKeeps(l: Limits, s: State, t: Task, now: nat, o: SendOutcome)
    requires Inv(l, s) && Holds(s, t) && Forwards(t)
    ensures Inv(l, AnswerClient(l, s, t, now, o))
    ensures QueueResponse(l, s, t, now, o) == AnswerClient(l, s, t, now, o)
  {
    hide Delivery, Serials, Disjoint, TaskOwns;
    AnswerIs(l, s, t, now, o);
    if o.encoded {
      TurnOverKeeps(l, s, t, Task(s.nextId, Writing, t.clientFd, -1, t.asker, true, None, now + l.tcpUpstreamTimeout));
    } else {
      FinishKeeps(l, s, t);
    }
  }

  function TurnedOver(s: State, t: Task, w: Task): State {
    Released(s.(open := s.open - {t.upstreamFd}, tasks := Put(Drop(s.tasks, t.upstreamFd), t.clientFd, w),
                nextId := s.nextId + 1), t)
  }

  /** With its upstream task gone, the client's descriptor is free for a reply, and there is room for one. */
  lemma {:induction false} RoomForAnswer(l: Limits, s: State, t: Task)
    requires Inv(l, s) && Holds(s, t) && Forwards(t)
    ensures var m := FinishTask(s, t, false);
      && m == Released(s.(open := s.open - {t.upstreamFd}, tasks := Drop(s.tasks, t.upstreamFd)), t)
      && t.clientFd !in m.tasks && |m.tasks| + m.udp < l.maxTasks
    ensures t.clientFd != -1 && t.clientFd != t.upstreamFd
  {
    assert TaskOwns(s, t.upstreamFd);
    hide Delivery, Disjoint;
  }

  /** A reply to a forwarded question always finds room: its own upstream task has just made some. */
  lemma {:induction false} AnswerIs(l: Limits, s: State, t: Task, now: nat, o: SendOutcome)
    requires Inv(l, s) && Holds(s, t) && Forwards(t)
    ensures var w := Task(s.nextId, Writing, t.clientFd, -1, t.asker, true, None, now + l.tcpUpstreamTimeout);
            AnswerClient(l, s, t, now, o) ==
              if o.encoded then TurnedOver(s, t, w)
              else FinishTask(s, t, true)
    ensures QueueResponse(l, s, t, now, o) == AnswerClient(l, s, t, now, o)
  {
    hide Inv, FinishTask, Put, Drop;
    RoomForAnswer(l, s, t);
    if !o.encoded {
      FinishClosesBoth(l, s, t);
    }
  }

  lemma {:induction false} FinishClosesBoth(l: Limits, s: State, t: Task)
    requires Inv(l, s) && Holds(s, t) && Forwards(t)
    ensures FinishTask(s, t, true) == Closed(FinishTask(s, t, false), t.clientFd)
  {
    RoomForAnswer(l, s, t);
    assert TaskOwns(s, t.upstreamFd);
    hide Inv, TaskOwns;
  }

  lemma {:induction false} TurnOverKeeps(l: Limits, s: State, t: Task, w: Task)
    requires Inv(l, s) && Holds(s, t) && Forwards(t)
    requires w.upstreamFd == t.clientFd && w.id == s.nextId && !Forwards(w) && w.clientFd == -1 && w.asker == t.asker &&
            w.txid.None?
    ensures Inv(l, TurnedOver(s, t, w))
  {
    assert TaskOwns(s, t.upstreamFd);
    var r := TurnedOver(s, t, w);
    assert Delivery(r) && Serials(r) && Capacity(l, r);
    assert r.system <= r.open.Keys;
    forall fd ensures TaskOwns(r, fd) {
      assert TaskOwns(s, fd);
      assert Disjoint(s, fd, t.upstreamFd);
    }
    forall f, g ensures Disjoint(r, f, g) {
      assert TaskOwns(s, f) && TaskOwns(s, g);
      assert Disjoint(s, f, g);
    }
  }

  function Changed(s: State, t: Task): State {
    s.(tasks := Put(s.tasks, t.upstreamFd, t))
  }

  /** A task may change what it is doing, so long as it holds the same descriptors for the same client. */
  lemma {:induction false} ChangeKeeps(l: Limits, s: State, t: Task, t1: Task)
    requires Inv(l, s) && Holds(s, t)
    requires t1 == t.(op := t1.op, usedEdns := t1.usedEdns, txid := t1.txid)
    requires (Forwards(t) <==> Forwards(t1)) && (t.txid.Some? <==> t1.txid.Some?)
    ensures Inv(l, Changed(s, t1)) && Holds(Changed(s, t1), t1)
  {
    var r := Changed(s, t1);
    forall fd ensures TaskOwns(r, fd) {
      assert TaskOwns(s, fd);
      assert TaskOwns(s, t.upstreamFd);
    }
    forall f, g ensures Disjoint(r, f, g) {
      assert Disjoint(s, f, g);
    }
  }

  lemma {:induction false} ReplyKeeps(l: Limits, s: State, t: Task, now: nat, o: SendOutcome)
    requires Inv(l, s) && Holds(s, t) && !Forwards(t)
    ensures var sent := SendReply(l, s, t.upstreamFd, t.asker, now, o);
            && Inv(l, sent.state)
            && sent == (if o.encoded then Sent(Changed(s, t.(op := Writing)), o.polled) else Sent(s, false))
  {
    hide Delivery, Disjoint, Capacity, Put;
    assert TaskOwns(s, t.upstreamFd);
    ChangeKeeps(l, s, t, t.(op := Writing));
  }

  lemma {:induction false} ReplyOrFinishKeeps(l: Limits, s: State, t: Task, now: nat, o: SendOutcome)
    requires Inv(l, s) && Holds(s, t) && !Forwards(t)
    ensures Inv(l, ReplyOrFinish(l, s, t, now, o))
    ensures ReplyOrFinish(l, s, t, now, o) ==
            if o.encoded && o.polled then Changed(s, t.(op := Writing)) else FinishTask(s, t, true)
  {
    hide Delivery, Disjoint, Capacity, Put, SendReply, FinishTask;
    assert TaskOwns(s, t.upstreamFd);
    ReplyKeeps(l, s, t, now, o);
    FinishKeeps(l, s, t);
    if o.encoded {
      ChangeKeeps(l, s, t, t.(op := Writing));
      FinishKeeps(l, Changed(s, t.(op := Writing)), t.(op := Writing));
      ChangedFinish(s, t, t.(op := Writing));
    }
  }

  lemma {:induction false} ChangedFinish(s: State, t: Task, t1: Task)
    requires Holds(s, t) && t1 == t.(op := t1.op) && t.upstreamFd != -1
    ensures FinishTask(Changed(s, t1), t, true) == FinishTask(s, t, true)
  {
    assert Drop(Put(s.tasks, t.upstreamFd, t1), t.upstreamFd) == Drop(s.tasks, t.upstreamFd);
  }

  /** A descriptor is opened that no task has yet. */
  lemma {:induction false} OpenKeeps(l: Limits, s: State, fd: int)
    requires Inv(l, s) && Fresh(s, fd)
    ensures Inv(l, Opened(s, fd)) && fd !in s.tasks && fd !in s.system
    ensures Inv(l, Closed(Opened(s, fd), fd)) && Closed(Opened(s, fd), fd) == s.(nextSerial := s.nextSerial + 1)
  {
    assert TaskOwns(s, fd);
    var r, c := Opened(s, fd), Closed(Opened(s, fd), fd);
    assert c.open == s.open;
    forall f ensures TaskOwns(r, f) && TaskOwns(c, f) {
      assert TaskOwns(s, f);
    }
    forall f, g ensures Disjoint(r, f, g) && Disjoint(c, f, g) {
      assert Disjoint(s, f, g);
    }
  }

  lemma {:induction false} TickKeeps(l: Limits, s: State)
    requires Inv(l, s)
    ensures Inv(l, s.(nextId := s.nextId + 1))
  {
    var r := s.(nextId := s.nextId + 1);
    forall f ensures TaskOwns(r, f) {
      assert TaskOwns(s, f);
    }
    forall f, g ensures Disjoint(r, f, g) {
      assert Disjoint(s, f, g);
    }
  }

  lemma {:induction false} AcceptKeeps(l: Limits, s: State, fd: int, allowed: bool, now: nat)
    requires Inv(l, s) && Fresh(s, fd)
    ensures Inv(l, AcceptClient(l, s, fd, allowed, now))
  {
    OpenKeeps(l, s, fd);
    var s1, r := Opened(s, fd), AcceptClient(l, s, fd, allowed, now);
    if !(!allowed || |s.tasks| + s.udp >= l.maxTasks || |s.tasks| >= l.maxClients) {
      forall f ensures TaskOwns(r, f) {
        assert TaskOwns(s1, f) && TaskOwns(s, f);
      }
      forall f, g ensures Disjoint(r, f, g) {
        assert TaskOwns(s1, f) && TaskOwns(s1, g);
        assert Disjoint(s1, f, g);
      }
    }
  }

  function HandedOver(l: Limits, s: State, t: Task, fd: int, it: Txid, now: nat): State {
    var w := Task(s.nextId, Forwarding, fd, t.upstreamFd, t.asker, true, Some(it), now + l.upstreamTimeout);
    s.(nextId := s.nextId + 1, open := s.open[fd := s.nextSerial], nextSerial := s.nextSerial + 1,
       tasks := Drop(Put(s.tasks, fd, w), t.upstreamFd), txids := s.txids[it := now])
  }

  /**
    * Handing a client over to an upstream task: both are in the table for a moment, and the
    * descriptor passes from the one to the other.
    */
  lemma {:induction false} HandOverKeeps(l: Limits, s: State, t: Task, fd: int, it: Txid, now: nat)
    requires Inv(l, s) && Holds(s, t) && !Forwards(t) && Fresh(s, fd)
    ensures Inv(l, HandedOver(l, s, t, fd, it, now))
  {
    assert TaskOwns(s, t.upstreamFd) && TaskOwns(s, fd);
    var r := HandedOver(l, s, t, fd, it, now);
    forall f ensures TaskOwns(r, f) {
      assert TaskOwns(s, f);
    }
    forall f, g ensures Disjoint(r, f, g) {
      assert TaskOwns(s, f) && TaskOwns(s, g);
      assert Disjoint(s, f, g);
    }
  }

  /** Which transaction ids are filed is no matter of ownership. */
  lemma {:induction false} TxidsKeep(l: Limits, s: State, txids: map<Txid, nat>)
    requires Inv(l, s)
    ensures Inv(l, s.(txids := txids))
  {
    var r := s.(txids := txids);
    forall f ensures TaskOwns(r, f) {
      assert TaskOwns(s, f);
    }
    forall f, g ensures Disjoint(r, f, g) {
      assert Disjoint(s, f, g);
    }
  }

  /** A client's task is forgotten, its descriptor left open. */
  lemma {:induction false} ForgetKeeps(l: Limits, s: State, fd: int)
    requires Inv(l, s)
    ensures Inv(l, s.(tasks := Drop(s.tasks, fd)))
  {
    var r := s.(tasks := Drop(s.tasks, fd));
    forall f ensures TaskOwns(r, f) {
      assert TaskOwns(s, f);
    }
    forall f, g ensures Disjoint(r, f, g) {
      assert Disjoint(s, f, g);
    }
  }

  /** A new channel's socket is the program's own. */
  lemma {:induction false} ChannelKeeps(l: Limits, s: State, fd: int)
    requires Inv(l, s) && Fresh(s, fd)
    ensures Inv(l, Opened(s, fd).(system := s.system + {fd}))
  {
    var s1, r := Opened(s, fd), Opened(s, fd).(system := s.system + {fd});
    OpenKeeps(l, s, fd);
    forall f ensures TaskOwns(r, f) {
      assert TaskOwns(s1, f) && TaskOwns(s, f) && TaskOwns(s, fd);
    }
    forall f, g ensures Disjoint(r, f, g) {
      assert Disjoint(s1, f, g);
    }
  }

  lemma {:induction false} ChannelsKeep(l: Limits, s: State, sockets: seq<int>)
    requires Inv(l, s) && AllFresh(s, sockets)
    ensures var r := OpenChannels(s, sockets);
      && Inv(l, r) && r.tasks == s.tasks && r.udp == s.udp && r.txids == s.txids
      && r.system == s.system + (set fd | fd in sockets)
    decreases |sockets|
  {
    hide Inv;
    if sockets == [] {
      assert s.system + (set fd | fd in sockets) == s.system;
    } else {
      var s1 := Opened(s, sockets[0]).(system := s.system + {sockets[0]});
      ChannelKeeps(l, s, sockets[0]);
      ChannelsKeep(l, s1, sockets[1..]);
      assert sockets == [sockets[0]] + sockets[1..];
    }
  }

  lemma {:induction false} UdpKeeps(l: Limits, s: State, udp: nat, sockets: seq<int>, txids: map<Txid, nat>)
    requires Inv(l, s) && Possible(l, s, UdpWork(udp, sockets, txids))
    ensures Inv(l, UdpStep(s, udp, sockets, txids))
  {
    hide OpenChannels;
    ChannelsKeep(l, s, sockets);
    var m, r := OpenChannels(s, sockets), UdpStep(s, udp, sockets, txids);
    forall f ensures TaskOwns(r, f) {
      assert TaskOwns(m, f);
    }
    forall f, g ensures Disjoint(r, f, g) {
      assert Disjoint(m, f, g);
    }
  }

  // ----- Steps -----

  /** The id a connection is set up with, if it gets that far. */
  function Connected(s: State, u: Upstream): Option<Txid> {
    if u.Socket? && u.connected && FirstFree(s.txids, u.address, u.draws).Some?
    then Some(Txid(u.address, FirstFree(s.txids, u.address, u.draws).value))
    else None
  }

  /** What forwarding comes to, seen from the client's task. */
  lemma {:induction false} RoutedIs(l: Limits, s: State, t: Task, now: nat, u: Upstream, o: SendOutcome)
    requires Inv(l, s) && Holds(s, t) && t.op == Reading && UpstreamFresh(s, u)
    ensures AfterQuery(l, s, t, now, ForwardTcp(l, s, t, now, u), o) ==
              match Connected(s, u)
              case Some(it) => HandedOver(l, s, t, u.fd, it, now)
              case None => ReplyOrFinish(l, ForwardTcp(l, s, t, now, u).state, t, now, o)
  {
    hide Inv, ReplyOrFinish, HandedOver, PushTask, FirstFree;
    if Connected(s, u).Some? {
      ConnectedIs(l, s, t, now, u, o);
    }
  }

  lemma {:induction false} ConnectedIs(l: Limits, s: State, t: Task, now: nat, u: Upstream, o: SendOutcome)
    requires Inv(l, s) && Holds(s, t) && t.op == Reading && UpstreamFresh(s, u) && Connected(s, u).Some?
    ensures AfterQuery(l, s, t, now, ForwardTcp(l, s, t, now, u), o) ==
            HandedOver(l, s, t, u.fd, Connected(s, u).value, now)
  {
    hide Inv, ReplyOrFinish, FirstFree, Drop;
    NewSocketIsUnused(l, s, t, u.fd);
  }

  lemma {:induction false} NewSocketIsUnused(l: Limits, s: State, t: Task, fd: int)
    requires Inv(l, s) && Holds(s, t) && Fresh(s, fd)
    ensures fd !in s.tasks && fd != t.upstreamFd
  {
    assert TaskOwns(s, t.upstreamFd) && TaskOwns(s, fd);
  }

  /** However far the set-up of a connection got that did not succeed, the client's task is untouched. */
  lemma {:induction false} UnconnectedKeeps(l: Limits, s: State, t: Task, now: nat, u: Upstream)
    requires Inv(l, s) && Holds(s, t) && t.op == Reading && UpstreamFresh(s, u) && Connected(s, u).None?
    ensures var r := ForwardTcp(l, s, t, now, u);
      !r.ok && Inv(l, r.state) && Holds(r.state, t)
  {
    hide Inv, FirstFree;
    TickKeeps(l, s);
    var s1 := s.(nextId := s.nextId + 1);
    if u.Socket? {
      OpenKeeps(l, s1, u.fd);
      var free := FirstFree(s.txids, u.address, u.draws);
      if free.Some? {
        TxidsKeep(l, Closed(Opened(s1, u.fd), u.fd), s1.txids[Txid(u.address, free.value) := now]);
      }
    }
  }

  lemma {:induction false} RoutedKeeps(l: Limits, s: State, t: Task, now: nat, u: Upstream, o: SendOutcome)
    requires Inv(l, s) && Holds(s, t) && t.op == Reading && UpstreamFresh(s, u)
    ensures Inv(l, AfterQuery(l, s, t, now, ForwardTcp(l, s, t, now, u), o))
  {
    hide Inv, AfterQuery, ReplyOrFinish, HandedOver, ForwardTcp, FirstFree;
    RoutedIs(l, s, t, now, u, o);
    match Connected(s, u) {
      case Some(it) => HandOverKeeps(l, s, t, u.fd, it, now);
      case None =>
        UnconnectedKeeps(l, s, t, now, u);
        ReplyOrFinishKeeps(l, ForwardTcp(l, s, t, now, u).state, t, now, o);
    }
  }

  lemma {:induction false} ReadFromClientKeeps(l: Limits, s: State, t: Task, now: nat, o: Outcome)
    requires Inv(l, s) && Holds(s, t) && t.op == Reading
    requires o.request.Routed? ==> UpstreamFresh(s, o.request.upstream)
    ensures Inv(l, ReadFromClient(l, s, t, now, o))
  {
    hide Inv, ReplyOrFinish, SendReply, ForwardTcp, FinishTask, Encoded;
    match o.request {
      case NotYet =>
      case Garbled => ReplyOrFinishKeeps(l, s, t, now, o.send);
      case Unwanted => FinishKeeps(l, s, t);
      case Refused => ReplyOrFinishKeeps(l, s, t, now, o.send);
      case Local(reply, polled) =>
        var local := SendOutcome(Encoded(reply), polled);
        ReplyKeeps(l, s, t, now, local);
        ForgetKeeps(l, SendReply(l, s, t.upstreamFd, t.asker, now, local).state, t.upstreamFd);
      case Unroutable(first) =>
        UnroutableKeeps(l, s, t, now, first, o.send);
      case Routed(u) => RoutedKeeps(l, s, t, now, u, o.send);
    }
  }

  lemma {:induction false} UnroutableKeeps(l: Limits, s: State, t: Task, now: nat, first: SendOutcome, o: SendOutcome)
    requires Inv(l, s) && Holds(s, t) && t.op == Reading
    ensures Inv(l, AfterQuery(l, s, t, now, SendReply(l, s, t.upstreamFd, t.asker, now, first), o))
  {
    hide Inv, SendReply, ReplyOrFinish;
    var w := t.(op := Writing);
    ReplyKeeps(l, s, t, now, first);
    if first.encoded {
      ChangeKeeps(l, s, t, w);
      if !first.polled {
        ReplyOrFinishKeeps(l, Changed(s, w), w, now, o);
        StaleReply(l, Changed(s, w), t, w, now, o);
      }
    } else {
      ReplyOrFinishKeeps(l, s, t, now, o);
    }
  }

  /** Only a task's id and descriptors matter to what finishes it or replies for it. */
  lemma {:induction false} StaleReply(l: Limits, s: State, t: Task, w: Task, now: nat, o: SendOutcome)
    requires w == t.(op := w.op)
    ensures ReplyOrFinish(l, s, t, now, o) == ReplyOrFinish(l, s, w, now, o)
  {
  }

  lemma {:induction false} WriteUpstreamKeeps(l: Limits, s: State, t: Task, now: nat, o: Outcome)
    requires Inv(l, s) && Holds(s, t) && t.op == Forwarding
    ensures Inv(l, WriteUpstream(l, s, t, now, o))
  {
    hide Inv, QueueResponse, AnswerClient;
    AnswerKeeps(l, s, t, now, o.send);
    var t1 := t.(op := Replying);
    ChangeKeeps(l, s, t, t1);
    AnswerKeeps(l, Changed(s, t1), t1, now, o.send);
  }

  lemma {:induction false} ReadUpstreamKeeps(l: Limits, s: State, t: Task, now: nat, o: Outcome)
    requires Inv(l, s) && Holds(s, t) && t.op == Replying
    ensures Inv(l, ReadUpstream(l, s, t, now, o))
  {
    hide Inv, QueueResponse, AnswerClient, FirstFree;
    AnswerKeeps(l, s, t, now, o.send);
    if o.reply.ReplyRejectsEdns? && t.txid.Some? {
      var free := FirstFree(s.txids, t.txid.value.address, o.reply.draws);
      if free.Some? {
        var t1 := Retried(t, free.value);
        RetryKeeps(l, s, t, t1, now);
        AnswerKeeps(l, RetriedState(s, t1, now), t1, now, o.send);
      }
    }
  }

  function RetriedState(s: State, t1: Task, now: nat): State
    requires t1.txid.Some?
  {
    Changed(Filed(s, t1.txid.value, now), t1)
  }

  lemma {:induction false} RetryKeeps(l: Limits, s: State, t: Task, t1: Task, now: nat)
    requires Inv(l, s) && Holds(s, t) && Forwards(t) && t.txid.Some? && t1.txid.Some?
    requires t1 == Retried(t, t1.txid.value.id)
    ensures Inv(l, RetriedState(s, t1, now)) && Holds(RetriedState(s, t1, now), t1)
  {
    hide Inv;
    TxidsKeep(l, s, s.txids[t1.txid.value := now]);
    ChangeKeeps(l, Filed(s, t1.txid.value, now), t, t1);
  }

  lemma {:induction false} WriteToClientKeeps(l: Limits, s: State, t: Task, result: WriteResult)
    requires Inv(l, s) && Holds(s, t) && t.op == Writing
    ensures Inv(l, WriteToClient(s, t, result))
  {
    FinishKeeps(l, s, t);
    if result.WriteDone? {
      hide Capacity;
      assert TaskOwns(s, t.upstreamFd);
      var f, r := FinishTask(s, t, true), WriteToClient(s, t, result);
      forall fd ensures TaskOwns(r, fd) {
        assert TaskOwns(f, fd);
      }
      forall a, b ensures Disjoint(r, a, b) {
        assert Disjoint(f, a, b);
      }
    }
  }

  lemma {:induction false} ExpireOneKeeps(l: Limits, s: State, t: Task, now: nat, o: SendOutcome)
    requires Inv(l, s)
    requires t.upstreamFd in s.tasks && s.tasks[t.upstreamFd].id == t.id ==> Holds(s, t)
    ensures Inv(l, ExpireOne(l, s, t, now, o))
  {
    hide Inv, AnswerClient, FinishTask;
    if Holds(s, t) {
      if Forwards(t) {
        AnswerKeeps(l, s, t, now, o);
      } else {
        FinishKeeps(l, s, t);
      }
    }
  }

  // ----- Expiry -----

  /** The tasks yet to be looked at are as they were, or gone. */
  ghost predicate Snapshot(s: State, expired: seq<Task>) {
    forall i :: 0 <= i < |expired| ==>
                  expired[i].id < s.nextId
                  && (expired[i].upstreamFd in s.tasks && s.tasks[expired[i].upstreamFd].id == expired[i].id ==>
                      Holds(s, expired[i]))
  }

  /** Whatever is overdue is yet to be looked at. */
  ghost predicate Pending(s: State, expired: seq<Task>, now: nat) {
    forall fd :: fd in s.tasks && s.tasks[fd].deadline <= now ==> s.tasks[fd] in expired
  }

  lemma {:induction false} ExpireOneAffects(l: Limits, s: State, t: Task, now: nat, o: SendOutcome)
    requires Inv(l, s) && t.id < s.nextId
    requires t.upstreamFd in s.tasks && s.tasks[t.upstreamFd].id == t.id ==> Holds(s, t)
    ensures var r := ExpireOne(l, s, t, now, o);
            && s.nextId <= r.nextId
            && (forall fd :: fd in r.tasks ==>
                               (fd in s.tasks && r.tasks[fd] == s.tasks[fd] && r.tasks[fd] != t)
                               || (r.tasks[fd].id >= s.nextId && r.tasks[fd].deadline == now + l.tcpUpstreamTimeout))
  {
    if Holds(s, t) {
      assert TaskOwns(s, t.upstreamFd);
      if Forwards(t) {
        AnswerIs(l, s, t, now, o);
      }
      forall fd | fd in s.tasks && fd != t.upstreamFd ensures s.tasks[fd] != t {
        assert TaskOwns(s, fd);
      }
    } else {
      forall fd | fd in s.tasks ensures s.tasks[fd] != t {
        assert TaskOwns(s, fd);
      }
    }
  }

  lemma {:induction false} ExpireAllKeeps(l: Limits, s: State, expired: seq<Task>, sends: seq<SendOutcome>, now: nat)
    requires Inv(l, s) && |sends| == |expired| && Snapshot(s, expired) && Pending(s, expired, now)
    ensures Inv(l, ExpireAll(l, s, expired, sends, now))
    ensures 0 < l.tcpUpstreamTimeout ==> Pending(ExpireAll(l, s, expired, sends, now), [], now)
    decreases |expired|
  {
    hide Inv, ExpireOne;
    if expired != [] {
      var r := ExpireOne(l, s, expired[0], now, sends[0]);
      ExpireOneKeeps(l, s, expired[0], now, sends[0]);
      ExpireOneAffects(l, s, expired[0], now, sends[0]);
      assert expired == [expired[0]] + expired[1..];
      if 0 < l.tcpUpstreamTimeout {
        ExpireAllKeeps(l, r, expired[1..], sends[1..], now);
      } else {
        ExpireAllKeepsInv(l, s, expired, sends, now);
      }
    }
  }

  lemma {:induction false} ExpireAllKeepsInv(l: Limits, s: State, expired: seq<Task>, sends: seq<SendOutcome>, now: nat)
    requires Inv(l, s) && |sends| == |expired| && Snapshot(s, expired)
    ensures Inv(l, ExpireAll(l, s, expired, sends, now))
    decreases |expired|
  {
    hide Inv, ExpireOne;
    if expired != [] {
      var r := ExpireOne(l, s, expired[0], now, sends[0]);
      ExpireOneKeeps(l, s, expired[0], now, sends[0]);
      ExpireOneAffects(l, s, expired[0], now, sends[0]);
      ExpireAllKeepsInv(l, r, expired[1..], sends[1..], now);
    }
  }

  lemma {:induction false} OverdueIsSnapshot(l: Limits, s: State, expired: seq<Task>, now: nat)
    requires Inv(l, s) && Overdue(s, expired, now)
    ensures Snapshot(s, expired) && Pending(s, expired, now)
  {
    hide Delivery, Capacity, Serials;
    forall i | 0 <= i < |expired| ensures expired[i].id < s.nextId && Holds(s, expired[i]) {
      assert expired[i] in expired;
      assert TaskOwns(s, expired[i].upstreamFd);
    }
    forall fd | fd in s.tasks && s.tasks[fd].deadline <= now ensures s.tasks[fd] in expired {
      assert TaskOwns(s, fd);
      assert Holds(s, s.tasks[fd]);
    }
  }

  /** One round of expiry leaves nothing overdue. */
  lemma {:induction false} ExpiryIsThorough(l: Limits, s: State, expired: seq<Task>, sends: seq<SendOutcome>, now: nat)
    requires Inv(l, s) && |sends| == |expired| && Overdue(s, expired, now) && 0 < l.tcpUpstreamTimeout
    ensures var left := ExpireAll(l, s, expired, sends, now).tasks;
            forall fd :: fd in left ==> left[fd].deadline > now
  {
    hide Inv, Overdue, ExpireAll;
    OverdueIsSnapshot(l, s, expired, now);
    ExpireAllKeeps(l, s, expired, sends, now);
  }

  // ----- Every run -----

  lemma {:induction false} ReceiveKeeps(l: Limits, s: State, fd: int, now: nat, o: Outcome)
    requires Inv(l, s) && (o.request.Routed? ==> UpstreamFresh(s, o.request.upstream))
    ensures Inv(l, Receive(l, s, fd, now, o))
  {
    hide Inv, WriteToClient, ReadFromClient, WriteUpstream, ReadUpstream;
    if fd in s.tasks && s.tasks[fd].upstreamFd == fd {
      var t := s.tasks[fd];
      match t.op {
        case Writing => WriteToClientKeeps(l, s, t, o.write);
        case Reading => ReadFromClientKeeps(l, s, t, now, o);
        case Forwarding => WriteUpstreamKeeps(l, s, t, now, o);
        case Replying => ReadUpstreamKeeps(l, s, t, now, o);
      }
    }
  }

  /**
    * Every step keeps every descriptor with one owner, every answer with the client that asked, and
    * both limits.
    */
  lemma {:induction false} StepKeepsInvariant(l: Limits, s: State, e: Event)
    requires Inv(l, s) && Possible(l, s, e)
    ensures Inv(l, Step(l, s, e))
  {
    hide Inv, Receive, ExpireAll, AcceptClient, UdpStep, Overdue, Fresh;
    match e {
      case Accept(fd, allowed, now) => AcceptKeeps(l, s, fd, allowed, now);
      case Ready(fd, now, o) => ReceiveKeeps(l, s, fd, now, o);
      case Expire(expired, sends, now) =>
        OverdueIsSnapshot(l, s, expired, now);
        ExpireAllKeepsInv(l, s, expired, sends, now);
      case UdpWork(udp, sockets, txids) => UdpKeeps(l, s, udp, sockets, txids);
    }
  }

  lemma {:induction false} RunKeepsInvariant(l: Limits, states: seq<State>, events: seq<Event>, i: nat)
    requires IsRun(l, states, events) && i < |states|
    ensures Inv(l, states[i])
  {
    if i == 0 {
      var s := states[0];
      forall fd ensures TaskOwns(s, fd) {}
      forall f, g ensures Disjoint(s, f, g) {}
    } else {
      RunKeepsInvariant(l, states, events, i - 1);
      StepKeepsInvariant(l, states[i - 1], events[i - 1]);
    }
  }

  /** In no run is a client sent an answer to someone else's question, or two answers. */
  lemma {:induction false} AnswersReachTheirAskers(l: Limits, states: seq<State>, events: seq<Event>, i: nat)
    requires IsRun(l, states, events) && i < |states|
    ensures forall a :: a in states[i].answered ==> a.connection == a.asker
    ensures forall j, k :: 0 <= j < k < |states[i].answered| ==>
            states[i].answered[j].asker != states[i].answered[k].asker
  {
    RunKeepsInvariant(l, states, events, i);
  }

  /** In no run is a descriptor used by two tasks, or by a task and the UDP side, or after it was closed. */
  lemma {:induction false} DescriptorsHaveOneOwner(l: Limits, states: seq<State>, events: seq<Event>, i: nat, f: int,
                                                   g: int)
    requires IsRun(l, states, events) && i < |states|
    requires f in states[i].tasks && g in states[i].tasks
    ensures Holdings(states[i].tasks[f]) <= states[i].open.Keys - states[i].system
    ensures f != g ==> Holdings(states[i].tasks[f]) !! Holdings(states[i].tasks[g])
  {
    RunKeepsInvariant(l, states, events, i);
    var s := states[i];
    assert TaskOwns(s, f) && TaskOwns(s, g) && Disjoint(s, f, g);
  }

  function Holdings(t: Task): set<int> {
    {t.upstreamFd} + if Forwards(t) then {t.clientFd} else {}
  }
}
