/** The UDP and the TCP side of one program, which count their tasks together. */
module Capacity {
  import opened Bytes
  import opened Txids
  import Messages
  import CoalescingKeys
  import U = UdpState
  import UdpInvariants
  import UdpRuns
  import UdpResults
  import UdpChannels
  import T = TcpTasks
  import TcpResults

  /**
    * Each side sees of the other how many tasks it has, both see the one set of transaction ids, and the
    * sockets of the UDP channels are the program's own.
    */
  ghost predicate Agree(u: U.State, s: T.State) {
    && u.tcpTasks == |s.tasks| && |u.byLocal| == s.udp && u.txids == s.txids
    && forall fd :: fd in u.lineup ==> fd in s.system
  }

  /** The sockets a step of the UDP side has opened. */
  function NewSockets(u: U.State, u': U.State): seq<nat> {
    if |u.lineup| <= |u'.lineup| then u'.lineup[|u.lineup|..] else []
  }

  /** A step of the UDP side is one the TCP side allows for: it adds only tasks there is room for. */
  lemma {:induction false} UdpStepsArePossible(cfg: U.Config, l: T.Limits, u: U.State, s: T.State, e: U.Event)
    requires UdpInvariants.Invariant(u) && T.Inv(l, s) && !e.TcpWork? && Agree(u, s) && cfg.maxTasks == l.maxTasks
    requires T.AllFresh(s, NewSockets(u, U.Step(u, cfg, e)))
    ensures var after := U.Step(u, cfg, e);
      && T.Possible(l, s, T.UdpWork(|after.byLocal|, NewSockets(u, after), after.txids))
      && Agree(after, T.UdpStep(s, |after.byLocal|, NewSockets(u, after), after.txids))
  {
    hide UdpInvariants.Invariant, U.Step, T.Inv, T.OpenChannels, T.AllFresh;
    var after := U.Step(u, cfg, e);
    UdpResults.StepRespectsCapacity(u, cfg, e);
    UdpKeepsTcpTasks(u, cfg, e);
    UdpChannels.StepGrowsLineup(u, cfg, e);
    TcpResults.ChannelsKeep(l, s, NewSockets(u, after));
    assert after.lineup == u.lineup + NewSockets(u, after);
  }

  // ----- What a UDP step leaves of the TCP side -----

  lemma {:induction false} ForwardAllKeepsTcpTasks(u: U.State, cfg: U.Config, p: nat, q: Messages.Question,
                                                   attempts: seq<U.Attempt>)
    ensures U.ForwardAll(u, cfg, p, q, attempts).tcpTasks == u.tcpTasks
    decreases |attempts|
  {
    hide U.Forward;
    if attempts != [] {
      UdpRuns.ForwardFrame(u, cfg, p, q, attempts[0]);
      ForwardAllKeepsTcpTasks(U.Forward(u, cfg, p, q, attempts[0]), cfg, p, q, attempts[1..]);
    }
  }

  lemma {:induction false} OpenKeepsTcpTasks(u: U.State, cfg: U.Config, w: U.Waiter, q: Messages.Question,
                                             usable: seq<U.Attempt>,
                                             sent: bool)
    ensures U.Open(u, cfg, w, q, usable, sent).tcpTasks == u.tcpTasks
  {
    hide U.ForwardAll, CoalescingKeys.PendingKey, U.Siblings;
    var prepared := u.(nextLocal := u.nextLocal + 1,
                       pendings := u.pendings[u.nextLocal := U.Pending(CoalescingKeys.PendingKey(q), [w])],
                       pendingUdp := u.pendingUdp[CoalescingKeys.PendingKey(q) := u.nextLocal]);
    ForwardAllKeepsTcpTasks(prepared, cfg, u.nextLocal, q, usable);
  }

  lemma {:induction false} UdpKeepsTcpTasks(u: U.State, cfg: U.Config, e: U.Event)
    requires !e.TcpWork?
    ensures U.Step(u, cfg, e).tcpTasks == u.tcpTasks
  {
    hide U.Open, CoalescingKeys.PendingKey, U.Live, U.Siblings, FirstFree, U.Matches, U.LocalEntries,
         U.SocketEntries, U.OnChannel, U.HasSibling;
    if e.AskEvent? {
      var s := u.(asked := u.asked + [U.Asked(e.id, e.question)]);
      OpenKeepsTcpTasks(s, cfg, U.Waiter(|u.asked|, e.id, e.question.name), e.question, U.Usable(u, cfg, e.attempts),
          e.refusalSent);
    }
  }

  // ----- What a TCP step leaves of the UDP side -----

  predicate SameSide(s: T.State, r: T.State) {
    r.udp == s.udp && r.system == s.system
  }

  lemma {:induction false} PartsKeepUdp(l: T.Limits, s: T.State, t: T.Task, fd: int, asker: nat, now: nat,
                                        o: T.SendOutcome)
    ensures SameSide(s, T.FinishTask(s, t, true)) && SameSide(s, T.FinishTask(s, t, false))
    ensures SameSide(s, T.SendReply(l, s, fd, asker, now, o).state)
  {
    hide T.FinishTask, T.SendReply, SameSide;
    FinishKeepsUdp(s, t, true);
    FinishKeepsUdp(s, t, false);
    SendKeepsUdp(l, s, fd, asker, now, o);
  }

  lemma {:induction false} ClosingKeepsUdp(s: T.State, fd: int, t: T.Task, tasks: map<int, T.Task>)
    ensures SameSide(s, T.Closed(s, fd)) && SameSide(s, T.Released(s, t)) && SameSide(s, s.(tasks := tasks))
  {
  }

  lemma {:induction false} FinishKeepsUdp(s: T.State, t: T.Task, closeClient: bool)
    ensures SameSide(s, T.FinishTask(s, t, closeClient))
  {
    hide T.Drop, T.Closed, T.Released;
    var fd, dropped := t.upstreamFd, T.Drop(s.tasks, t.upstreamFd);
    ClosingKeepsUdp(s, fd, t, dropped);
    var m := if fd in s.tasks && s.tasks[fd].id == t.id then s.(tasks := dropped) else s;
    ClosingKeepsUdp(m, fd, t, dropped);
    var c := if fd == -1 then s else T.Closed(m, fd);
    ClosingKeepsUdp(c, t.clientFd, t, dropped);
    ClosingKeepsUdp(T.Closed(c, t.clientFd), fd, t, dropped);
  }

  lemma {:induction false} SendKeepsUdp(l: T.Limits, s: T.State, fd: int, asker: nat, now: nat, o: T.SendOutcome)
    ensures SameSide(s, T.SendReply(l, s, fd, asker, now, o).state)
  {
    hide T.Put;
  }

  lemma {:induction false} AnswerKeepsUdp(l: T.Limits, s: T.State, t: T.Task, now: nat, o: T.SendOutcome)
    ensures SameSide(s, T.AnswerClient(l, s, t, now, o)) && SameSide(s, T.QueueResponse(l, s, t, now, o))
    ensures SameSide(s, T.ReplyOrFinish(l, s, t, now, o))
  {
    hide T.FinishTask, T.SendReply;
    var finished, replied := T.FinishTask(s, t, false), T.SendReply(l, s, t.upstreamFd, t.asker, now, o).state;
    PartsKeepUdp(l, s, t, t.upstreamFd, t.asker, now, o);
    PartsKeepUdp(l, finished, t, t.clientFd, t.asker, now, o);
    PartsKeepUdp(l, replied, t, t.upstreamFd, t.asker, now, o);
  }

  lemma {:induction false} QueryKeepsUdp(l: T.Limits, s: T.State, t: T.Task, now: nat, queried: T.Sent,
                                         o: T.SendOutcome)
    ensures SameSide(queried.state, T.AfterQuery(l, s, t, now, queried, o))
  {
    hide T.ReplyOrFinish;
    AnswerKeepsUdp(l, queried.state, t, now, o);
  }

  lemma {:induction false} ReadFromClientKeepsUdp(l: T.Limits, s: T.State, t: T.Task, now: nat, o: T.Outcome)
    ensures SameSide(s, T.ReadFromClient(l, s, t, now, o))
  {
    hide T.ReplyOrFinish, T.AfterQuery, T.SendReply, T.FinishTask, T.Encoded, FirstFree;
    AnswerKeepsUdp(l, s, t, now, o.send);
    PartsKeepUdp(l, s, t, t.upstreamFd, t.asker, now, o.send);
    match o.request {
      case Local(reply, polled) =>
        var local := T.SendOutcome(T.Encoded(reply), polled);
        PartsKeepUdp(l, s, t, t.upstreamFd, t.asker, now, local);
        QueryKeepsUdp(l, s, t, now, T.Sent(T.SendReply(l, s, t.upstreamFd, t.asker, now, local).state, true), o.send);
      case Unroutable(first) =>
        PartsKeepUdp(l, s, t, t.upstreamFd, t.asker, now, first);
        QueryKeepsUdp(l, s, t, now, T.SendReply(l, s, t.upstreamFd, t.asker, now, first), o.send);
      case Routed(u) =>
        QueryKeepsUdp(l, s, t, now, T.ForwardTcp(l, s, t, now, u), o.send);
      case _ =>
    }
  }

  lemma {:induction false} ReceiveKeepsUdp(l: T.Limits, s: T.State, fd: int, now: nat, o: T.Outcome)
    ensures SameSide(s, T.Receive(l, s, fd, now, o))
  {
    hide T.QueueResponse, T.FinishTask, T.ReadFromClient, T.ReadUpstream;
    if fd in s.tasks {
      var t := s.tasks[fd];
      var replying := t.(op := T.Replying);
      ReadFromClientKeepsUdp(l, s, t, now, o);
      ReadUpstreamKeepsUdp(l, s, t, now, o);
      PartsKeepUdp(l, s, t, fd, t.asker, now, o.send);
      AnswerKeepsUdp(l, s, t, now, o.send);
      AnswerKeepsUdp(l, s.(tasks := T.Put(s.tasks, t.upstreamFd, replying)), replying, now, o.send);
    }
  }

  lemma {:induction false} ReadUpstreamKeepsUdp(l: T.Limits, s: T.State, t: T.Task, now: nat, o: T.Outcome)
    ensures SameSide(s, T.ReadUpstream(l, s, t, now, o))
  {
    hide T.QueueResponse, FirstFree;
    AnswerKeepsUdp(l, s, t, now, o.send);
    if o.reply.ReplyRejectsEdns? && t.txid.Some? {
      var free := FirstFree(s.txids, t.txid.value.address, o.reply.draws);
      if free.Some? {
        var t1 := T.Retried(t, free.value);
        var s1 := T.Filed(s, t1.txid.value, now);
        AnswerKeepsUdp(l, s1.(tasks := T.Put(s.tasks, t.upstreamFd, t1)), t1, now, o.send);
      }
    }
  }

  lemma {:induction false} ExpireAllKeepsUdp(l: T.Limits, s: T.State, expired: seq<T.Task>, sends: seq<T.SendOutcome>,
                                             now: nat)
    requires |sends| == |expired|
    ensures SameSide(s, T.ExpireAll(l, s, expired, sends, now))
    decreases |expired|
  {
    hide T.AnswerClient, T.FinishTask;
    if expired != [] {
      AnswerKeepsUdp(l, s, expired[0], now, sends[0]);
      PartsKeepUdp(l, s, expired[0], 0, 0, now, sends[0]);
      ExpireAllKeepsUdp(l, T.ExpireOne(l, s, expired[0], now, sends[0]), expired[1..], sends[1..], now);
    }
  }

  lemma {:induction false} TcpKeepsUdp(l: T.Limits, s: T.State, e: T.Event)
    requires T.Possible(l, s, e) && !e.UdpWork?
    ensures SameSide(s, T.Step(l, s, e))
  {
    hide T.Receive, T.ExpireAll, T.Overdue;
    match e {
      case Accept(_, _, _) =>
      case Ready(fd, now, o) => ReceiveKeepsUdp(l, s, fd, now, o);
      case Expire(expired, sends, now) => ExpireAllKeepsUdp(l, s, expired, sends, now);
    }
  }

  // ----- The program -----

  datatype Event = Udp(u: U.Event) | Tcp(t: T.Event)

  function TimeOf(e: T.Event): nat
    requires !e.UdpWork?
  {
    match e
    case Accept(_, _, now) => now
    case Ready(_, now, _) => now
    case Expire(_, _, now) => now
  }

  /**
    * What one side does shows on the other in the task counts, in the transaction ids and in the
    * descriptors: the UDP side is handed only such sockets as are not open.
    */
  ghost predicate Together(cfg: U.Config, l: T.Limits, u: U.State, s: T.State, e: Event, u': U.State, s': T.State) {
    match e
    case Udp(x) =>
      && !x.TcpWork? && u' == U.Step(u, cfg, x) && T.AllFresh(s, NewSockets(u, u'))
      && s' == T.UdpStep(s, |u'.byLocal|, NewSockets(u, u'), u'.txids)
    case Tcp(x) =>
      && !x.UdpWork? && TimeOf(x) == u.clock && T.Possible(l, s, x) && s' == T.Step(l, s, x)
      && u' == U.Step(u, cfg, U.TcpWork(|s'.tasks|, s'.txids))
  }

  ghost predicate IsRun(cfg: U.Config, l: T.Limits, us: seq<U.State>, ss: seq<T.State>, events: seq<Event>) {
    && cfg.maxTasks == l.maxTasks
    && |us| == |ss| == |events| + 1 && us[0] == U.INITIAL && T.Init(ss[0])
    && forall i :: 0 <= i < |events| ==> Together(cfg, l, us[i], ss[i], events[i], us[i + 1], ss[i + 1])
  }

  lemma {:induction false} StepsAgree(cfg: U.Config, l: T.Limits, u: U.State, s: T.State, e: Event, u': U.State,
                                      s': T.State)
    requires cfg.maxTasks == l.maxTasks && Together(cfg, l, u, s, e, u', s')
    requires UdpInvariants.Invariant(u) && T.Inv(l, s) && Agree(u, s)
    ensures UdpInvariants.Invariant(u') && T.Inv(l, s') && Agree(u', s')
  {
    hide UdpInvariants.Invariant, T.Inv, U.Step, T.Step, T.UdpStep, T.Possible, T.AllFresh;
    match e {
      case Udp(x) =>
        UdpStepsArePossible(cfg, l, u, s, x);
        UdpRuns.StepKeepsInvariant(u, cfg, x);
        TcpResults.UdpKeeps(l, s, |u'.byLocal|, NewSockets(u, u'), u'.txids);
      case Tcp(x) =>
        TcpResults.StepKeepsInvariant(l, s, x);
        UdpRuns.StepKeepsInvariant(u, cfg, U.TcpWork(|s'.tasks|, s'.txids));
        TcpKeepsUdp(l, s, x);
        WorkAgrees(cfg, u, |s'.tasks|, s'.txids);
    }
  }

  lemma {:induction false} WorkAgrees(cfg: U.Config, u: U.State, tasks: nat, txids: map<Txid, nat>)
    ensures var s := U.Step(u, cfg, U.TcpWork(tasks, txids));
      s == u.(tcpTasks := tasks, txids := txids)
  {
  }

  lemma {:induction false} RunsAgree(cfg: U.Config, l: T.Limits, us: seq<U.State>, ss: seq<T.State>,
                                     events: seq<Event>, i: nat)
    requires IsRun(cfg, l, us, ss, events) && i < |us|
    ensures UdpInvariants.Invariant(us[i]) && T.Inv(l, ss[i]) && Agree(us[i], ss[i])
  {
    hide UdpInvariants.Invariant, T.Inv, Together;
    if i == 0 {
      StartsAgree(cfg, l, ss[0]);
    } else {
      RunsAgree(cfg, l, us, ss, events, i - 1);
      StepsAgree(cfg, l, us[i - 1], ss[i - 1], events[i - 1], us[i], ss[i]);
    }
  }

  lemma {:induction false} StartsAgree(cfg: U.Config, l: T.Limits, s: T.State)
    requires T.Init(s)
    ensures UdpInvariants.Invariant(U.INITIAL) && T.Inv(l, s) && Agree(U.INITIAL, s)
  {
    TcpResults.RunKeepsInvariant(l, [s], [], 0);
    hide T.Inv, T.Serials, UdpInvariants.Invariant;
    UdpRuns.InvariantHolds(cfg, []);
  }

  /** In every run of the whole program both sides' tasks together, and the clients, stay within their limits. */
  lemma {:induction false} TasksStayWithinLimits(cfg: U.Config, l: T.Limits, us: seq<U.State>, ss: seq<T.State>,
                                                 events: seq<Event>, i: nat)
    requires IsRun(cfg, l, us, ss, events) && i < |us|
    ensures |ss[i].tasks| + |us[i].byLocal| <= l.maxTasks && |ss[i].tasks| <= l.maxClients
    ensures U.TaskCount(us[i]) == |ss[i].tasks| + |us[i].byLocal|
  {
    hide UdpInvariants.Invariant, Together;
    RunsAgree(cfg, l, us, ss, events, i);
  }

  lemma {:induction false} ChannelsLinedUp(cfg: U.Config, l: T.Limits, us: seq<U.State>, ss: seq<T.State>,
                                           events: seq<Event>, i: nat)
    requires IsRun(cfg, l, us, ss, events) && i < |us|
    ensures UdpChannels.LinedUp(us[i])
  {
    hide UdpChannels.LinedUp, U.Step, T.UdpStep, T.AllFresh, T.Step, T.Possible, T.Init;
    if i == 0 {
      UdpChannels.StartIsLinedUp();
    } else {
      ChannelsLinedUp(cfg, l, us, ss, events, i - 1);
      assert Together(cfg, l, us[i - 1], ss[i - 1], events[i - 1], us[i], ss[i]);
      match events[i - 1] {
        case Udp(x) => UdpChannels.StepKeepsLineup(us[i - 1], cfg, x);
        case Tcp(x) => UdpChannels.StepKeepsLineup(us[i - 1], cfg, U.TcpWork(|ss[i].tasks|, ss[i].txids));
      }
    }
  }

  /**
    * In every run of the whole program a UDP channel's descriptor is open and the program's own: no TCP
    * task reads it, writes it or will close it.
    */
  lemma {:induction false} ChannelsAreTheirOwn(cfg: U.Config, l: T.Limits, us: seq<U.State>, ss: seq<T.State>,
                                               events: seq<Event>, i: nat, fd: nat, f: int)
    requires IsRun(cfg, l, us, ss, events) && i < |us|
    requires fd in us[i].channels
    ensures fd in ss[i].open && (f in ss[i].tasks ==> fd !in TcpResults.Holdings(ss[i].tasks[f]))
  {
    hide UdpInvariants.Invariant, Together, T.Delivery, T.Capacity, T.Serials, T.Disjoint, T.Init;
    RunsAgree(cfg, l, us, ss, events, i);
    ChannelsLinedUp(cfg, l, us, ss, events, i);
    assert T.TaskOwns(ss[i], f);
  }
}
