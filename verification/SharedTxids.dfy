/** The one set of transaction ids, drawn from and released to by the UDP and the TCP side of a program. */
module SharedTxids {
  import opened Bytes
  import opened Txids
  import opened Capacity
  import U = UdpState
  import UdpInvariants
  import UdpRuns
  import UdpTxids
  import T = TcpTasks
  import TcpResults
  import TcpTxids

  /**
    * Every live query and every forwarding task holds its transaction id, and no two of them the same
    * one; and every query's socket is its endpoint's.
    */
  predicate AllHeld(u: U.State, s: T.State) {
    UdpTxids.Held(u, TcpTxids.TaskIds(s.tasks)) && TcpTxids.Held(s, UdpTxids.LiveIds(u))
  }

  /** No id that a live query or a forwarding task goes by has been filed for the whole timeout. */
  predicate SafeSweep(cfg: U.Config, u: U.State, s: T.State) {
    UdpTxids.SweepIsSafe(u, TcpTxids.TaskIds(s.tasks), cfg)
  }

  // ----- One side's step and the other side's ids -----

  /** The tasks know the ids of the other side only as a set. */
  lemma {:induction false} TasksBesideQueries(u: U.State, s: T.State)
    requires UdpTxids.Held(u, TcpTxids.TaskIds(s.tasks)) && u.txids == s.txids && TaskIdsDiffer(s.tasks)
    ensures AllHeld(u, s)
  {
    forall f | f in s.tasks && s.tasks[f].txid.Some?
      ensures s.tasks[f].txid.value in s.txids.Keys - UdpTxids.LiveIds(u)
    {
      assert s.tasks[f].txid.value in TcpTxids.TaskIds(s.tasks);
    }
    assert UdpTxids.LiveIds(u) <= s.txids.Keys;
  }

  predicate TaskIdsDiffer(tasks: map<int, T.Task>) {
    forall f, g :: f in tasks && g in tasks && f != g && tasks[f].txid.Some? ==> tasks[f].txid != tasks[g].txid
  }

  /** The queries after a step of the TCP side, which changes nothing of theirs. */
  lemma {:induction false} QueriesBesideTasks(u: U.State, others: set<Txid>, u': U.State, s': T.State)
    requires UdpTxids.Held(u, others) && TcpTxids.Held(s', UdpTxids.LiveIds(u))
    requires u' == u.(tcpTasks := u'.tcpTasks, txids := s'.txids)
    ensures AllHeld(u', s')
  {
    UdpRuns.TablesHaveSameLive(u, u');
    assert UdpTxids.LiveIds(u') == UdpTxids.LiveIds(u);
    forall q | q in U.Live(u')
      ensures U.TxidOf(u'.queries[q]) in u'.txids && UdpTxids.HasChannel(u', u'.queries[q])
      ensures U.TxidOf(u'.queries[q]) !in TcpTxids.TaskIds(s'.tasks)
    {
      assert U.TxidOf(u.queries[q]) in UdpTxids.LiveIds(u) && UdpTxids.HasChannel(u, u.queries[q]);
    }
  }

  lemma {:induction false} UdpStepIs(l: T.Limits, s: T.State, udp: nat, sockets: seq<int>, txids: map<Txid, nat>)
    requires T.Inv(l, s) && T.AllFresh(s, sockets)
    ensures T.UdpStep(s, udp, sockets, txids).tasks == s.tasks && T.UdpStep(s, udp, sockets, txids).txids == txids
  {
    hide T.Inv, T.OpenChannels, T.AllFresh;
    TcpResults.ChannelsKeep(l, s, sockets);
  }

  lemma {:induction false} HeldDiffer(u: U.State, s: T.State)
    requires AllHeld(u, s)
    ensures TaskIdsDiffer(s.tasks)
  {
  }

  lemma {:induction false} UdpStepKeepsHeld(cfg: U.Config, u: U.State, s: T.State, e: U.Event, u': U.State, s': T.State)
    requires UdpInvariants.Invariant(u) && AllHeld(u, s) && !e.TcpWork? && u' == U.Step(u, cfg, e)
    requires s'.tasks == s.tasks && s'.txids == u'.txids
    requires e.SweepEvent? ==> SafeSweep(cfg, u, s)
    ensures AllHeld(u', s')
  {
    hide UdpInvariants.Invariant, UdpTxids.Held, U.Step, UdpTxids.SweepIsSafe, TcpTxids.Held, TaskIdsDiffer,
         TcpTxids.TaskIds;
    HeldDiffer(u, s);
    UdpTxids.StepKeepsHeld(u, TcpTxids.TaskIds(s.tasks), cfg, e);
    TasksBesideQueries(u', s');
  }

  lemma {:induction false} TcpStepKeepsHeld(cfg: U.Config, l: T.Limits, u: U.State, s: T.State, e: T.Event, u': U.State,
                                            s': T.State)
    requires T.Inv(l, s) && AllHeld(u, s) && !e.UdpWork? && T.Possible(l, s, e) && s' == T.Step(l, s, e)
    requires u' == U.Step(u, cfg, U.TcpWork(|s'.tasks|, s'.txids))
    ensures AllHeld(u', s')
  {
    hide T.Inv, T.Possible, T.Step, U.Step, UdpTxids.Held, TcpTxids.Held, UdpTxids.LiveIds;
    TcpTxids.StepKeepsHeld(l, s, e, UdpTxids.LiveIds(u));
    WorkAgrees(cfg, u, |s'.tasks|, s'.txids);
    QueriesBesideTasks(u, TcpTxids.TaskIds(s.tasks), u', s');
  }

  /** The only step that can take an id away from the query or task that goes by it is an unsafe sweep. */
  lemma {:induction false} StepKeepsHeld(cfg: U.Config, l: T.Limits, u: U.State, s: T.State, e: Event, u': U.State,
                                         s': T.State)
    requires UdpInvariants.Invariant(u) && T.Inv(l, s) && Agree(u, s) && AllHeld(u, s)
    requires Together(cfg, l, u, s, e, u', s') && (e == Udp(U.SweepEvent) ==> SafeSweep(cfg, u, s))
    ensures AllHeld(u', s')
  {
    hide UdpInvariants.Invariant, T.Inv, U.Step, T.Step, T.UdpStep, T.Possible, UdpTxids.Held, TcpTxids.Held,
         SafeSweep, AllHeld, TaskIdsDiffer;
    match e {
      case Udp(x) =>
        UdpStepIs(l, s, |u'.byLocal|, NewSockets(u, u'), u'.txids);
        UdpStepKeepsHeld(cfg, u, s, x, u', s');
      case Tcp(x) => TcpStepKeepsHeld(cfg, l, u, s, x, u', s');
    }
  }

  /** And an unsafe sweep always does. */
  lemma {:induction false} SweepExactly(cfg: U.Config, l: T.Limits, u: U.State, s: T.State, u': U.State, s': T.State)
    requires T.Inv(l, s) && Together(cfg, l, u, s, Udp(U.SweepEvent), u', s') && AllHeld(u, s)
    ensures AllHeld(u', s') ==> SafeSweep(cfg, u, s)
  {
    hide UdpTxids.Held, UdpTxids.SweepIsSafe, TcpTxids.Held, TcpTxids.TaskIds;
    UdpStepIs(l, s, |u'.byLocal|, NewSockets(u, u'), u'.txids);
    UdpTxids.SweepExactly(u, TcpTxids.TaskIds(s.tasks), cfg);
  }

  // ----- Every run -----

  lemma {:induction false} StartsHeld(l: T.Limits, s: T.State)
    requires T.Init(s)
    ensures AllHeld(U.INITIAL, s)
  {
    assert U.Live(U.INITIAL) == {};
    assert TcpTxids.TaskIds(s.tasks) == {};
    assert UdpTxids.LiveIds(U.INITIAL) == {};
  }

  lemma {:induction false} SafeRunsStayHeld(cfg: U.Config, l: T.Limits, us: seq<U.State>, ss: seq<T.State>,
                                            events: seq<Event>, i: nat)
    requires IsRun(cfg, l, us, ss, events) && i < |us|
    requires forall j :: 0 <= j < i && events[j] == Udp(U.SweepEvent) ==> SafeSweep(cfg, us[j], ss[j])
    ensures AllHeld(us[i], ss[i])
  {
    hide UdpInvariants.Invariant, T.Inv, T.Init, Together, AllHeld, SafeSweep, Agree;
    if i == 0 {
      StartsHeld(l, ss[0]);
    } else {
      SafeRunsStayHeld(cfg, l, us, ss, events, i - 1);
      RunsAgree(cfg, l, us, ss, events, i - 1);
      StepKeepsHeld(cfg, l, us[i - 1], ss[i - 1], events[i - 1], us[i], ss[i]);
    }
  }

  /**
    * In a run of both sides together every live query and every forwarding task holds its own id in
    * every state exactly when every sweep of the run finds none of their ids at the end of its timeout.
    */
  lemma {:induction false} RunsStayHeldExactly(cfg: U.Config, l: T.Limits, us: seq<U.State>, ss: seq<T.State>,
                                               events: seq<Event>)
    requires IsRun(cfg, l, us, ss, events)
    ensures (forall i :: 0 <= i < |us| ==> AllHeld(us[i], ss[i])) <==>
            (forall i :: 0 <= i < |events| && events[i] == Udp(U.SweepEvent) ==> SafeSweep(cfg, us[i], ss[i]))
  {
    hide T.Init, T.Inv, UdpInvariants.Invariant, Together, AllHeld, SafeSweep, Agree;
    if forall i :: 0 <= i < |events| && events[i] == Udp(U.SweepEvent) ==> SafeSweep(cfg, us[i], ss[i]) {
      forall i | 0 <= i < |us| ensures AllHeld(us[i], ss[i]) {
        SafeRunsStayHeld(cfg, l, us, ss, events, i);
      }
    }
    if forall i :: 0 <= i < |us| ==> AllHeld(us[i], ss[i]) {
      forall i | 0 <= i < |events| && events[i] == Udp(U.SweepEvent) ensures SafeSweep(cfg, us[i], ss[i]) {
        assert AllHeld(us[i + 1], ss[i + 1]);
        RunsAgree(cfg, l, us, ss, events, i);
        SweepExactly(cfg, l, us[i], ss[i], us[i + 1], ss[i + 1]);
      }
    }
  }

  /** While all ids are held, a datagram's socket and id name one live query, and no other query or task has that id. */
  lemma {:induction false} IdsAreUnambiguous(u: U.State, s: T.State, q: nat, r: nat, fd: int)
    requires AllHeld(u, s) && q in U.Live(u) && r in U.Live(u) && U.KeyOf(u.queries[q]) == U.KeyOf(u.queries[r])
    ensures q == r
    ensures fd in s.tasks ==> s.tasks[fd].txid != Some(U.TxidOf(u.queries[q]))
  {
    UdpTxids.LookupIsUnambiguous(u, TcpTxids.TaskIds(s.tasks), q, r);
  }
}
