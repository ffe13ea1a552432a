/** The sockets towards the forwarders: at most four for each, the least active of them used. */
module UdpChannels {
  import opened Bytes
  import opened Messages
  import opened CoalescingKeys
  import opened Txids
  import opened UdpState
  import opened UdpInvariants
  import opened UdpRuns

  // ----- The choice -----

  /** Position i serves the endpoint, nobody is less active, and nobody before it is as little active. */
  predicate FirstLeast(channels: map<nat, Channel>, lineup: seq<nat>, endpoint: Endpoint, i: nat)
    requires i < |lineup|
  {
    && Serves(channels, lineup[i], endpoint)
    && forall j :: 0 <= j < |lineup| && Serves(channels, lineup[j], endpoint) ==>
         && channels[lineup[i]].active <= channels[lineup[j]].active
         && (j < i ==> channels[lineup[i]].active < channels[lineup[j]].active)
  }

  /** At most one position is such. */
  lemma {:induction false} FirstLeastIsOne(channels: map<nat, Channel>, lineup: seq<nat>, endpoint: Endpoint, i: nat,
                                           j: nat)
    requires i < |lineup| && FirstLeast(channels, lineup, endpoint, i)
    requires j < |lineup| && FirstLeast(channels, lineup, endpoint, j)
    ensures i == j
  {
  }

  /** Where the choice stands in line. */
  lemma {:induction false} LeastActiveStands(channels: map<nat, Channel>, lineup: seq<nat>, endpoint: Endpoint)
    returns (i: nat)
    ensures var best := LeastActive(channels, lineup, endpoint);
      if best.None? then forall j :: 0 <= j < |lineup| ==> !Serves(channels, lineup[j], endpoint)
      else i < |lineup| && lineup[i] == best.value && FirstLeast(channels, lineup, endpoint, i)
    decreases |lineup|
  {
    i := 0;
    if lineup != [] {
      hide FirstLeast, Serves;
      var last := |lineup| - 1;
      var before := lineup[..last];
      i := LeastActiveStands(channels, before, endpoint);
      LeastActiveUnfolds(channels, lineup, endpoint);
      if LeastActive(channels, before, endpoint).Some? {
        ExtendLeast(channels, lineup, endpoint, i);
      } else {
        OnlyLast(channels, lineup, before, endpoint);
      }
      if LeastActive(channels, lineup, endpoint) != LeastActive(channels, before, endpoint) {
        i := last;
      }
    }
  }

  lemma {:induction false} LeastActiveUnfolds(channels: map<nat, Channel>, lineup: seq<nat>, endpoint: Endpoint)
    requires lineup != []
    ensures var last := |lineup| - 1;
      var best := LeastActive(channels, lineup[..last], endpoint);
      && (best.Some? ==> best.value in channels)
      && (Serves(channels, lineup[last], endpoint) ==> lineup[last] in channels)
      && LeastActive(channels, lineup, endpoint) ==
         if Serves(channels, lineup[last], endpoint) &&
            (best.None? || channels[lineup[last]].active < channels[best.value].active)
         then Some(lineup[last]) else best
  {
  }

  lemma {:induction false} OnlyLast(channels: map<nat, Channel>, lineup: seq<nat>, before: seq<nat>, endpoint: Endpoint)
    requires lineup != [] && before == lineup[..|lineup| - 1]
    requires forall j :: 0 <= j < |before| ==> !Serves(channels, before[j], endpoint)
    ensures forall j :: 0 <= j < |lineup| - 1 ==> !Serves(channels, lineup[j], endpoint)
    ensures Serves(channels, lineup[|lineup| - 1], endpoint) ==>
            FirstLeast(channels, lineup, endpoint, |lineup| - 1)
  {
    assert forall j :: 0 <= j < |before| ==> before[j] == lineup[j];
  }

  /** The channel that is chosen is the earliest among the least active; none is only if none serves. */
  lemma {:induction false} LeastActiveExactly(channels: map<nat, Channel>, lineup: seq<nat>, endpoint: Endpoint)
    ensures var best := LeastActive(channels, lineup, endpoint);
      && (best.None? <==> forall i :: 0 <= i < |lineup| ==> !Serves(channels, lineup[i], endpoint))
      && (best.Some? <==> exists i :: 0 <= i < |lineup| && FirstLeast(channels, lineup, endpoint, i))
      && forall i :: 0 <= i < |lineup| && FirstLeast(channels, lineup, endpoint, i) ==> best == Some(lineup[i])
  {
    hide LeastActive, FirstLeast, Serves;
    var n := LeastActiveStands(channels, lineup, endpoint);
    forall i | 0 <= i < |lineup| && FirstLeast(channels, lineup, endpoint, i)
      ensures LeastActive(channels, lineup, endpoint) == Some(lineup[i])
    {
      FirstServes(channels, lineup, endpoint, i);
      if LeastActive(channels, lineup, endpoint).Some? {
        FirstLeastIsOne(channels, lineup, endpoint, i, n);
      }
    }
    if LeastActive(channels, lineup, endpoint).Some? {
      FirstServes(channels, lineup, endpoint, n);
    }
  }

  lemma {:induction false} FirstServes(channels: map<nat, Channel>, lineup: seq<nat>, endpoint: Endpoint, i: nat)
    requires i < |lineup| && FirstLeast(channels, lineup, endpoint, i)
    ensures Serves(channels, lineup[i], endpoint)
  {
  }

  /** One more channel in line is the new choice exactly if it is strictly less active. */
  lemma {:induction false} ExtendLeast(channels: map<nat, Channel>, lineup: seq<nat>, endpoint: Endpoint, i: nat)
    requires i < |lineup| - 1 && FirstLeast(channels, lineup[..|lineup| - 1], endpoint, i)
    ensures var last := |lineup| - 1;
      if Serves(channels, lineup[last], endpoint) && channels[lineup[last]].active < channels[lineup[i]].active
      then FirstLeast(channels, lineup, endpoint, last) else FirstLeast(channels, lineup, endpoint, i)
  {
    var before := lineup[..|lineup| - 1];
    assert forall j :: 0 <= j < |before| ==> before[j] == lineup[j];
  }

  // ----- The pool -----

  /** Every channel stands in line once, and no endpoint has more than four. */
  ghost predicate LinedUp(st: State) {
    && (forall fd :: fd in st.channels <==> fd in st.lineup)
    && (forall i, j :: 0 <= i < j < |st.lineup| ==> st.lineup[i] != st.lineup[j])
    && forall e: Endpoint :: Serving(st.channels, st.lineup, e) <= CHANNELS_PER_FORWARDER
  }

  predicate SameEndpoint(before: map<nat, Channel>, after: map<nat, Channel>, fd: nat) {
    fd in before && fd in after && after[fd].endpoint == before[fd].endpoint
  }

  predicate SameEndpoints(before: map<nat, Channel>, after: map<nat, Channel>) {
    after.Keys == before.Keys && forall fd :: fd in before ==> after[fd].endpoint == before[fd].endpoint
  }

  lemma {:induction false} ServingFrame(before: map<nat, Channel>, after: map<nat, Channel>, lineup: seq<nat>,
                                        e: Endpoint)
    requires forall i :: 0 <= i < |lineup| ==> SameEndpoint(before, after, lineup[i])
    ensures Serving(after, lineup, e) == Serving(before, lineup, e)
    decreases |lineup|
  {
    if lineup != [] {
      ServingFrame(before, after, lineup[..|lineup| - 1], e);
    }
  }

  lemma {:induction false} LinedUpFrame(st: State, s: State)
    requires LinedUp(st) && s.lineup == st.lineup && SameEndpoints(st.channels, s.channels)
    ensures LinedUp(s)
  {
    forall e: Endpoint ensures Serving(s.channels, s.lineup, e) <= CHANNELS_PER_FORWARDER {
      ServingFrame(st.channels, s.channels, st.lineup, e);
    }
  }

  lemma {:induction false} UseChannelKeepsLineup(st: State, endpoint: Endpoint, socket: Option<nat>)
    requires LinedUp(st) && UseChannel(st.channels, st.lineup, endpoint, socket).Some?
    ensures var c := UseChannel(st.channels, st.lineup, endpoint, socket).value;
      LinedUp(st.(channels := c.channels, lineup := c.lineup))
  {
    hide LeastActive;
    var c := UseChannel(st.channels, st.lineup, endpoint, socket).value;
    var s := st.(channels := c.channels, lineup := c.lineup);
    if c.fd !in st.channels {
      forall e: Endpoint ensures Serving(s.channels, s.lineup, e) <= CHANNELS_PER_FORWARDER {
        ServingFrame(st.channels, s.channels, st.lineup, e);
        assert s.lineup[..|s.lineup| - 1] == st.lineup;
      }
    }
  }

  lemma {:induction false} RegisterKeepsLineup(st: State, q: Query)
    requires q.fd in st.channels
    ensures Register(st, q).lineup == st.lineup && SameEndpoints(st.channels, Register(st, q).channels)
  {
  }

  lemma {:induction false} ForwardKeepsLineup(st: State, cfg: Config, p: nat, question: Question, a: Attempt)
    requires LinedUp(st)
    ensures LinedUp(Forward(st, cfg, p, question, a))
  {
    hide LinedUp, UseChannel, Register, FirstFree, RandomizeCase;
    var chosen := UseChannel(st.channels, st.lineup, a.endpoint, a.socket);
    if chosen.Some? {
      UseChannelKeepsLineup(st, a.endpoint, a.socket);
      ChosenServes(st.channels, st.lineup, a.endpoint, a.socket);
      var s := st.(channels := chosen.value.channels, lineup := chosen.value.lineup);
      var free := FirstFree(s.txids, a.endpoint.address, a.draws);
      if free.Some? {
        var ready := s.(txids := s.txids[Txid(a.endpoint.address, free.value) := st.clock]);
        var q := Query(p, free.value, chosen.value.fd, a.endpoint, question.typ, question.clas,
                       question.name, RandomizeCase(question.name, a.flips), true, st.clock);
        RegisterKeepsLineup(ready, q);
        LinedUpFrame(s, ready);
        LinedUpFrame(ready, Register(ready, q));
      }
    }
  }

  lemma {:induction false} ChosenServes(channels: map<nat, Channel>, lineup: seq<nat>, endpoint: Endpoint,
                                        socket: Option<nat>)
    ensures var c := UseChannel(channels, lineup, endpoint, socket);
      c.Some? ==> c.value.fd in c.value.channels && c.value.channels[c.value.fd].endpoint == endpoint
  {
  }

  lemma {:induction false} ForwardAllKeepsLineup(st: State, cfg: Config, p: nat, question: Question,
                                                 attempts: seq<Attempt>)
    requires LinedUp(st)
    ensures LinedUp(ForwardAll(st, cfg, p, question, attempts))
    decreases |attempts|
  {
    hide LinedUp, Forward;
    if attempts != [] {
      ForwardKeepsLineup(st, cfg, p, question, attempts[0]);
      ForwardAllKeepsLineup(Forward(st, cfg, p, question, attempts[0]), cfg, p, question, attempts[1..]);
    }
  }

  lemma {:induction false} AskKeepsLineup(st: State, cfg: Config, id: uint16, question: Question,
                                          attempts: seq<Attempt>, sent: bool)
    requires LinedUp(st)
    ensures LinedUp(Ask(st, cfg, id, question, attempts, sent))
  {
    hide LinedUp, ForwardAll, PendingKey, Siblings, Usable;
    var key := PendingKey(question);
    var s := st.(asked := st.asked + [Asked(id, question)]);
    var prepared := s.(nextLocal := s.nextLocal + 1,
                       pendings := s.pendings[s.nextLocal := Pending(key, [Waiter(|st.asked|, id, question.name)])],
                       pendingUdp := s.pendingUdp[key := s.nextLocal]);
    LinedUpFrame(st, prepared);
    ForwardAllKeepsLineup(prepared, cfg, s.nextLocal, question, Usable(st, cfg, attempts));
    var done := ForwardAll(prepared, cfg, s.nextLocal, question, Usable(st, cfg, attempts));
    LinedUpFrame(done, Refuse(done.(pendingUdp := WithoutEntry(done.pendingUdp, key)), |st.asked|, id, question, sent));
    if Usable(st, cfg, attempts) == [] || (key in s.pendingUdp && s.pendingUdp[key] in s.pendings) {
      LinedUpFrame(st, Ask(st, cfg, id, question, attempts, sent));
    }
  }

  lemma {:induction false} FinishKeepsLineup(st: State, done: set<nat>)
    ensures Finish(st, done).lineup == st.lineup && SameEndpoints(st.channels, Finish(st, done).channels)
  {
  }

  lemma {:induction false} RetiringKeepsLineup(st: State, cfg: Config, q: nat, sends: seq<bool>)
    requires q in st.queries
    ensures var s := Deliver(st, q, sends);
      s.lineup == st.lineup && SameEndpoints(st.channels, s.channels)
    ensures var s := Expire(st, cfg, q, sends);
      s.lineup == st.lineup && SameEndpoints(st.channels, s.channels)
  {
    hide Finish, AnySent, RepliesTo, WaitersOf, Siblings, Live, Overdue;
    var query := st.queries[q];
    var s := st.(log := st.log + RepliesTo(WaitersOf(st, q), query.typ, query.clas, sends));
    FinishKeepsLineup(s, {q});
    FinishKeepsLineup(s, Siblings(s, query.local));
  }

  lemma {:induction false} ReceiveKeepsLineup(st: State, cfg: Config, fd: nat, msg: Upstream, pick: nat,
                                              draws: seq<uint16>, retrySent: bool, sends: seq<bool>)
    ensures var s := Receive(st, fd, msg, pick, draws, retrySent, sends);
      s.lineup == st.lineup && SameEndpoints(st.channels, s.channels)
  {
    hide Deliver, FirstFree, Matches, Live;
    LiveIsKnown(st);
    if pick in st.queries {
      RetiringKeepsLineup(st, cfg, pick, sends);
      var q := st.queries[pick];
      var free := FirstFree(st.txids, q.endpoint.address, draws);
      if free.Some? {
        RetiringKeepsLineup(st.(txids := st.txids[Txid(q.endpoint.address, free.value) := st.clock]), cfg, pick, sends);
      }
    }
  }

  lemma {:induction false} StepKeepsLineup(st: State, cfg: Config, e: Event)
    requires LinedUp(st)
    ensures LinedUp(Step(st, cfg, e))
  {
    hide LinedUp, Ask, Receive, Expire, Live;
    match e
    case AskEvent(id, question, attempts, sent) => AskKeepsLineup(st, cfg, id, question, attempts, sent);
    case ReceiveEvent(fd, msg, pick, draws, retrySent, sends) =>
      ReceiveKeepsLineup(st, cfg, fd, msg, pick, draws, retrySent, sends);
      LinedUpFrame(st, Step(st, cfg, e));
    case ExpireEvent(q, sends) =>
      LiveIsKnown(st);
      ExpireKeepsLineup(st, cfg, q, sends);
      LinedUpFrame(st, Step(st, cfg, e));
    case SweepEvent => LinedUpFrame(st, Step(st, cfg, e));
    case TimePasses(_) => LinedUpFrame(st, Step(st, cfg, e));
    case TcpWork(_, _) => LinedUpFrame(st, Step(st, cfg, e));
  }

  lemma {:induction false} ExpireKeepsLineup(st: State, cfg: Config, q: nat, sends: seq<bool>)
    ensures var s := Expire(st, cfg, q, sends);
      s.lineup == st.lineup && SameEndpoints(st.channels, s.channels)
  {
    if q in Live(st) {
      RetiringKeepsLineup(st, cfg, q, sends);
    }
  }

  // ----- Channels are only added -----

  lemma {:induction false} ForwardGrowsLineup(st: State, cfg: Config, p: nat, question: Question, a: Attempt)
    ensures st.lineup <= Forward(st, cfg, p, question, a).lineup
  {
    hide Serving, LeastActive, FirstFree, RandomizeCase, KeyOf, Enlist;
  }

  lemma {:induction false} ForwardAllGrowsLineup(st: State, cfg: Config, p: nat, question: Question,
                                                 attempts: seq<Attempt>)
    ensures st.lineup <= ForwardAll(st, cfg, p, question, attempts).lineup
    decreases |attempts|
  {
    hide Forward;
    if attempts != [] {
      ForwardGrowsLineup(st, cfg, p, question, attempts[0]);
      ForwardAllGrowsLineup(Forward(st, cfg, p, question, attempts[0]), cfg, p, question, attempts[1..]);
    }
  }

  lemma {:induction false} AskGrowsLineup(st: State, cfg: Config, id: uint16, question: Question,
                                          attempts: seq<Attempt>, sent: bool)
    ensures st.lineup <= Ask(st, cfg, id, question, attempts, sent).lineup
  {
    hide ForwardAll, PendingKey, Siblings, Usable;
    var key := PendingKey(question);
    var s := st.(asked := st.asked + [Asked(id, question)]);
    var prepared := s.(nextLocal := s.nextLocal + 1,
                       pendings := s.pendings[s.nextLocal := Pending(key, [Waiter(|st.asked|, id, question.name)])],
                       pendingUdp := s.pendingUdp[key := s.nextLocal]);
    ForwardAllGrowsLineup(prepared, cfg, s.nextLocal, question, Usable(st, cfg, attempts));
  }

  lemma {:induction false} StepGrowsLineup(st: State, cfg: Config, e: Event)
    ensures st.lineup <= Step(st, cfg, e).lineup
  {
    hide Ask, Receive, Expire;
    match e
    case AskEvent(id, question, attempts, sent) => AskGrowsLineup(st, cfg, id, question, attempts, sent);
    case ReceiveEvent(fd, msg, pick, draws, retrySent, sends) =>
      ReceiveKeepsLineup(st, cfg, fd, msg, pick, draws, retrySent, sends);
    case ExpireEvent(q, sends) => ExpireKeepsLineup(st, cfg, q, sends);
    case SweepEvent =>
    case TimePasses(_) =>
    case TcpWork(_, _) =>
  }

  // ----- Every run -----

  lemma {:induction false} RunKeepsLineup(st: State, cfg: Config, events: seq<Event>)
    requires LinedUp(st)
    ensures LinedUp(Run(st, cfg, events))
    decreases |events|
  {
    hide LinedUp, Step;
    if events != [] {
      StepKeepsLineup(st, cfg, events[0]);
      RunKeepsLineup(Step(st, cfg, events[0]), cfg, events[1..]);
    }
  }

  /**
    * In every run no endpoint has more than four channels, and once it has four a query to it needs no
    * new socket: it goes to the earliest of those that are least active.
    */
  lemma {:induction false} PoolIsBounded(cfg: Config, events: seq<Event>, endpoint: Endpoint, socket: Option<nat>)
    ensures var st := Run(INITIAL, cfg, events);
      && Serving(st.channels, st.lineup, endpoint) <= CHANNELS_PER_FORWARDER
      && (forall fd :: fd in st.channels <==> fd in st.lineup)
      && (Serving(st.channels, st.lineup, endpoint) == CHANNELS_PER_FORWARDER ==>
          exists i :: 0 <= i < |st.lineup| && FirstLeast(st.channels, st.lineup, endpoint, i) &&
            UseChannel(st.channels, st.lineup, endpoint, socket) ==
              Some(Chosen(st.lineup[i], st.channels, st.lineup)))
  {
    hide Run, LeastActive, Serving, FirstLeast;
    StartIsLinedUp();
    RunKeepsLineup(INITIAL, cfg, events);
    var st := Run(INITIAL, cfg, events);
    LeastActiveExactly(st.channels, st.lineup, endpoint);
    if Serving(st.channels, st.lineup, endpoint) == CHANNELS_PER_FORWARDER {
      SomeServes(st.channels, st.lineup, endpoint);
    }
  }

  lemma {:induction false} StartIsLinedUp()
    ensures LinedUp(INITIAL)
  {
  }

  lemma {:induction false} SomeServes(channels: map<nat, Channel>, lineup: seq<nat>, endpoint: Endpoint)
    requires Serving(channels, lineup, endpoint) > 0
    ensures exists i :: 0 <= i < |lineup| && Serves(channels, lineup[i], endpoint)
    decreases |lineup|
  {
    var last := |lineup| - 1;
    if !Serves(channels, lineup[last], endpoint) {
      SomeServes(channels, lineup[..last], endpoint);
      var i :| 0 <= i < last && Serves(channels, lineup[..last][i], endpoint);
      assert Serves(channels, lineup[i], endpoint);
    }
  }
}
