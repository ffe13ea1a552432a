/** Whether a datagram's socket and transaction id identify one live query. */
module UdpTxids {
  import opened Bytes
  import opened Messages
  import opened CoalescingKeys
  import opened Txids
  import opened UdpState
  import opened UdpInvariants
  import opened UdpRuns

  /**
    * Every live query holds its transaction id, no two hold the same, and its socket is its endpoint's;
    * and the ids in `others`, which are not this side's, are held beside theirs.
    */
  predicate Held(st: State, others: set<Txid>) {
    && (forall q :: q in Live(st) ==> TxidOf(st.queries[q]) in st.txids)
    && (forall q :: q in Live(st) ==> HasChannel(st, st.queries[q]))
    && (forall q, r :: q in Live(st) && r in Live(st) && q != r ==> TxidOf(st.queries[q]) != TxidOf(st.queries[r]))
    && others <= st.txids.Keys
    && (forall q :: q in Live(st) ==> TxidOf(st.queries[q]) !in others)
  }

  predicate HasChannel(st: State, q: Query) {
    q.fd in st.channels && st.channels[q.fd].endpoint == q.endpoint
  }

  /** The ids the live queries go by. */
  function LiveIds(st: State): set<Txid> {
    TxidsOf(st.queries, Live(st))
  }

  /** What the caller of the sweep would have to check: none of the ids in use has been filed for the whole timeout. */
  predicate SweepIsSafe(st: State, others: set<Txid>, cfg: Config) {
    forall t :: t in LiveIds(st) + others && t in st.txids ==> st.clock - st.txids[t] < cfg.timeoutMs
  }

  /** The sweep preserves the property exactly when it is safe. */
  lemma {:induction false} SweepExactly(st: State, others: set<Txid>, cfg: Config)
    requires Held(st, others)
    ensures Held(Sweep(st, cfg), others) <==> SweepIsSafe(st, others, cfg)
  {
    var s := Sweep(st, cfg);
    assert Live(s) == Live(st);
    if Held(s, others) {
      forall t | t in LiveIds(st) + others && t in st.txids ensures t in s.txids {
      }
    }
    if SweepIsSafe(st, others, cfg) {
      forall q | q in Live(s) ensures TxidOf(s.queries[q]) in s.txids && HasChannel(s, s.queries[q]) {
        assert TxidOf(s.queries[q]) in LiveIds(st) && HasChannel(st, st.queries[q]);
      }
      assert others <= s.txids.Keys;
    }
  }

  /** While it holds, a socket and an id name at most one live query. */
  lemma {:induction false} LookupIsUnambiguous(st: State, others: set<Txid>, q: nat, r: nat)
    requires Held(st, others) && q in Live(st) && r in Live(st)
    requires KeyOf(st.queries[q]) == KeyOf(st.queries[r])
    ensures q == r
  {
    assert HasChannel(st, st.queries[q]) && HasChannel(st, st.queries[r]);
  }

  lemma {:induction false} FinishKeepsHeld(st: State, others: set<Txid>, done: set<nat>)
    requires Held(st, others) && done <= Live(st)
    ensures Held(Finish(st, done), others)
  {
    var s := Finish(st, done);
    LiveAfterFinish(st, done);
    forall q | q in Live(s)
      ensures TxidOf(s.queries[q]) in s.txids && HasChannel(s, s.queries[q])
    {
      assert q in Live(st) && HasChannel(st, st.queries[q]);
    }
  }

  lemma {:induction false} RetryKeepsHeld(st: State, others: set<Txid>, q: nat, id: uint16)
    requires Held(st, others) && Tables(st) && q in Live(st) && Txid(st.queries[q].endpoint.address, id) !in st.txids
    ensures Held(Retry(st.(txids := st.txids[Txid(st.queries[q].endpoint.address, id) := st.clock]), q, id), others)
  {
    hide Tables, Live;
    LiveIsKnown(st);
    var s := st.(txids := st.txids[Txid(st.queries[q].endpoint.address, id) := st.clock]);
    TablesFrame(st, s);
    RetryKeepsTables(s, q, id);
    RewriteKeepsHeld(st, Retry(s, q, id), others, q);
  }

  /** One query moves to an id that was free; everything else stays. */
  lemma {:induction false} RewriteKeepsHeld(st: State, s: State, others: set<Txid>, q: nat)
    requires Held(st, others) && Live(s) == Live(st) && q in Live(st)
    requires s.channels == st.channels && s.queries == st.queries[q := s.queries[q]]
    requires HasChannel(st, s.queries[q]) && TxidOf(s.queries[q]) !in st.txids
    requires s.txids.Keys == st.txids.Keys + {TxidOf(s.queries[q])}
    ensures Held(s, others)
  {
    hide Tables, Live;
    LiveIsKnown(st);
    forall r | r in Live(s)
      ensures TxidOf(s.queries[r]) in s.txids && HasChannel(s, s.queries[r])
      ensures r != q ==> TxidOf(s.queries[r]) in st.txids
    {
      assert HasChannel(st, st.queries[r]);
    }
  }

  lemma {:induction false} ForwardKeepsHeld(st: State, others: set<Txid>, cfg: Config, p: nat, question: Question,
                                            a: Attempt)
    requires Held(st, others) && Tables(st)
    ensures Held(Forward(st, cfg, p, question, a), others) && Tables(Forward(st, cfg, p, question, a))
  {
    hide FirstFree, RandomizeCase, LocalEntries, SocketEntries, OnChannel, Tables, Register, Serving, LeastActive;
    if TaskCount(st) < cfg.maxTasks && UseChannel(st.channels, st.lineup, a.endpoint, a.socket).Some? {
      var c := UseChannel(st.channels, st.lineup, a.endpoint, a.socket).value;
      var s0 := st.(channels := c.channels, lineup := c.lineup);
      OpenChannelKeepsTables(st, a.endpoint, a.socket);
      TablesHaveSameLive(st, s0);
      forall q | q in Live(s0)
        ensures HasChannel(s0, s0.queries[q])
      {
        assert HasChannel(st, st.queries[q]);
      }
      var free := FirstFree(s0.txids, a.endpoint.address, a.draws);
      if free.Some? {
        FirstFreeExactly(s0.txids, a.endpoint.address, a.draws);
        var s1 := s0.(txids := s0.txids[Txid(a.endpoint.address, free.value) := s0.clock]);
        TablesFrame(s0, s1);
        var q := Query(p, free.value, c.fd, a.endpoint, question.typ, question.clas,
                       question.name, RandomizeCase(question.name, a.flips), true, s0.clock);
        RegisterKeepsHeld(s0, s1, others, q);
        RegisterKeepsTables(s1, q);
      }
    }
  }

  lemma {:induction false} RegisterKeepsHeld(s0: State, s1: State, others: set<Txid>, q: Query)
    requires Held(s0, others) && Tables(s1) && TxidOf(q) !in s0.txids && HasChannel(s1, q)
    requires s1 == s0.(txids := s0.txids[TxidOf(q) := s0.clock])
    ensures Held(Register(s1, q), others)
  {
    hide Tables, Live;
    RegisterKeepsTables(s1, q);
    TablesHaveSameLive(s0, s1);
    LiveIsKnown(s0);
    var after := Register(s1, q);
    forall r | r in Live(after)
      ensures TxidOf(after.queries[r]) in after.txids && HasChannel(after, after.queries[r])
      ensures r != s1.nextQuery ==> TxidOf(after.queries[r]) in s0.txids
    {
      assert r != s1.nextQuery ==> HasChannel(s0, s0.queries[r]);
    }
  }

  lemma {:induction false} ForwardAllKeepsHeld(st: State, others: set<Txid>, cfg: Config, p: nat, question: Question,
                                               attempts: seq<Attempt>)
    requires Held(st, others) && Tables(st)
    ensures Held(ForwardAll(st, cfg, p, question, attempts), others)
    decreases |attempts|
  {
    hide Held, Tables, Forward;
    if attempts != [] {
      ForwardKeepsHeld(st, others, cfg, p, question, attempts[0]);
      ForwardAllKeepsHeld(Forward(st, cfg, p, question, attempts[0]), others, cfg, p, question, attempts[1..]);
    }
  }

  lemma {:induction false} HeldFrame(st: State, s: State, others: set<Txid>)
    requires s.queries == st.queries && s.byLocal == st.byLocal && s.channels == st.channels
    requires st.txids.Keys <= s.txids.Keys
    ensures Held(st, others) ==> Held(s, others)
  {
    assert Live(s) == Live(st);
  }

  lemma {:induction false} DeliverKeepsHeld(st: State, others: set<Txid>, q: nat, sends: seq<bool>)
    requires Held(st, others) && q in Live(st)
    ensures Held(Deliver(st, q, sends), others)
  {
    hide Held, Finish, AnySent;
    var query := st.queries[q];
    var s := st.(log := st.log + RepliesTo(WaitersOf(st, q), query.typ, query.clas, sends));
    HeldFrame(st, s, others);
    SameButLog(st, s, query.local);
    FinishKeepsHeld(s, others, {q});
    FinishKeepsHeld(s, others, Siblings(s, query.local));
  }

  lemma {:induction false} ReceiveKeepsHeld(st: State, others: set<Txid>, fd: nat, msg: Upstream, pick: nat,
                                            draws: seq<uint16>, retrySent: bool, sends: seq<bool>)
    requires Held(st, others) && Tables(st)
    ensures Held(Receive(st, fd, msg, pick, draws, retrySent, sends), others)
  {
    hide Held, Tables, Deliver, Retry, Live, Matches, FirstFree;
    if pick in Live(st) {
      LiveIsKnown(st);
      var q := st.queries[pick];
      DeliverKeepsHeld(st, others, pick, sends);
      var free := FirstFree(st.txids, q.endpoint.address, draws);
      if free.Some? {
        FirstFreeExactly(st.txids, q.endpoint.address, draws);
        var s := st.(txids := st.txids[Txid(q.endpoint.address, free.value) := st.clock]);
        TablesFrame(st, s);
        HeldFrame(st, s, others);
        DeliverKeepsHeld(s, others, pick, sends);
        RetryKeepsHeld(st, others, pick, free.value);
      }
    }
  }

  lemma {:induction false} AskKeepsHeld(st: State, others: set<Txid>, cfg: Config, id: uint16, question: Question,
                                        attempts: seq<Attempt>, sent: bool)
    requires Held(st, others) && Tables(st)
    ensures Held(Ask(st, cfg, id, question, attempts, sent), others)
  {
    hide Held, Tables, ForwardAll, PendingKey, Siblings, Usable;
    var key := PendingKey(question);
    var s := st.(asked := st.asked + [Asked(id, question)]);
    var prepared := s.(nextLocal := s.nextLocal + 1,
                       pendings := s.pendings[s.nextLocal := Pending(key, [Waiter(|st.asked|, id, question.name)])],
                       pendingUdp := s.pendingUdp[key := s.nextLocal]);
    TablesFrame(st, prepared);
    HeldFrame(st, prepared, others);
    ForwardAllKeepsHeld(prepared, others, cfg, s.nextLocal, question, Usable(st, cfg, attempts));
    var done := ForwardAll(prepared, cfg, s.nextLocal, question, Usable(st, cfg, attempts));
    HeldFrame(done, Refuse(done.(pendingUdp := WithoutEntry(done.pendingUdp, key)), |st.asked|, id, question, sent),
              others);
    if Usable(st, cfg, attempts) == [] || (key in s.pendingUdp && s.pendingUdp[key] in s.pendings) {
      HeldFrame(st, Ask(st, cfg, id, question, attempts, sent), others);
    }
  }

  lemma {:induction false} StepKeepsHeld(st: State, others: set<Txid>, cfg: Config, e: Event)
    requires Invariant(st) && Held(st, others) && !e.TcpWork? && (e.SweepEvent? ==> SweepIsSafe(st, others, cfg))
    ensures Held(Step(st, cfg, e), others)
  {
    hide Held, Tables, Coalescing, Replies, SameQuestion, SweepIsSafe, Ask, Receive, Finish, Live;
    match e
    case AskEvent(id, question, attempts, sent) => AskKeepsHeld(st, others, cfg, id, question, attempts, sent);
    case ReceiveEvent(fd, msg, pick, draws, retrySent, sends) =>
      ReceiveKeepsHeld(st, others, fd, msg, pick, draws, retrySent, sends);
    case ExpireEvent(q, sends) => ExpireKeepsHeld(st, others, cfg, q, sends);
    case SweepEvent => SweepExactly(st, others, cfg);
    case TimePasses(elapsed) => HeldFrame(st, st.(clock := st.clock + elapsed), others);
  }

  lemma {:induction false} ExpireKeepsHeld(st: State, others: set<Txid>, cfg: Config, q: nat, sends: seq<bool>)
    requires Held(st, others)
    ensures Held(Expire(st, cfg, q, sends), others)
  {
    hide Held, Finish;
    if q in Live(st) {
      var query := st.queries[q];
      var s := st.(log := st.log + RepliesTo(WaitersOf(st, q), query.typ, query.clas, sends));
      HeldFrame(st, s, others);
      SameButLog(st, s, query.local);
      FinishKeepsHeld(s, others, Siblings(s, query.local));
    }
  }
}
