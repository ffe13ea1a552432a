/** Every step of the UDP forwarder keeps its invariant, hence every run does. */
module UdpRuns {
  import opened Bytes
  import opened Messages
  import opened CoalescingKeys
  import opened Txids
  import opened UdpState
  import opened UdpInvariants

  // ----- Steps that do not touch what a predicate looks at -----

  lemma {:induction false} TablesFrame(st: State, s: State)
    requires s.queries == st.queries && s.byLocal == st.byLocal && s.bySocket == st.bySocket
    requires s.channels == st.channels && s.nextQuery == st.nextQuery
    ensures Live(s) == Live(st) && (Tables(st) ==> Tables(s))
  {
  }

  lemma {:induction false} CoalescingFrame(st: State, s: State, settingUp: set<nat>)
    requires s.queries == st.queries && s.byLocal == st.byLocal && s.nextLocal == st.nextLocal
    requires s.pendings == st.pendings && s.pendingUdp == st.pendingUdp
    ensures Coalescing(st, settingUp) ==> Coalescing(s, settingUp)
    ensures SameQuestion(st) ==> SameQuestion(s)
  {
    assert Live(s) == Live(st);
  }

  lemma {:induction false} RepliesFrame(st: State, s: State)
    requires s.log == st.log && s.asked == st.asked && s.pendings == st.pendings && s.pendingUdp == st.pendingUdp
    ensures Replies(st) ==> Replies(s)
  {
    assert forall t :: Waiting(st, t) ==> Waiting(s, t);
  }

  // ----- Replies and time-outs -----

  lemma {:induction false} FinishKeepsSameQuestion(st: State, done: set<nat>)
    requires SameQuestion(st)
    ensures SameQuestion(Finish(st, done))
  {
    LiveAfterFinish(st, done);
  }

  /** Writing to a transaction's waiters and retiring `done` of its queries. */
  lemma {:induction false} RetireKeepsInvariant(st: State, q: nat, sends: seq<bool>, done: set<nat>)
    requires Invariant(st) && q in Live(st) && done <= Siblings(st, st.queries[q].local)
    requires var query := st.queries[q];
      AnySent(RepliesTo(WaitersOf(st, q), query.typ, query.clas, sends)) ==> done == Siblings(st, query.local)
    ensures var query := st.queries[q];
      var s := st.(log := st.log + RepliesTo(WaitersOf(st, q), query.typ, query.clas, sends));
      Invariant(Finish(s, done))
  {
    hide Finish, Live, Tables, Coalescing, SameQuestion, Replies, Siblings, AnySent, WaitersOf, RepliesTo;
    LiveIsKnown(st);
    var query := st.queries[q];
    var s := st.(log := st.log + RepliesTo(WaitersOf(st, q), query.typ, query.clas, sends));
    SameButLog(st, s, query.local);
    FinishKeepsTables(s, done);
    FinishKeepsCoalescing(s, done, query.local);
    FinishKeepsSameQuestion(s, done);
    RetireKeepsReplies(st, q, sends, done);
  }

  lemma {:induction false} DeliverKeepsInvariant(st: State, q: nat, sends: seq<bool>)
    requires Invariant(st) && q in Live(st)
    ensures Invariant(Deliver(st, q, sends))
  {
    hide Finish, Invariant, WaitersOf, RepliesTo, AnySent, Live;
    LiveIsKnown(st);
    var query := st.queries[q];
    var replies := RepliesTo(WaitersOf(st, q), query.typ, query.clas, sends);
    var s := st.(log := st.log + replies);
    SameButLog(st, s, query.local);
    SiblingOfItself(st, q);
    RetireKeepsInvariant(st, q, sends, if AnySent(replies) then Siblings(st, query.local) else {q});
  }

  lemma {:induction false} SiblingOfItself(st: State, q: nat)
    requires q in Live(st)
    ensures {q} <= Siblings(st, st.queries[q].local)
  {
  }

  lemma {:induction false} ExpireKeepsInvariant(st: State, cfg: Config, q: nat, sends: seq<bool>)
    requires Invariant(st)
    ensures Invariant(Expire(st, cfg, q, sends))
  {
    hide Finish, Invariant, WaitersOf, RepliesTo, AnySent, Live;
    if q in Live(st) {
      LiveIsKnown(st);
      var query := st.queries[q];
      var s := st.(log := st.log + RepliesTo(WaitersOf(st, q), query.typ, query.clas, sends));
      SameButLog(st, s, query.local);
      RetireKeepsInvariant(st, q, sends, Siblings(st, query.local));
    }
  }

  /** A retry changes the id, the EDNS flag and the time of one live query, nothing its transaction sees. */
  lemma {:induction false} RetryFrame(st: State, q: nat, id: uint16)
    requires q in st.queries
    ensures var s := Retry(st, q, id);
      && s.queries.Keys == st.queries.Keys
      && (forall r :: r in st.queries ==> s.queries[r].local == st.queries[r].local)
      && (forall r :: r in st.queries ==> QuestionOf(s.queries[r]) == QuestionOf(st.queries[r]))
      && (forall r :: r in st.queries ==> s.queries[r].forwardName == st.queries[r].forwardName)
  {
  }

  lemma {:induction false} RetryKeepsCoalescing(st: State, q: nat, id: uint16)
    requires Coalescing(st, {}) && SameQuestion(st) && q in st.queries && Live(Retry(st, q, id)) == Live(st)
    ensures Coalescing(Retry(st, q, id), {}) && SameQuestion(Retry(st, q, id))
  {
    hide Live;
    var s := Retry(st, q, id);
    RetryFrame(st, q, id);
    forall k | k in s.pendingUdp
      ensures HasSibling(s.queries, Live(s), s.pendingUdp[k])
    {
      var r :| r in Live(st) && r in st.queries && st.queries[r].local == st.pendingUdp[k];
      assert r in Live(s) && s.queries[r].local == s.pendingUdp[k];
    }
    LiveIsKnown(st);
    forall r | r in Live(s)
      ensures Joined(s, s.queries[r].local)
    {
      LiveIsJoined(st, r);
    }
  }

  lemma {:induction false} RetryKeepsInvariant(st: State, q: nat, id: uint16)
    requires Invariant(st) && q in Live(st)
    ensures Invariant(Retry(st, q, id))
  {
    hide Live, Tables, Coalescing, Replies, SameQuestion;
    LiveIsKnown(st);
    RetryKeepsTables(st, q, id);
    RetryKeepsCoalescing(st, q, id);
    RepliesFrame(st, Retry(st, q, id));
  }

  lemma {:induction false} TxidsKeepInvariant(st: State, txids: map<Txid, nat>)
    requires Invariant(st)
    ensures Invariant(st.(txids := txids))
  {
    hide Tables, Coalescing, Replies, SameQuestion, Live;
    var s := st.(txids := txids);
    TablesFrame(st, s);
    CoalescingFrame(st, s, {});
    RepliesFrame(st, s);
  }

  lemma {:induction false} ReceiveKeepsInvariant(st: State, fd: nat, msg: Upstream, pick: nat, draws: seq<uint16>,
                                                 retrySent: bool, sends: seq<bool>)
    requires Invariant(st)
    ensures Invariant(Receive(st, fd, msg, pick, draws, retrySent, sends))
  {
    hide Invariant, Live, Deliver, Retry, Matches, FirstFree;
    if pick in Live(st) {
      LiveIsKnown(st);
      DeliverKeepsInvariant(st, pick, sends);
      var q := st.queries[pick];
      var free := FirstFree(st.txids, q.endpoint.address, draws);
      if free.Some? {
        var s := st.(txids := st.txids[Txid(q.endpoint.address, free.value) := st.clock]);
        TablesFrame(st, s);
        TxidsKeepInvariant(st, s.txids);
        DeliverKeepsInvariant(s, pick, sends);
        RetryKeepsInvariant(s, pick, free.value);
      }
    }
  }

  // ----- Client queries -----

  /** The replies invariant while the newest ticket is neither waiting nor written to. */
  predicate RepliesButNewest(st: State) {
    && |st.asked| > 0
    && Truthful(st.log, st.asked) && AtMostOnce(st.log)
    && (forall i :: 0 <= i < |st.log| ==> st.log[i].ticket < |st.asked| - 1)
    && (forall k :: k in st.pendingUdp && st.pendingUdp[k] in st.pendings ==>
          var ws := st.pendings[st.pendingUdp[k]].waiters;
          && WaitersOk(ws, k, st.asked) && Unanswered(ws, st.log)
          && forall i :: 0 <= i < |ws| ==> ws[i].ticket < |st.asked| - 1)
    && (forall t :: 0 <= t < |st.asked| - 1 ==> Attempted(st.log, t) || Waiting(st, t))
  }

  lemma {:induction false} WaitersOkGrows(ws: seq<Waiter>, key: bytes, asked: seq<Asked>, a: Asked)
    requires WaitersOk(ws, key, asked)
    ensures WaitersOk(ws, key, asked + [a])
  {
  }

  lemma {:induction false} NewTicket(st: State, a: Asked)
    requires Replies(st)
    ensures RepliesButNewest(st.(asked := st.asked + [a]))
  {
    hide WaitersOk, Unanswered, PendingKey;
    var s := st.(asked := st.asked + [a]);
    forall k | k in s.pendingUdp && s.pendingUdp[k] in s.pendings
      ensures var ws := s.pendings[s.pendingUdp[k]].waiters;
        WaitersOk(ws, k, s.asked) && forall i :: 0 <= i < |ws| ==> ws[i].ticket < |s.asked| - 1
    {
      var ws := s.pendings[s.pendingUdp[k]].waiters;
      WaitersOkGrows(ws, k, st.asked, a);
      TicketsAreKnown(ws, k, st.asked);
    }
    assert forall t :: Waiting(st, t) ==> Waiting(s, t);
  }

  lemma {:induction false} TicketsAreKnown(ws: seq<Waiter>, key: bytes, asked: seq<Asked>)
    requires WaitersOk(ws, key, asked)
    ensures forall i :: 0 <= i < |ws| ==> ws[i].ticket < |asked|
  {
  }

  lemma {:induction false} RefuseNewest(st: State, sent: bool)
    requires RepliesButNewest(st)
    ensures var t := |st.asked| - 1;
      Replies(Refuse(st, t, st.asked[t].id, st.asked[t].question, sent))
  {
    hide WaitersOk, PendingKey;
    var newest := |st.asked| - 1;
    var s := Refuse(st, newest, st.asked[newest].id, st.asked[newest].question, sent);
    assert s.log[|st.log|].ticket == newest;
    forall t | 0 <= t < |s.asked|
      ensures Attempted(s.log, t) || Waiting(s, t)
    {
      if t < newest {
        if Attempted(st.log, t) {
          var i :| 0 <= i < |st.log| && st.log[i].ticket == t;
          assert s.log[i].ticket == t;
        } else {
          assert Waiting(st, t);
        }
      }
    }
  }

  /** The newest client joins, or opens, the entry for its key. */
  lemma {:induction false} WaitNewest(st: State, s: State, k: bytes, p: nat)
    requires RepliesButNewest(st) && s.asked == st.asked && s.log == st.log
    requires var t := |st.asked| - 1;
      var a := st.asked[t];
      var before := if k in st.pendingUdp && p in st.pendings then st.pendings[p].waiters else [];
      && k == PendingKey(a.question)
      && (k in st.pendingUdp ==> st.pendingUdp[k] == p && p in st.pendings)
      && s.pendingUdp == st.pendingUdp[k := p]
      && s.pendings == st.pendings[p := Pending(k, before + [Waiter(t, a.id, a.question.name)])]
    requires forall k' :: k' in st.pendingUdp && k' != k ==> st.pendingUdp[k'] != p
    ensures Replies(s)
  {
    hide PendingKey, WaitersOk, Unanswered, Waiting, WaitsIn, Attempted, Truthful, AtMostOnce;
    var t := |st.asked| - 1;
    var before := if k in st.pendingUdp && p in st.pendings then st.pendings[p].waiters else [];
    NobodyWaitsYet(k, st.asked, st.log);
    NewestWaiter(before, k, st.asked, st.log);
    forall k' | k' in s.pendingUdp && s.pendingUdp[k'] in s.pendings
      ensures var w := s.pendings[s.pendingUdp[k']].waiters;
        WaitersOk(w, k', s.asked) && Unanswered(w, s.log)
    {
    }
    forall u | 0 <= u < |s.asked|
      ensures Attempted(s.log, u) || Waiting(s, u)
    {
      if u == t {
        WaitsAtKey(s, k, t);
      } else if !Attempted(st.log, u) {
        StillWaits(st, s, k, p, u);
      }
    }
  }

  lemma {:induction false} WaitsAtKey(s: State, k: bytes, ticket: nat)
    requires k in s.pendingUdp && s.pendingUdp[k] in s.pendings
    requires WaitsIn(s.pendings[s.pendingUdp[k]].waiters, ticket)
    ensures Waiting(s, ticket)
  {
  }

  lemma {:induction false} NobodyWaitsYet(k: bytes, asked: seq<Asked>, log: seq<Reply>)
    ensures WaitersOk([], k, asked) && Unanswered([], log)
  {
  }

  /** The client with the newest ticket may stand behind any others that ask for the same key. */
  lemma {:induction false} NewestWaiter(ws: seq<Waiter>, k: bytes, asked: seq<Asked>, log: seq<Reply>)
    requires WaitersOk(ws, k, asked) && Unanswered(ws, log) && asked != []
    requires forall i :: 0 <= i < |ws| ==> ws[i].ticket < |asked| - 1
    requires forall i :: 0 <= i < |log| ==> log[i].ticket < |asked| - 1
    requires PendingKey(asked[|asked| - 1].question) == k
    ensures var t, a := |asked| - 1, asked[|asked| - 1];
      var after := ws + [Waiter(t, a.id, a.question.name)];
      WaitersOk(after, k, asked) && Unanswered(after, log) && WaitsIn(after, t)
  {
    hide PendingKey;
    var t, a := |asked| - 1, asked[|asked| - 1];
    assert (ws + [Waiter(t, a.id, a.question.name)])[|ws|].ticket == t;
  }

  lemma {:induction false} StillWaits(st: State, s: State, k: bytes, p: nat, u: nat)
    requires Waiting(st, u)
    requires k in st.pendingUdp ==> st.pendingUdp[k] == p && p in st.pendings
    requires forall k' :: k' in st.pendingUdp && k' != k ==> st.pendingUdp[k'] != p
    requires s.pendingUdp == st.pendingUdp[k := p] && p in s.pendings
    requires s.pendings == st.pendings[p := s.pendings[p]]
    requires k in st.pendingUdp ==> st.pendings[p].waiters <= s.pendings[p].waiters
    ensures Waiting(s, u)
  {
    var k' :| k' in st.pendingUdp && st.pendingUdp[k'] in st.pendings &&
        WaitsIn(st.pendings[st.pendingUdp[k']].waiters, u);
    var ws := st.pendings[st.pendingUdp[k']].waiters;
    var i :| 0 <= i < |ws| && ws[i].ticket == u;
    var after := s.pendings[s.pendingUdp[k']].waiters;
    assert after[i].ticket == u;
    assert WaitsIn(after, u);
  }

  // ----- Fan-out -----

  /** What forwarding leaves alone, and that it only adds live queries. */
  lemma {:induction false} ForwardFrame(st: State, cfg: Config, local: nat, question: Question, a: Attempt)
    ensures var s := Forward(st, cfg, local, question, a);
      && s.pendings == st.pendings && s.pendingUdp == st.pendingUdp && s.asked == st.asked && s.log == st.log
      && s.nextLocal == st.nextLocal && s.clock == st.clock && s.tcpTasks == st.tcpTasks
  {
  }

  lemma {:induction false} OpenChannelKeepsTables(st: State, endpoint: Endpoint, socket: Option<nat>)
    requires Tables(st) && UseChannel(st.channels, st.lineup, endpoint, socket).Some?
    ensures var c := UseChannel(st.channels, st.lineup, endpoint, socket).value;
      Tables(st.(channels := c.channels, lineup := c.lineup))
  {
    hide Serving, LeastActive;
    var c := UseChannel(st.channels, st.lineup, endpoint, socket).value;
    var s := st.(channels := c.channels, lineup := c.lineup);
    assert Live(s) == Live(st);
    if c.fd !in st.channels {
      assert OnChannel(st.queries, Live(st), c.fd) == {};
    }
  }

  /** The parts of the invariant that hold while a transaction is being set up. */
  predicate Forwarding(st: State, settingUp: set<nat>) {
    Tables(st) && Coalescing(st, settingUp) && SameQuestion(st)
  }

  lemma {:induction false} RegisterKeepsForwarding(st: State, q: Query, p: nat)
    requires Forwarding(st, {p}) && q.fd in st.channels && q.local == p && Joined(st, p)
    requires PendingKey(QuestionOf(q)) == st.pendings[p].key && Lower(q.forwardName) == Lower(q.requestName)
    ensures Forwarding(Register(st, q), {p}) && Joined(Register(st, q), p)
    ensures Live(Register(st, q)) == Live(st) + {st.nextQuery}
  {
    hide Tables, Coalescing, SameQuestion, PendingKey, Live;
    RegisterKeepsTables(st, q);
    NextIsNew(st);
    RegisterKeepsCoalescing(st, q, p);
    RegisterKeepsQuestions(st, q, p);
  }

  lemma {:induction false} NextIsNew(st: State)
    requires Tables(st)
    ensures st.nextQuery !in st.queries
  {
  }

  lemma {:induction false} RegisterKeepsCoalescing(st: State, q: Query, p: nat)
    requires Coalescing(st, {p}) && q.fd in st.channels && q.local == p && Joined(st, p) && st.nextQuery !in st.queries
    requires Live(Register(st, q)) == Live(st) + {st.nextQuery}
    ensures Coalescing(Register(st, q), {p}) && Joined(Register(st, q), p)
  {
    hide Live;
    var s := Register(st, q);
    LiveIsKnown(st);
    forall r | r in Live(s)
      ensures Joined(s, s.queries[r].local)
    {
      if r != st.nextQuery { assert Joined(st, st.queries[r].local); }
    }
    forall k | k in s.pendingUdp
      ensures s.pendingUdp[k] in {p} || HasSibling(s.queries, Live(s), s.pendingUdp[k])
    {
      if st.pendingUdp[k] != p {
        var r :| r in Live(st) && r in st.queries && st.queries[r].local == st.pendingUdp[k];
        assert r in Live(s) && s.queries[r].local == s.pendingUdp[k];
      }
    }
  }

  lemma {:induction false} RegisterKeepsQuestions(st: State, q: Query, p: nat)
    requires SameQuestion(st) && q.fd in st.channels && q.local == p && p in st.pendings && st.nextQuery !in st.queries
    requires PendingKey(QuestionOf(q)) == st.pendings[p].key && Lower(q.forwardName) == Lower(q.requestName)
    requires Live(Register(st, q)) == Live(st) + {st.nextQuery}
    ensures SameQuestion(Register(st, q))
  {
    hide Live, PendingKey;
    LiveIsKnown(st);
  }

  lemma {:induction false} ForwardKeepsForwarding(st: State, cfg: Config, p: nat, question: Question, a: Attempt)
    requires Forwarding(st, {p}) && Joined(st, p) && PendingKey(question) == st.pendings[p].key
    ensures var s := Forward(st, cfg, p, question, a);
      Forwarding(s, {p}) && Joined(s, p) && Siblings(st, p) <= Siblings(s, p)
  {
    hide Tables, Coalescing, SameQuestion, Register, FirstFree, UseChannel, PendingKey, Live, RandomizeCase;
    if UseChannel(st.channels, st.lineup, a.endpoint, a.socket).Some? {
      var c := UseChannel(st.channels, st.lineup, a.endpoint, a.socket).value;
      var s0 := st.(channels := c.channels, lineup := c.lineup);
      OpenChannelKeepsTables(st, a.endpoint, a.socket);
      CoalescingFrame(st, s0, {p});
      TablesHaveSameLive(st, s0);
      var free := FirstFree(s0.txids, a.endpoint.address, a.draws);
      if free.Some? {
        var s1 := s0.(txids := s0.txids[Txid(a.endpoint.address, free.value) := s0.clock]);
        TablesFrame(s0, s1);
        CoalescingFrame(s0, s1, {p});
        var q := Query(p, free.value, c.fd, a.endpoint, question.typ, question.clas,
                       question.name, RandomizeCase(question.name, a.flips), true, s0.clock);
        RandomizedNameIsSameName(question.name, a.flips);
        RegisterKeepsForwarding(s1, q, p);
        RegisterAddsSibling(s1, q);
      }
    }
  }

  lemma {:induction false} TablesHaveSameLive(st: State, s: State)
    requires s.queries == st.queries && s.byLocal == st.byLocal
    ensures Live(s) == Live(st)
  {
  }

  lemma {:induction false} RegisterAddsSibling(st: State, q: Query)
    requires st.nextQuery !in st.queries && q.fd in st.channels
    requires Live(Register(st, q)) == Live(st) + {st.nextQuery}
    ensures Siblings(st, q.local) <= Siblings(Register(st, q), q.local)
  {
  }

  lemma {:induction false} ForwardAllKeepsForwarding(st: State, cfg: Config, p: nat, question: Question,
                                                     attempts: seq<Attempt>)
    requires Forwarding(st, {p}) && Joined(st, p) && PendingKey(question) == st.pendings[p].key
    ensures var s := ForwardAll(st, cfg, p, question, attempts);
      && Forwarding(s, {p}) && Joined(s, p)
      && s.pendings == st.pendings && s.pendingUdp == st.pendingUdp && s.asked == st.asked && s.log == st.log
      && s.nextLocal == st.nextLocal
    decreases |attempts|
  {
    hide Forwarding, Joined, Forward, PendingKey;
    if attempts != [] {
      ForwardFrame(st, cfg, p, question, attempts[0]);
      ForwardKeepsForwarding(st, cfg, p, question, attempts[0]);
      ForwardAllKeepsForwarding(Forward(st, cfg, p, question, attempts[0]), cfg, p, question, attempts[1..]);
    }
  }

  lemma {:induction false} OpenKeepsForwarding(st: State, s: State, k: bytes, ws: seq<Waiter>)
    requires Forwarding(st, {}) && k !in st.pendingUdp
    requires s == st.(nextLocal := st.nextLocal + 1, pendings := st.pendings[st.nextLocal := Pending(k, ws)],
                      pendingUdp := st.pendingUdp[k := st.nextLocal])
    ensures Forwarding(s, {st.nextLocal}) && Joined(s, st.nextLocal)
  {
    hide Tables, Coalescing, SameQuestion, PendingKey, Live;
    TablesFrame(st, s);
    TablesHaveSameLive(st, s);
    OpenKeepsCoalescing(st, s, k, ws);
    OpenKeepsQuestions(st, s, k, ws);
  }

  lemma {:induction false} OpenKeepsCoalescing(st: State, s: State, k: bytes, ws: seq<Waiter>)
    requires Coalescing(st, {}) && k !in st.pendingUdp && Live(s) == Live(st)
    requires s == st.(nextLocal := st.nextLocal + 1, pendings := st.pendings[st.nextLocal := Pending(k, ws)],
                      pendingUdp := st.pendingUdp[k := st.nextLocal])
    ensures Coalescing(s, {st.nextLocal})
  {
    hide Live;
    LiveIsKnown(st);
    forall r | r in Live(s)
      ensures Joined(s, s.queries[r].local)
    {
      assert Joined(st, st.queries[r].local);
    }
    forall k' | k' in s.pendingUdp
      ensures s.pendingUdp[k'] in {st.nextLocal} || HasSibling(s.queries, Live(s), s.pendingUdp[k'])
    {
      if k' != k { assert HasSibling(st.queries, Live(st), st.pendingUdp[k']); }
    }
  }

  /** No live query belongs to the transaction that is about to be opened. */
  lemma {:induction false} OpenKeepsQuestions(st: State, s: State, k: bytes, ws: seq<Waiter>)
    requires SameQuestion(st) && Coalescing(st, {}) && Live(s) == Live(st)
    requires s == st.(nextLocal := st.nextLocal + 1, pendings := st.pendings[st.nextLocal := Pending(k, ws)],
                      pendingUdp := st.pendingUdp[k := st.nextLocal])
    ensures SameQuestion(s)
  {
    hide Live, PendingKey;
    LiveIsKnown(st);
  }

  /** A transaction that got at least one query out is set up; one that got none is dropped again. */
  lemma {:induction false} SetUpEnds(st: State, p: nat, k: bytes)
    requires Forwarding(st, {p}) && k in st.pendingUdp && st.pendingUdp[k] == p
    ensures Siblings(st, p) != {} ==> Forwarding(st, {})
    ensures Siblings(st, p) == {} ==> Forwarding(st.(pendingUdp := WithoutEntry(st.pendingUdp, k)), {})
  {
    hide LocalEntries, SocketEntries, OnChannel, PendingKey;
    if Siblings(st, p) != {} {
      var q :| q in Siblings(st, p);
      assert HasSibling(st.queries, Live(st), p);
    } else {
      var s := st.(pendingUdp := WithoutEntry(st.pendingUdp, k));
      TablesFrame(st, s);
      forall r | r in Live(s)
        ensures Joined(s, s.queries[r].local)
      {
        assert Joined(st, st.queries[r].local);
        assert r !in Siblings(st, p);
      }
      assert st.pendings[p].key == k;
    }
  }

  /** Joining an entry changes nothing but its list of waiters. */
  lemma {:induction false} JoinKeepsForwarding(st: State, p: nat, w: Waiter)
    requires Forwarding(st, {}) && p in st.pendings
    ensures var pending := st.pendings[p];
      Forwarding(st.(pendings := st.pendings[p := pending.(waiters := pending.waiters + [w])]), {})
  {
    hide LocalEntries, SocketEntries, OnChannel, PendingKey;
    var pending := st.pendings[p];
    var s := st.(pendings := st.pendings[p := pending.(waiters := pending.waiters + [w])]);
    TablesFrame(st, s);
    forall r | r in Live(s)
      ensures Joined(s, s.queries[r].local)
    {
      assert Joined(st, st.queries[r].local);
    }
  }

  lemma {:induction false} ForwardingFrame(st: State, s: State, settingUp: set<nat>)
    requires s == st.(asked := s.asked, log := s.log)
    ensures Forwarding(st, settingUp) ==> Forwarding(s, settingUp)
  {
    hide Tables, Coalescing, SameQuestion, Live;
    TablesFrame(st, s);
    CoalescingFrame(st, s, settingUp);
  }

  lemma {:induction false} RefuseKeepsInvariant(st: State, sent: bool)
    requires Forwarding(st, {}) && RepliesButNewest(st)
    ensures var t := |st.asked| - 1;
      Invariant(Refuse(st, t, st.asked[t].id, st.asked[t].question, sent))
  {
    hide Tables, Coalescing, SameQuestion, Replies;
    var t := |st.asked| - 1;
    RefuseNewest(st, sent);
    ForwardingFrame(st, Refuse(st, t, st.asked[t].id, st.asked[t].question, sent), {});
  }

  lemma {:induction false} EntriesPointAtOwners(st: State, k: bytes, k': bytes)
    requires Coalescing(st, {}) && k in st.pendingUdp && k' in st.pendingUdp && k != k'
    ensures st.pendingUdp[k] != st.pendingUdp[k'] && st.pendingUdp[k] in st.pendings
    ensures st.pendings[st.pendingUdp[k]].key == k && st.pendingUdp[k] < st.nextLocal
  {
  }

  lemma {:induction false} AskKeepsInvariant(st: State, cfg: Config, id: uint16, question: Question,
                                             attempts: seq<Attempt>, refusalSent: bool)
    requires Invariant(st)
    ensures Invariant(Ask(st, cfg, id, question, attempts, refusalSent))
  {
    hide Forwarding, Coalescing, Replies, RepliesButNewest, PendingKey, ForwardAll, Usable, Siblings, Tables,
         SameQuestion, Refuse;
    var ticket, key := |st.asked|, PendingKey(question);
    var waiter := Waiter(ticket, id, question.name);
    var s := st.(asked := st.asked + [Asked(id, question)]);
    assert s.asked[ticket] == Asked(id, question);
    InvariantParts(st);
    NewTicket(st, Asked(id, question));
    ForwardingFrame(st, s, {});
    RefuseKeepsInvariant(s, refusalSent);
    if key in s.pendingUdp && s.pendingUdp[key] in s.pendings {
      AskJoins(s, key, waiter);
    } else {
      AskOpens(s, cfg, key, waiter, question, Usable(st, cfg, attempts), refusalSent);
    }
  }

  lemma {:induction false} InvariantParts(st: State)
    ensures Invariant(st) <==> Forwarding(st, {}) && Replies(st)
    ensures Forwarding(st, {}) ==> Coalescing(st, {})
  {
    hide Tables, Coalescing, SameQuestion, Replies;
  }

  lemma {:induction false} AskJoins(s: State, key: bytes, waiter: Waiter)
    requires Forwarding(s, {}) && RepliesButNewest(s)
    requires key in s.pendingUdp && s.pendingUdp[key] in s.pendings
    requires var t := |s.asked| - 1;
      waiter == Waiter(t, s.asked[t].id, s.asked[t].question.name) && key == PendingKey(s.asked[t].question)
    ensures var p := s.pendingUdp[key];
      var pending := s.pendings[p];
      Invariant(s.(pendings := s.pendings[p := pending.(waiters := pending.waiters + [waiter])]))
  {
    hide Forwarding, Coalescing, Replies, RepliesButNewest, PendingKey, Tables, SameQuestion;
    var p := s.pendingUdp[key];
    var pending := s.pendings[p];
    var after := s.(pendings := s.pendings[p := pending.(waiters := pending.waiters + [waiter])]);
    InvariantParts(s);
    InvariantParts(after);
    JoinKeepsForwarding(s, p, waiter);
    forall k' | k' in s.pendingUdp && k' != key
      ensures s.pendingUdp[k'] != p
    {
      EntriesPointAtOwners(s, key, k');
    }
    EntryOwner(s, key);
    assert s.pendingUdp == s.pendingUdp[key := p];
    WaitNewest(s, after, key, p);
  }

  lemma {:induction false} EntryOwner(st: State, k: bytes)
    requires Coalescing(st, {}) && k in st.pendingUdp
    ensures st.pendingUdp[k] in st.pendings && st.pendings[st.pendingUdp[k]].key == k
    ensures st.pendingUdp[k] < st.nextLocal
  {
  }

  lemma {:induction false} AskOpens(s: State, cfg: Config, key: bytes, waiter: Waiter, question: Question,
                                    attempts: seq<Attempt>, refusalSent: bool)
    requires Forwarding(s, {}) && RepliesButNewest(s)
    requires key !in s.pendingUdp || s.pendingUdp[key] !in s.pendings
    requires var t := |s.asked| - 1;
      && waiter == Waiter(t, s.asked[t].id, question.name) && question == s.asked[t].question
      && key == PendingKey(question)
    ensures var local := s.nextLocal;
      var prepared := s.(nextLocal := local + 1, pendings := s.pendings[local := Pending(key, [waiter])],
                         pendingUdp := s.pendingUdp[key := local]);
      var sent := ForwardAll(prepared, cfg, local, question, attempts);
      var t := |s.asked| - 1;
      Invariant(if Siblings(sent, local) != {} then sent
                else Refuse(sent.(pendingUdp := WithoutEntry(sent.pendingUdp, key)), t, s.asked[t].id, question,
                    refusalSent))
  {
    hide Forwarding, Coalescing, Replies, RepliesButNewest, PendingKey, Tables, SameQuestion, ForwardAll, Siblings,
         Refuse;
    InvariantParts(s);
    if key in s.pendingUdp { EntryOwner(s, key); }
    var local := s.nextLocal;
    var prepared := s.(nextLocal := local + 1, pendings := s.pendings[local := Pending(key, [waiter])],
                       pendingUdp := s.pendingUdp[key := local]);
    OpenKeepsForwarding(s, prepared, key, [waiter]);
    ForwardAllKeepsForwarding(prepared, cfg, local, question, attempts);
    var sent := ForwardAll(prepared, cfg, local, question, attempts);
    SetUpEnds(sent, local, key);
    forall k' | k' in s.pendingUdp
      ensures s.pendingUdp[k'] != local && s.pendingUdp[k'] in s.pendings
    {
      EntryOwner(s, k');
    }
    if Siblings(sent, local) != {} {
      InvariantParts(sent);
      assert [] + [waiter] == [waiter];
      WaitNewest(s, sent, key, local);
    } else {
      var dropped := sent.(pendingUdp := WithoutEntry(sent.pendingUdp, key));
      assert dropped.pendingUdp == s.pendingUdp;
      UnusedEntryIsHarmless(s, dropped, local);
      RefuseKeepsInvariant(dropped, refusalSent);
    }
  }

  lemma {:induction false} UnusedEntryIsHarmless(st: State, s: State, p: nat)
    requires RepliesButNewest(st) && s.asked == st.asked && s.log == st.log && s.pendingUdp == st.pendingUdp
    requires forall k :: k in st.pendingUdp ==> st.pendingUdp[k] != p && st.pendingUdp[k] in st.pendings
    requires p in s.pendings && s.pendings == st.pendings[p := s.pendings[p]]
    ensures RepliesButNewest(s)
  {
    hide WaitersOk, Unanswered;
    assert forall t :: Waiting(st, t) ==> Waiting(s, t);
  }

  // ----- Runs -----

  lemma {:induction false} StepKeepsInvariant(st: State, cfg: Config, e: Event)
    requires Invariant(st)
    ensures Invariant(Step(st, cfg, e))
  {
    hide Invariant, Ask, Receive, Expire;
    match e
    case AskEvent(id, question, attempts, refusalSent) =>
      AskKeepsInvariant(st, cfg, id, question, attempts, refusalSent);
    case ReceiveEvent(fd, msg, pick, draws, retrySent, sends) =>
      ReceiveKeepsInvariant(st, fd, msg, pick, draws, retrySent, sends);
    case ExpireEvent(q, sends) => ExpireKeepsInvariant(st, cfg, q, sends);
    case SweepEvent => TxidsKeepInvariant(st, Sweep(st, cfg).txids);
    case TimePasses(elapsed) => ClockKeepsInvariant(st, st.(clock := st.clock + elapsed));
    case TcpWork(tasks, txids) =>
      ClockKeepsInvariant(st, st.(tcpTasks := tasks));
      TxidsKeepInvariant(st.(tcpTasks := tasks), txids);
  }

  lemma {:induction false} ClockKeepsInvariant(st: State, s: State)
    requires Invariant(st) && s == st.(clock := s.clock, tcpTasks := s.tcpTasks)
    ensures Invariant(s)
  {
    hide Tables, Coalescing, Replies, SameQuestion, Live;
    TablesFrame(st, s);
    CoalescingFrame(st, s, {});
    RepliesFrame(st, s);
  }

  lemma {:induction false} RunKeepsInvariant(st: State, cfg: Config, events: seq<Event>)
    requires Invariant(st)
    ensures Invariant(Run(st, cfg, events))
    decreases |events|
  {
    hide Invariant, Step;
    if events != [] {
      StepKeepsInvariant(st, cfg, events[0]);
      RunKeepsInvariant(Step(st, cfg, events[0]), cfg, events[1..]);
    }
  }

  lemma {:induction false} InvariantHolds(cfg: Config, events: seq<Event>)
    ensures Invariant(Run(INITIAL, cfg, events))
  {
    hide Run;
    assert Invariant(INITIAL) by { assert Live(INITIAL) == {}; }
    RunKeepsInvariant(INITIAL, cfg, events);
  }
}
