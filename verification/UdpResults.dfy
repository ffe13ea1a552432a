/** What the invariant means for clients and for the tables, in every reachable state. */
module UdpResults {
  import opened Bytes
  import opened Messages
  import opened CoalescingKeys
  import opened Txids
  import opened UdpState
  import opened UdpInvariants
  import opened UdpRuns

  /**
    * The two tables always list the same queries, once each: every registration is that of a live
    * query under its current transaction and its current socket key, also after an EDNS retry.
    */
  lemma {:induction false} TablesAgree(cfg: Config, events: seq<Event>)
    ensures var st := Run(INITIAL, cfg, events);
      && (forall x :: x in st.byLocal ==>
            x.1 in Live(st) && x.0 == st.queries[x.1].local && st.byLocal[x] == 1)
      && (forall x :: x in st.bySocket ==>
            x.1 in Live(st) && x.0 == KeyOf(st.queries[x.1]) && st.bySocket[x] == 1)
      && (forall q :: q in Live(st) ==>
            (st.queries[q].local, q) in st.byLocal && (KeyOf(st.queries[q]), q) in st.bySocket)
      && (forall fd :: fd in st.channels ==> st.channels[fd].active == |OnChannel(st.queries, Live(st), fd)|)
  {
    hide Run, Coalescing, Replies, SameQuestion;
    InvariantHolds(cfg, events);
    var st := Run(INITIAL, cfg, events);
    assert Tables(st);
    forall x | x in st.byLocal
      ensures x.1 in Live(st) && x.0 == st.queries[x.1].local
    {
      assert x in LocalEntries(st.queries, Live(st));
    }
    forall x | x in st.bySocket
      ensures x.1 in Live(st) && x.0 == KeyOf(st.queries[x.1])
    {
      assert x in SocketEntries(st.queries, Live(st));
    }
    forall q | q in Live(st)
      ensures (KeyOf(st.queries[q]), q) in st.bySocket
    {
      assert (KeyOf(st.queries[q]), q) in SocketEntries(st.queries, Live(st));
    }
  }

  /**
    * A coalescing entry exists for a key exactly while a live query asks for that key, and two live
    * queries ask for the same key exactly when they are siblings.
    */
  lemma {:induction false} NoOrphans(cfg: Config, events: seq<Event>)
    ensures var st := Run(INITIAL, cfg, events);
      && (forall k :: k in st.pendingUdp <==> exists q :: q in Live(st) && PendingKey(QuestionOf(st.queries[q])) == k)
      && (forall q, r :: q in Live(st) && r in Live(st) ==>
            (PendingKey(QuestionOf(st.queries[q])) == PendingKey(QuestionOf(st.queries[r])) <==>
             st.queries[q].local == st.queries[r].local))
  {
    hide Run, Tables, Replies, PendingKey, QuestionOf;
    InvariantHolds(cfg, events);
    var st := Run(INITIAL, cfg, events);
    forall q | q in Live(st)
      ensures Joined(st, st.queries[q].local)
      ensures PendingKey(QuestionOf(st.queries[q])) == st.pendings[st.queries[q].local].key
    {
      LiveIsJoined(st, q);
    }
    forall k | k in st.pendingUdp
      ensures exists q :: q in Live(st) && PendingKey(QuestionOf(st.queries[q])) == k
    {
      var q :| q in Live(st) && q in st.queries && st.queries[q].local == st.pendingUdp[k];
    }
  }

  /**
    * Over any run each client query gets at most one reply that was sent, and every reply, sent or
    * not, carries that client's id and that client's question in the client's own spelling.
    */
  lemma {:induction false} AtMostOneReply(cfg: Config, events: seq<Event>)
    ensures var st := Run(INITIAL, cfg, events);
      && (forall i, j :: 0 <= i < j < |st.log| && st.log[i].sent && st.log[j].sent ==>
          st.log[i].ticket != st.log[j].ticket)
      && (forall i :: 0 <= i < |st.log| ==>
            && st.log[i].ticket < |st.asked|
            && st.asked[st.log[i].ticket] == Asked(st.log[i].id, st.log[i].question))
  {
    hide Run, Tables, Coalescing, SameQuestion;
    InvariantHolds(cfg, events);
  }

  /** No client query is forgotten: it still waits, or a reply to it has at least been attempted. */
  lemma {:induction false} EveryClientIsAccountedFor(cfg: Config, events: seq<Event>)
    ensures var st := Run(INITIAL, cfg, events);
      forall t :: 0 <= t < |st.asked| ==> Attempted(st.log, t) || Waiting(st, t)
  {
    hide Run, Tables, Coalescing, SameQuestion;
    InvariantHolds(cfg, events);
  }

  predicate Answered(log: seq<Reply>, ticket: nat) {
    exists i :: 0 <= i < |log| && log[i].ticket == ticket && log[i].sent
  }

  /**
    * What one upstream answer does to the i-th waiter. It is answered exactly if its own write
    * succeeds, and goes on waiting exactly if no write at all succeeded while a sibling is still out.
    * So it is dropped without an answer exactly when its write fails and either another write of the
    * same transaction succeeded or this was the last sibling.
    */
  lemma {:induction false} DeliverOutcome(st: State, q: nat, sends: seq<bool>, i: nat)
    requires Invariant(st) && q in Live(st) && i < |WaitersOf(st, q)|
    ensures var ticket := WaitersOf(st, q)[i].ticket;
      var query := st.queries[q];
      var reached := AnySent(RepliesTo(WaitersOf(st, q), query.typ, query.clas, sends));
      var after := Deliver(st, q, sends);
      && (Answered(after.log, ticket) <==> i < |sends| && sends[i])
      && (Waiting(after, ticket) <==> !reached && Siblings(st, query.local) != {q})
  {
    hide Tables, Finish, AnySent, SameQuestion;
    var query, ws := st.queries[q], WaitersOf(st, q);
    var p, ticket := query.local, ws[i].ticket;
    LiveIsJoined(st, q);
    var k := st.pendings[p].key;
    assert WaitersOk(ws, k, st.asked) && Unanswered(ws, st.log);
    var replies := RepliesTo(ws, query.typ, query.clas, sends);
    var s := st.(log := st.log + replies);
    AnsweredByOwnWrite(st, ws, replies, i, sends);
    SameButLog(st, s, p);
    var done := if AnySent(replies) then Siblings(s, p) else {q};
    SiblingOfItself(st, q);
    var after := Finish(s, done);
    FinishFrame(s, done);
    EntrySurvives(s, done, p, k);
    OnlyOneEntry(st, after, k, ticket);
    if k in after.pendingUdp {
      assert WaitsIn(ws, ticket);
    }
  }

  lemma {:induction false} AnsweredByOwnWrite(st: State, ws: seq<Waiter>, replies: seq<Reply>, i: nat, sends: seq<bool>)
    requires i < |ws| == |replies| && Unanswered(ws, st.log)
    requires forall a, b :: 0 <= a < b < |ws| ==> ws[a].ticket < ws[b].ticket
    requires forall j :: 0 <= j < |ws| ==>
            replies[j].ticket == ws[j].ticket && replies[j].sent == (j < |sends| && sends[j])
    ensures Answered(st.log + replies, ws[i].ticket) <==> i < |sends| && sends[i]
  {
    var log := st.log + replies;
    if i < |sends| && sends[i] {
      assert log[|st.log| + i].ticket == ws[i].ticket && log[|st.log| + i].sent;
    }
    if Answered(log, ws[i].ticket) {
      var j :| 0 <= j < |log| && log[j].ticket == ws[i].ticket && log[j].sent;
      assert j >= |st.log|;
      assert replies[j - |st.log|].ticket == ws[j - |st.log|].ticket;
      assert j - |st.log| == i;
    }
  }

  lemma {:induction false} EntrySurvives(s: State, done: set<nat>, p: nat, k: bytes)
    requires Coalescing(s, {}) && done <= Siblings(s, p)
    requires k in s.pendingUdp && s.pendingUdp[k] == p
    ensures k in Finish(s, done).pendingUdp <==> done != Siblings(s, p)
  {
    if done != Siblings(s, p) {
      var r :| r in Siblings(s, p) && r !in done;
      assert r in Live(s) - done;
    }
  }

  /** A ticket can wait only in the entry of the question it asked. */
  lemma {:induction false} OnlyOneEntry(st: State, after: State, k: bytes, ticket: nat)
    requires Coalescing(st, {}) && Replies(st) && ticket < |st.asked| && PendingKey(st.asked[ticket].question) == k
    requires after.pendings == st.pendings
    requires forall k' :: k' in after.pendingUdp ==> k' in st.pendingUdp && after.pendingUdp[k'] == st.pendingUdp[k']
    ensures Waiting(after, ticket) ==> k in after.pendingUdp
  {
    if Waiting(after, ticket) {
      var k' :| k' in after.pendingUdp && after.pendingUdp[k'] in after.pendings
        && WaitsIn(after.pendings[after.pendingUdp[k']].waiters, ticket);
      assert WaitersOk(st.pendings[st.pendingUdp[k']].waiters, k', st.asked);
    }
  }

  /** Expiry completes a transaction: nothing of it stays live and every waiter has been written to. */
  lemma {:induction false} ExpiryCompletes(st: State, cfg: Config, q: nat, sends: seq<bool>)
    requires Invariant(st) && q in Live(st) && st.clock >= st.queries[q].timestamp + cfg.timeoutMs
    ensures var after := Expire(st, cfg, q, sends);
      var p := st.queries[q].local;
      && Siblings(after, p) == {} && st.pendings[p].key !in after.pendingUdp
      && Live(after) == Live(st) - Siblings(st, p)
      && forall i :: 0 <= i < |WaitersOf(st, q)| ==> Attempted(after.log, WaitersOf(st, q)[i].ticket)
  {
    hide Tables, Replies, SameQuestion, Finish, Coalescing, RepliesTo, Siblings, Attempted;
    var query, ws := st.queries[q], WaitersOf(st, q);
    var p := query.local;
    LiveIsJoined(st, q);
    var s := st.(log := st.log + RepliesTo(ws, query.typ, query.clas, sends));
    SameButLog(st, s, p);
    FinishRetires(s, p, st.pendings[p].key);
    FinishFrame(s, Siblings(s, p));
    AllAttempted(st, ws, query.typ, query.clas, sends);
  }

  /** Retiring all siblings leaves none of them, nor their entry. */
  lemma {:induction false} FinishRetires(st: State, p: nat, k: bytes)
    requires Coalescing(st, {}) && k in st.pendingUdp && st.pendingUdp[k] == p
    ensures var after := Finish(st, Siblings(st, p));
      && Siblings(after, p) == {} && k !in after.pendingUdp && Live(after) == Live(st) - Siblings(st, p)
  {
    EntrySurvives(st, Siblings(st, p), p, k);
    hide Coalescing, Live;
    LiveAfterFinish(st, Siblings(st, p));
    FinishFrame(st, Siblings(st, p));
  }

  lemma {:induction false} AllAttempted(st: State, ws: seq<Waiter>, typ: uint16, clas: uint16, sends: seq<bool>)
    ensures forall i :: 0 <= i < |ws| ==> Attempted(st.log + RepliesTo(ws, typ, clas, sends), ws[i].ticket)
  {
    var log := st.log + RepliesTo(ws, typ, clas, sends);
    forall i | 0 <= i < |ws| ensures Attempted(log, ws[i].ticket) {
      assert log[|st.log| + i].ticket == ws[i].ticket;
    }
  }

  // ----- Deadlines -----

  /** From st on, the deadline of q is as it was, or has been moved by the one retry EDNS allows. */
  predicate RefreshedOnceAtMost(st: State, after: State, q: nat)
    requires q in st.queries
  {
    && q in after.queries
    && (after.queries[q].timestamp == st.queries[q].timestamp || (st.queries[q].usedEdns && !after.queries[q].usedEdns))
    && (!st.queries[q].usedEdns ==> !after.queries[q].usedEdns)
  }

  lemma {:induction false} ForwardAllKeepsQueries(st: State, cfg: Config, p: nat, question: Question,
                                                  attempts: seq<Attempt>, q: nat)
    requires q in st.queries && (forall r :: r in st.queries ==> r < st.nextQuery)
    ensures var s := ForwardAll(st, cfg, p, question, attempts);
      q in s.queries && s.queries[q] == st.queries[q]
    decreases |attempts|
  {
    if attempts != [] {
      var s := Forward(st, cfg, p, question, attempts[0]);
      hide Forward;
      ForwardAllKeepsQueries(s, cfg, p, question, attempts[1..], q);
    }
  }

  lemma {:induction false} DeliverKeepsQueries(st: State, q: nat, sends: seq<bool>)
    requires q in st.queries
    ensures Deliver(st, q, sends).queries == st.queries
  {
    hide Finish, Siblings, RepliesTo, WaitersOf, AnySent;
    var query := st.queries[q];
    var s := st.(log := st.log + RepliesTo(WaitersOf(st, q), query.typ, query.clas, sends));
    FinishFrame(s, Siblings(s, query.local));
    FinishFrame(s, {q});
  }

  lemma {:induction false} ReceiveRefreshes(st: State, fd: nat, msg: Upstream, pick: nat, draws: seq<uint16>,
                                            retrySent: bool, sends: seq<bool>, q: nat)
    requires q in st.queries
    ensures RefreshedOnceAtMost(st, Receive(st, fd, msg, pick, draws, retrySent, sends), q)
  {
    hide Live, FirstFree, Matches, Deliver;
    LiveIsKnown(st);
    if pick in st.queries {
      DeliverKeepsQueries(st, pick, sends);
      var was := st.queries[pick];
      var free := FirstFree(st.txids, was.endpoint.address, draws);
      if free.Some? {
        DeliverKeepsQueries(st.(txids := st.txids[Txid(was.endpoint.address, free.value) := st.clock]), pick, sends);
      }
    }
  }

  lemma {:induction false} ExpireKeepsQueries(st: State, cfg: Config, q: nat, sends: seq<bool>)
    ensures Expire(st, cfg, q, sends).queries == st.queries
  {
    hide Live, Finish, Siblings, RepliesTo, WaitersOf;
    LiveIsKnown(st);
    if q in Live(st) {
      var query := st.queries[q];
      var s := st.(log := st.log + RepliesTo(WaitersOf(st, q), query.typ, query.clas, sends));
      FinishFrame(s, Siblings(s, query.local));
    }
  }

  lemma {:induction false} StepRefreshes(st: State, cfg: Config, e: Event, q: nat)
    requires Invariant(st) && q in st.queries
    ensures RefreshedOnceAtMost(st, Step(st, cfg, e), q)
  {
    hide Tables, Coalescing, Replies, SameQuestion, Ask, Receive, Expire;
    match e
    case AskEvent(id, question, attempts, sent) => AskKeepsQueries(st, cfg, id, question, attempts, sent, q);
    case ReceiveEvent(fd, msg, pick, draws, retrySent, sends) =>
      ReceiveRefreshes(st, fd, msg, pick, draws, retrySent, sends, q);
    case ExpireEvent(expired, sends) => ExpireKeepsQueries(st, cfg, expired, sends);
    case SweepEvent =>
    case TimePasses(_) =>
    case TcpWork(_, _) =>
  }

  lemma {:induction false} AskKeepsQueries(st: State, cfg: Config, id: uint16, question: Question,
                                           attempts: seq<Attempt>,
                                           refusalSent: bool, q: nat)
    requires Tables(st) && q in st.queries
    ensures var s := Ask(st, cfg, id, question, attempts, refusalSent);
      q in s.queries && s.queries[q] == st.queries[q]
  {
    hide Live, PendingKey, ForwardAll, Siblings, Usable, LocalEntries, SocketEntries, OnChannel;
    var key := PendingKey(question);
    var s := st.(asked := st.asked + [Asked(id, question)]);
    var prepared := s.(nextLocal := s.nextLocal + 1,
                       pendings := s.pendings[s.nextLocal := Pending(key, [Waiter(|st.asked|, id, question.name)])],
                       pendingUdp := s.pendingUdp[key := s.nextLocal]);
    ForwardAllKeepsQueries(prepared, cfg, s.nextLocal, question, Usable(st, cfg, attempts), q);
  }

  /** Over any stretch of any run a query's deadline is refreshed at most once, by its EDNS retry. */
  lemma {:induction false} DeadlinesAreRefreshedOnce(st: State, cfg: Config, events: seq<Event>, q: nat)
    requires Invariant(st) && q in st.queries
    ensures RefreshedOnceAtMost(st, Run(st, cfg, events), q)
    decreases |events|
  {
    hide Invariant, Step;
    if events != [] {
      StepKeepsInvariant(st, cfg, events[0]);
      StepRefreshes(st, cfg, events[0], q);
      DeadlinesAreRefreshedOnce(Step(st, cfg, events[0]), cfg, events[1..], q);
    }
  }

  // ----- Capacity -----

  lemma {:induction false} ForwardAllRespectsCapacity(st: State, cfg: Config, p: nat, question: Question,
                                                      attempts: seq<Attempt>)
    ensures TaskCount(ForwardAll(st, cfg, p, question, attempts)) <= Max(TaskCount(st), cfg.maxTasks)
    decreases |attempts|
  {
    if attempts != [] {
      var s := Forward(st, cfg, p, question, attempts[0]);
      assert TaskCount(s) <= Max(TaskCount(st), cfg.maxTasks);
      hide Forward;
      ForwardAllRespectsCapacity(s, cfg, p, question, attempts[1..]);
    }
  }

  lemma {:induction false} FinishFreesTasks(st: State, done: set<nat>)
    requires Tables(st)
    ensures TaskCount(Finish(st, done)) <= TaskCount(st)
  {
    var all, rest := LocalEntries(st.queries, Live(st)), LocalEntries(st.queries, Live(st) - done);
    assert rest <= all;
    SubsetIsSmaller(rest, all);
  }

  /** Whatever the UDP side does, tasks never exceed the configured maximum. */
  lemma {:induction false} StepRespectsCapacity(st: State, cfg: Config, e: Event)
    requires Invariant(st) && !e.TcpWork?
    ensures TaskCount(Step(st, cfg, e)) <= Max(TaskCount(st), cfg.maxTasks)
  {
    hide Coalescing, Replies, SameQuestion, Live, FirstFree, RepliesTo, WaitersOf, AnySent, HasSibling, Matches,
         PendingKey,
         LocalEntries, SocketEntries, OnChannel, Siblings, Finish, Usable;
    match e
    case AskEvent(id, question, attempts, refusalSent) =>
      AskRespectsCapacity(st, cfg, id, question, attempts, refusalSent);
    case ReceiveEvent(fd, msg, pick, draws, retrySent, sends) =>
      if pick in Live(st) {
        LiveIsKnown(st);
        DeliverFreesTasks(st, pick, sends);
        var q := st.queries[pick];
        var free := FirstFree(st.txids, q.endpoint.address, draws);
        if free.Some? {
          var s := st.(txids := st.txids[Txid(q.endpoint.address, free.value) := st.clock]);
          TxidsKeepInvariant(st, s.txids);
          DeliverFreesTasks(s, pick, sends);
        }
      }
    case ExpireEvent(q, sends) =>
      if q in Live(st) {
        LiveIsKnown(st);
        var query := st.queries[q];
        var s := st.(log := st.log + RepliesTo(WaitersOf(st, q), query.typ, query.clas, sends));
        SameButLog(st, s, query.local);
        FinishFreesTasks(s, Siblings(s, query.local));
      }
    case SweepEvent =>
    case TimePasses(_) =>
  }

  lemma {:induction false} DeliverFreesTasks(st: State, q: nat, sends: seq<bool>)
    requires Tables(st) && q in st.queries
    ensures TaskCount(Deliver(st, q, sends)) <= TaskCount(st)
  {
    hide Finish, Live, LocalEntries, SocketEntries, OnChannel;
    var query := st.queries[q];
    var s := st.(log := st.log + RepliesTo(WaitersOf(st, q), query.typ, query.clas, sends));
    SameButLog(st, s, query.local);
    FinishFreesTasks(s, Siblings(s, query.local));
    FinishFreesTasks(s, {q});
  }

  lemma {:induction false} AskRespectsCapacity(st: State, cfg: Config, id: uint16, question: Question,
                                               attempts: seq<Attempt>,
                                               refusalSent: bool)
    ensures TaskCount(Ask(st, cfg, id, question, attempts, refusalSent)) <= Max(TaskCount(st), cfg.maxTasks)
  {
    hide Live, PendingKey, Open, Usable;
    var s := st.(asked := st.asked + [Asked(id, question)]);
    OpenRespectsCapacity(s, cfg, Waiter(|st.asked|, id, question.name), question, Usable(st, cfg, attempts),
        refusalSent);
  }

  lemma {:induction false} OpenRespectsCapacity(s: State, cfg: Config, waiter: Waiter, question: Question,
                                                usable: seq<Attempt>,
                                                refusalSent: bool)
    ensures TaskCount(Open(s, cfg, waiter, question, usable, refusalSent)) <= Max(TaskCount(s), cfg.maxTasks)
  {
    hide Live, PendingKey, ForwardAll, Siblings;
    var key := PendingKey(question);
    var prepared := s.(nextLocal := s.nextLocal + 1,
                       pendings := s.pendings[s.nextLocal := Pending(key, [waiter])],
                       pendingUdp := s.pendingUdp[key := s.nextLocal]);
    ForwardAllRespectsCapacity(prepared, cfg, s.nextLocal, question, usable);
  }
}
