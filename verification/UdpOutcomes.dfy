/** What the steps of the UDP side bring about: which datagrams count, who is written to, what is sent. */
module UdpOutcomes {
  import opened Bytes
  import opened Messages
  import opened CoalescingKeys
  import opened Txids
  import opened UdpState
  import opened UdpInvariants
  import opened UdpRuns
  import opened UdpResults

  // ----- Upstream datagrams -----

  /**
    * A datagram that answers a query: it comes in on the query's socket while the query is live, under the
    * query's id, as a response of opcode QUERY, and repeats the question exactly as it was sent.
    */
  predicate AnswersQuery(st: State, q: nat, fd: nat, msg: Upstream) {
    q in Live(st) && q in st.queries &&
    var query := st.queries[q];
    && fd == query.fd && msg.id == query.upstreamId
    && msg.flags >= 0x8000 && msg.flags / 0x0800 % 16 == 0
    && |msg.questions| == 1 && msg.questions[0].name == query.forwardName
    && msg.questions[0].typ == query.typ && msg.questions[0].clas == query.clas
  }

  lemma {:induction false} ResponseBit(flags: uint16)
    ensures flags / 0x8000 % 2 == 1 <==> flags >= 0x8000
  {
  }

  lemma {:induction false} MatchesExactly(st: State, q: nat, fd: nat, msg: Upstream)
    requires Tables(st)
    ensures ((fd, msg.id), q) in st.bySocket && q in Live(st) && q in st.queries && Matches(st.queries[q], msg) <==>
            AnswersQuery(st, q, fd, msg)
  {
    hide Live, LocalEntries, OnChannel;
    ResponseBit(msg.flags);
    LiveIsKnown(st);
    if q in Live(st) {
      ListedExactly(st, q, fd, msg.id);
      OneQuestion(msg.questions, st.queries[q]);
    }
  }

  lemma {:induction false} ListedExactly(st: State, q: nat, fd: nat, id: uint16)
    requires Tables(st) && q in Live(st)
    ensures q in st.queries
    ensures ((fd, id), q) in st.bySocket <==> fd == st.queries[q].fd && id == st.queries[q].upstreamId
  {
    hide Live, LocalEntries, OnChannel;
    LiveIsKnown(st);
    if ((fd, id), q) in st.bySocket {
      assert ((fd, id), q) in SocketEntries(st.queries, Live(st));
    }
    assert (KeyOf(st.queries[q]), q) in SocketEntries(st.queries, Live(st));
  }

  lemma {:induction false} OneQuestion(questions: seq<Question>, q: Query)
    ensures questions == [Question(q.forwardName, q.typ, q.clas)] <==>
            |questions| == 1 && questions[0].name == q.forwardName && questions[0].typ == q.typ &&
            questions[0].clas == q.clas
  {
  }

  /** The query is under way again, without EDNS, under an id that was free. */
  predicate RetriedAs(st: State, after: State, q: nat)
    requires q in st.queries
  {
    && q in after.queries && Live(after) == Live(st) && after.log == st.log
    && var id := after.queries[q].upstreamId;
      var it := Txid(st.queries[q].endpoint.address, id);
      && after.queries == st.queries[q := st.queries[q].(upstreamId := id, usedEdns := false, timestamp := st.clock)]
      && it !in st.txids && after.txids == st.txids[it := st.clock]
      && ((st.queries[q].fd, id), q) in after.bySocket
  }

  /** Each waiter of the query's transaction is written to, in its own id and spelling. */
  predicate WrittenTo(st: State, after: State, q: nat, sends: seq<bool>)
    requires q in st.queries
  {
    var query, ws := st.queries[q], WaitersOf(st, q);
    && |after.log| == |st.log| + |ws| && after.log[..|st.log|] == st.log
    && forall i :: 0 <= i < |ws| ==>
         after.log[|st.log| + i] ==
         Reply(ws[i].ticket, ws[i].requesterId, Question(ws[i].requestName, query.typ, query.clas),
               i < |sends| && sends[i])
  }

  /** These queries, and no others, are no longer live, and none of their ids is filed any more. */
  predicate RetiredJust(st: State, after: State, done: set<nat>) {
    && after.queries == st.queries && Live(after) == Live(st) - done
    && forall q :: q in done && q in st.queries ==> TxidOf(st.queries[q]) !in after.txids
  }

  predicate Delivered(st: State, after: State, q: nat, sends: seq<bool>)
    requires q in st.queries
  {
    && WrittenTo(st, after, q, sends)
    && RetiredJust(st, after,
                   if exists i :: 0 <= i < |WaitersOf(st, q)| && i < |sends| && sends[i]
                   then Siblings(st, st.queries[q].local) else {q})
  }

  lemma {:induction false} FinishOutcome(st: State, done: set<nat>)
    requires done <= Live(st)
    ensures RetiredJust(st, Finish(st, done), done)
    ensures Finish(st, done).log == st.log
  {
    hide Live;
    LiveAfterFinish(st, done);
    FinishFrame(st, done);
    forall q | q in done && q in st.queries ensures TxidOf(st.queries[q]) !in Finish(st, done).txids {
      assert TxidOf(st.queries[q]) in TxidsOf(st.queries, done);
    }
  }

  lemma {:induction false} SomeSent(ws: seq<Waiter>, typ: uint16, clas: uint16, sends: seq<bool>)
    ensures AnySent(RepliesTo(ws, typ, clas, sends)) <==> exists i :: 0 <= i < |ws| && i < |sends| && sends[i]
  {
    var rs := RepliesTo(ws, typ, clas, sends);
    forall i | 0 <= i < |ws| ensures rs[i].sent <==> i < |sends| && sends[i] {
    }
  }

  lemma {:induction false} DeliverDelivers(st: State, q: nat, sends: seq<bool>)
    requires q in Live(st)
    ensures q in st.queries && Delivered(st, Deliver(st, q, sends), q, sends)
  {
    hide Finish, AnySent, RepliesTo, Live, Siblings, WaitersOf, RetiredJust;
    LiveIsKnown(st);
    var query, ws := st.queries[q], WaitersOf(st, q);
    var replies := RepliesTo(ws, query.typ, query.clas, sends);
    var s := st.(log := st.log + replies);
    SomeSent(ws, query.typ, query.clas, sends);
    RepliesAre(ws, query.typ, query.clas, sends);
    SameButLog(st, s, query.local);
    SiblingsLive(s, query.local);
    FinishOutcome(s, Siblings(s, query.local));
    FinishOutcome(s, {q});
    RetiredFrame(st, s, Deliver(st, q, sends), if AnySent(replies) then Siblings(st, query.local) else {q});
  }

  lemma {:induction false} RepliesAre(ws: seq<Waiter>, typ: uint16, clas: uint16, sends: seq<bool>)
    ensures forall i :: 0 <= i < |ws| ==>
      RepliesTo(ws, typ, clas, sends)[i] ==
      Reply(ws[i].ticket, ws[i].requesterId, Question(ws[i].requestName, typ, clas), i < |sends| && sends[i])
  {
  }

  lemma {:induction false} SiblingsLive(st: State, p: nat)
    ensures Siblings(st, p) <= Live(st)
  {
  }

  lemma {:induction false} RetiredFrame(st: State, s: State, after: State, done: set<nat>)
    requires s.queries == st.queries && Live(s) == Live(st) && RetiredJust(s, after, done)
    ensures RetiredJust(st, after, done)
  {
    hide Live;
  }

  /**
    * What a datagram brings about. One that answers no query changes nothing. A response code of 1 or 4 to
    * a query that used EDNS is answered by one retry, if an id is free and the send succeeds. Every other
    * answer is passed on to the waiters.
    */
  lemma {:induction false} ReceiveOutcome(st: State, fd: nat, msg: Upstream, pick: nat, draws: seq<uint16>,
                                          retrySent: bool, sends: seq<bool>)
    requires Tables(st)
    ensures var after := Receive(st, fd, msg, pick, draws, retrySent, sends);
      if !AnswersQuery(st, pick, fd, msg) then after == st
      else
        var q := st.queries[pick];
        if (msg.flags % 16 == 1 || msg.flags % 16 == 4) && q.usedEdns && retrySent &&
           FirstFree(st.txids, q.endpoint.address, draws).Some?
        then RetriedAs(st, after, pick)
        else Delivered(st, after, pick, sends)
  {
    hide Tables, Deliver, Live, FirstFree, Matches, Retry, Delivered, RetriedAs, AnswersQuery;
    LiveIsKnown(st);
    MatchesExactly(st, pick, fd, msg);
    AnswersLive(st, pick, fd, msg);
    if AnswersQuery(st, pick, fd, msg) {
      var q := st.queries[pick];
      DeliverDelivers(st, pick, sends);
      FirstFreeExactly(st.txids, q.endpoint.address, draws);
      var free := FirstFree(st.txids, q.endpoint.address, draws);
      if free.Some? {
        FiledDelivers(st, pick, free.value, sends);
        RetryRetries(st, pick, free.value);
      }
    }
  }

  lemma {:induction false} AnswersLive(st: State, q: nat, fd: nat, msg: Upstream)
    ensures AnswersQuery(st, q, fd, msg) ==> q in Live(st) && q in st.queries
  {
    hide Live;
  }

  /** An id drawn for a retry that could not be sent stays filed, and the answer is passed on. */
  lemma {:induction false} FiledDelivers(st: State, q: nat, id: uint16, sends: seq<bool>)
    requires q in Live(st) && q in st.queries
    ensures var s := st.(txids := st.txids[Txid(st.queries[q].endpoint.address, id) := st.clock]);
      Delivered(st, Deliver(s, q, sends), q, sends)
  {
    hide Deliver, Live, Siblings;
    var s := st.(txids := st.txids[Txid(st.queries[q].endpoint.address, id) := st.clock]);
    TablesHaveSameLive(st, s);
    DeliverDelivers(s, q, sends);
    SameSiblings(st, s, st.queries[q].local);
  }

  lemma {:induction false} SameSiblings(st: State, s: State, p: nat)
    requires s.queries == st.queries && Live(s) == Live(st)
    ensures Siblings(s, p) == Siblings(st, p)
  {
    hide Live;
  }

  lemma {:induction false} RetryRetries(st: State, q: nat, id: uint16)
    requires Tables(st) && q in Live(st) && q in st.queries
    requires Txid(st.queries[q].endpoint.address, id) !in st.txids
    ensures var s := st.(txids := st.txids[Txid(st.queries[q].endpoint.address, id) := st.clock]);
      RetriedAs(st, Retry(s, q, id), q)
  {
    hide Tables, Live;
    var s := st.(txids := st.txids[Txid(st.queries[q].endpoint.address, id) := st.clock]);
    TablesFrame(st, s);
    RetryKeepsTables(s, q, id);
  }

  /** Exactly the datagrams that answer a query change anything. */
  lemma {:induction false} OnlyAnswersCount(st: State, fd: nat, msg: Upstream, pick: nat, draws: seq<uint16>,
                                            retrySent: bool, sends: seq<bool>)
    requires Tables(st)
    ensures Receive(st, fd, msg, pick, draws, retrySent, sends) != st <==> AnswersQuery(st, pick, fd, msg)
  {
    hide Tables, Live, FirstFree, Receive, Siblings;
    ReceiveOutcome(st, fd, msg, pick, draws, retrySent, sends);
    if AnswersQuery(st, pick, fd, msg) {
      InOwnSiblings(st, pick);
    }
  }

  lemma {:induction false} InOwnSiblings(st: State, q: nat)
    requires q in Live(st) && q in st.queries
    ensures q in Siblings(st, st.queries[q].local)
  {
  }

  /**
    * In every run, whatever is written to clients because of a datagram is written because of one that
    * answers a live query, and goes only to clients whose question, up to case, is the one it repeats.
    */
  lemma {:induction false} RepliesComeFromAnswers(cfg: Config, events: seq<Event>, e: Event, j: nat)
    requires e.ReceiveEvent?
    requires var st := Run(INITIAL, cfg, events); |st.log| <= j < |Step(st, cfg, e).log|
    ensures var st := Run(INITIAL, cfg, events);
      var reply := Step(st, cfg, e).log[j];
      && AnswersQuery(st, e.pick, e.fd, e.msg)
      && Lower(reply.question.name) == Lower(e.msg.questions[0].name)
      && reply.question.typ == e.msg.questions[0].typ && reply.question.clas == e.msg.questions[0].clas
      && reply.ticket < |st.asked| && st.asked[reply.ticket] == Asked(reply.id, reply.question)
  {
    hide Run, Tables, Coalescing, Replies, SameQuestion, Receive, Live, FirstFree, Siblings;
    InvariantHolds(cfg, events);
    var st := Run(INITIAL, cfg, events);
    ReceiveOutcome(st, e.fd, e.msg, e.pick, e.draws, e.retrySent, e.sends);
    ReceiveKeepsInvariant(st, e.fd, e.msg, e.pick, e.draws, e.retrySent, e.sends);
    var after := Step(st, cfg, e);
    AfterIsTruthful(after);
    assert AnswersQuery(st, e.pick, e.fd, e.msg);
    WaitersAsk(st, e.pick, j - |st.log|);
    ReceiveKeepsAsked(st, e.fd, e.msg, e.pick, e.draws, e.retrySent, e.sends);
  }

  lemma {:induction false} AfterIsTruthful(st: State)
    requires Replies(st)
    ensures forall i :: 0 <= i < |st.log| ==>
      st.log[i].ticket < |st.asked| && st.asked[st.log[i].ticket] == Asked(st.log[i].id, st.log[i].question)
  {
    hide WaitersOk, Unanswered, Attempted, Waiting;
  }

  /** A waiter of a live query asked what the query asks. */
  lemma {:induction false} WaitersAsk(st: State, q: nat, i: nat)
    requires Invariant(st) && q in Live(st) && q in st.queries && i < |WaitersOf(st, q)|
    ensures Lower(WaitersOf(st, q)[i].requestName) == Lower(st.queries[q].forwardName)
  {
    hide Tables, Live;
    LiveIsJoined(st, q);
    var query := st.queries[q];
    var p := st.pendings[query.local];
    assert WaitersOk(p.waiters, p.key, st.asked);
    var asked := st.asked[p.waiters[i].ticket].question;
    PendingKeyInjective(asked, QuestionOf(query));
  }

  lemma {:induction false} ReceiveKeepsAsked(st: State, fd: nat, msg: Upstream, pick: nat, draws: seq<uint16>,
                                             retrySent: bool, sends: seq<bool>)
    ensures Receive(st, fd, msg, pick, draws, retrySent, sends).asked == st.asked
  {
    hide Live, FirstFree, Matches, Siblings, RepliesTo, WaitersOf, LocalEntries, SocketEntries, OnChannel, HasSibling;
    LiveIsKnown(st);
  }

  // ----- Time-outs -----

  /** A query that has waited out its time takes its whole transaction with it; any other is left alone. */
  lemma {:induction false} ExpireOutcome(st: State, cfg: Config, q: nat, sends: seq<bool>)
    ensures var after := Expire(st, cfg, q, sends);
      if q in Live(st) && q in st.queries && st.clock >= st.queries[q].timestamp + cfg.timeoutMs
      then WrittenTo(st, after, q, sends) && RetiredJust(st, after, Siblings(st, st.queries[q].local))
      else after == st
  {
    hide Finish, RepliesTo, Live, Siblings, WaitersOf, RetiredJust;
    LiveIsKnown(st);
    if q in Live(st) {
      var query, ws := st.queries[q], WaitersOf(st, q);
      var s := st.(log := st.log + RepliesTo(ws, query.typ, query.clas, sends));
      RepliesAre(ws, query.typ, query.clas, sends);
      SameButLog(st, s, query.local);
      SiblingsLive(s, query.local);
      FinishOutcome(s, Siblings(s, query.local));
      RetiredFrame(st, s, Finish(s, Siblings(s, query.local)), Siblings(st, query.local));
    }
  }

  // ----- Questions -----

  /** The conditions under which an attempt gets through: room, a channel, an id, and the send. */
  predicate GoesOut(st: State, cfg: Config, a: Attempt) {
    && st.tcpTasks + |st.byLocal| < cfg.maxTasks
    && UseChannel(st.channels, st.lineup, a.endpoint, a.socket).Some?
    && FirstFree(st.txids, a.endpoint.address, a.draws).Some?
    && a.sent
  }

  /** One more query is live, for this question, on the chosen channel, under the id that was free. */
  predicate SentTo(st: State, after: State, p: nat, question: Question, a: Attempt) {
    var c := UseChannel(st.channels, st.lineup, a.endpoint, a.socket);
    var id := FirstFree(st.txids, a.endpoint.address, a.draws);
    && c.Some? && id.Some?
    && st.nextQuery in after.queries
    && var q := after.queries[st.nextQuery];
      && after.queries == st.queries[st.nextQuery := q] && Live(after) == Live(st) + {st.nextQuery}
      && q.local == p && q.fd == c.value.fd && q.endpoint == a.endpoint && q.upstreamId == id.value
      && q.requestName == question.name && q.typ == question.typ && q.clas == question.clas
      && Lower(q.forwardName) == Lower(question.name) && q.usedEdns && q.timestamp == st.clock
      && after.txids == st.txids[Txid(a.endpoint.address, id.value) := st.clock]
  }

  /** One attempt at one forwarder. */
  lemma {:induction false} ForwardOutcome(st: State, cfg: Config, p: nat, question: Question, a: Attempt)
    requires Tables(st)
    ensures var after := Forward(st, cfg, p, question, a);
      if GoesOut(st, cfg, a) then SentTo(st, after, p, question, a)
      else after.queries == st.queries && after.byLocal == st.byLocal && after.bySocket == st.bySocket
  {
    hide Tables, Live, UseChannel, FirstFree, RandomizeCase, Register;
    RandomizedNameIsSameName(question.name, a.flips);
    var c := UseChannel(st.channels, st.lineup, a.endpoint, a.socket);
    var free := FirstFree(st.txids, a.endpoint.address, a.draws);
    if GoesOut(st, cfg, a) {
      OpenChannelKeepsTables(st, a.endpoint, a.socket);
      ChannelIsThere(st, a);
      var s := st.(channels := c.value.channels, lineup := c.value.lineup);
      var ready := s.(txids := s.txids[Txid(a.endpoint.address, free.value) := st.clock]);
      TablesHaveSameLive(st, ready);
      TablesFrame(s, ready);
      var q := Query(p, free.value, c.value.fd, a.endpoint, question.typ, question.clas,
                     question.name, RandomizeCase(question.name, a.flips), true, st.clock);
      RegisterKeepsTables(ready, q);
      Registers(ready, q);
    }
  }

  lemma {:induction false} ChannelIsThere(st: State, a: Attempt)
    ensures var c := UseChannel(st.channels, st.lineup, a.endpoint, a.socket);
      c.Some? ==> c.value.fd in c.value.channels
  {
  }

  lemma {:induction false} Registers(st: State, q: Query)
    requires q.fd in st.channels
    ensures Register(st, q).queries == st.queries[st.nextQuery := q] && Register(st, q).txids == st.txids
  {
  }

  /** A server that is half full asks one forwarder only, and otherwise up to the configured number. */
  function Tries(st: State, cfg: Config, attempts: seq<Attempt>): nat {
    var most := if st.tcpTasks + |st.byLocal| < cfg.maxTasks / 2 then cfg.fanout else 1;
    if |attempts| < most then |attempts| else most
  }

  /** A client's question has the transaction it would join: one whose live query asks the same, up to case. */
  ghost predicate AlreadyAsked(st: State, q: nat, question: Question) {
    && q in Live(st) && q in st.queries
    && Lower(st.queries[q].requestName) == Lower(question.name)
    && st.queries[q].typ == question.typ && st.queries[q].clas == question.clas
  }

  /** The client is told at once that nothing will come of it. */
  predicate RefusedAtOnce(st: State, after: State, id: uint16, question: Question, sent: bool) {
    && after.log == st.log + [Reply(|st.asked|, id, question, sent)]
    && after.asked == st.asked + [Asked(id, question)]
    && after.queries == st.queries && after.pendings == st.pendings && after.pendingUdp == st.pendingUdp
  }

  /** The client waits behind those who asked the same, and nothing is sent. */
  predicate JoinsAt(st: State, after: State, p: nat, id: uint16, question: Question) {
    && p in st.pendings
    && after.asked == st.asked + [Asked(id, question)] && after.log == st.log && after.queries == st.queries
    && after.byLocal == st.byLocal && after.pendingUdp == st.pendingUdp
    && var pending := st.pendings[p];
       after.pendings ==
       st.pendings[p := pending.(waiters := pending.waiters + [Waiter(|st.asked|, id, question.name)])]
  }

  /**
    * What becomes of a client's question. Without a forwarder to try it is refused. If a live query asks
    * the same already, it joins that query's transaction, unless 200 clients wait there. Otherwise just
    * as many forwarders are tried, in order, as the load allows; the client waits if any was reached.
    */
  lemma {:induction false} AskOutcome(st: State, cfg: Config, id: uint16, question: Question, attempts: seq<Attempt>,
                                      refusalSent: bool, q: nat)
    requires Invariant(st)
    ensures var after := Ask(st, cfg, id, question, attempts, refusalSent);
      && (Tries(st, cfg, attempts) == 0 ==> RefusedAtOnce(st, after, id, question, refusalSent))
      && (Tries(st, cfg, attempts) > 0 && AlreadyAsked(st, q, question) ==>
            var p := st.queries[q].local;
            && p in st.pendings
            && if |st.pendings[p].waiters| >= 200 then RefusedAtOnce(st, after, id, question, refusalSent)
               else JoinsAt(st, after, p, id, question))
  {
    hide Tables, Replies, SameQuestion, Live, PendingKey, Open;
    TriesUsable(st, cfg, attempts);
    if AlreadyAsked(st, q, question) {
      LiveIsJoined(st, q);
      KeyOfLive(st, q, question);
    }
  }

  lemma {:induction false} TriesUsable(st: State, cfg: Config, attempts: seq<Attempt>)
    ensures Tries(st, cfg, attempts) <= |attempts|
    ensures Usable(st, cfg, attempts) == attempts[..Tries(st, cfg, attempts)]
  {
    assert attempts[..|attempts|] == attempts;
  }

  lemma {:induction false} KeyOfLive(st: State, q: nat, question: Question)
    requires Invariant(st) && AlreadyAsked(st, q, question)
    ensures st.queries[q].local in st.pendings && st.pendings[st.queries[q].local].key == PendingKey(question)
  {
    hide Tables, Replies, Live, PendingKey;
    LiveIsJoined(st, q);
    PendingKeyInjective(QuestionOf(st.queries[q]), question);
  }

  /** The state in which the fan-out of a new transaction starts. */
  function TransactionOpened(st: State, id: uint16, question: Question): State {
    st.(asked := st.asked + [Asked(id, question)], nextLocal := st.nextLocal + 1,
        pendings := st.pendings[st.nextLocal :=
                      Pending(PendingKey(question), [Waiter(|st.asked|, id, question.name)])],
        pendingUdp := st.pendingUdp[PendingKey(question) := st.nextLocal])
  }

  /** A question nobody is asking is forwarded by all the attempts the load allows, one after the other. */
  lemma {:induction false} NewQuestionIsForwarded(st: State, cfg: Config, id: uint16, question: Question,
                                                  attempts: seq<Attempt>, refusalSent: bool)
    requires Invariant(st) && Tries(st, cfg, attempts) > 0 && forall q :: !AlreadyAsked(st, q, question)
    ensures var after := Ask(st, cfg, id, question, attempts, refusalSent);
      var sent := ForwardAll(TransactionOpened(st, id, question), cfg, st.nextLocal, question,
                             attempts[..Tries(st, cfg, attempts)]);
      && after.queries == sent.queries && Live(after) == Live(sent)
      && (Siblings(sent, st.nextLocal) != {} ==> Waiting(after, |st.asked|) && after.log == st.log)
      && (Siblings(sent, st.nextLocal) == {} ==>
            after.log == st.log + [Reply(|st.asked|, id, question, refusalSent)])
  {
    hide Tables, Replies, SameQuestion, Live, PendingKey, ForwardAll, Usable, Siblings, QuestionOf;
    TriesUsable(st, cfg, attempts);
    NobodyAsks(st, question);
    var s := TransactionOpened(st, id, question);
    var tried := attempts[..Tries(st, cfg, attempts)];
    FansOut(s, cfg, st.nextLocal, question, tried);
    var sent := ForwardAll(s, cfg, st.nextLocal, question, tried);
    var key := PendingKey(question);
    if Siblings(sent, st.nextLocal) != {} {
      FirstWaits(sent, key, st.nextLocal, |st.asked|);
    } else {
      TablesHaveSameLive(sent, sent.(pendingUdp := WithoutEntry(sent.pendingUdp, key)));
    }
    AskIsOpen(st, cfg, id, question, attempts, refusalSent);
    TablesHaveSameLive(sent, Ask(st, cfg, id, question, attempts, refusalSent));
  }

  lemma {:induction false} FirstWaits(st: State, key: bytes, p: nat, ticket: nat)
    requires key in st.pendingUdp && st.pendingUdp[key] == p && p in st.pendings
    requires |st.pendings[p].waiters| > 0 && st.pendings[p].waiters[0].ticket == ticket
    ensures Waiting(st, ticket)
  {
    assert WaitsIn(st.pendings[p].waiters, ticket);
  }

  /** Where there is an entry for a question, a live query asks it. */
  lemma {:induction false} EntryIsAsked(st: State, question: Question) returns (q: nat)
    requires Invariant(st) && PendingKey(question) in st.pendingUdp
    ensures AlreadyAsked(st, q, question)
  {
    hide Tables, Replies, Live, PendingKey, SameQuestion;
    q :| q in Live(st) && q in st.queries && st.queries[q].local == st.pendingUdp[PendingKey(question)];
    LiveIsJoined(st, q);
    LiveAsks(st, q);
    PendingKeyInjective(QuestionOf(st.queries[q]), question);
  }

  lemma {:induction false} NobodyAsks(st: State, question: Question)
    requires Invariant(st) && forall q :: !AlreadyAsked(st, q, question)
    ensures PendingKey(question) !in st.pendingUdp
  {
    hide Invariant, AlreadyAsked, PendingKey;
    if PendingKey(question) in st.pendingUdp {
      var q := EntryIsAsked(st, question);
    }
  }

  lemma {:induction false} LiveAsks(st: State, q: nat)
    requires SameQuestion(st) && q in Live(st) && q in st.queries && st.queries[q].local in st.pendings
    ensures PendingKey(QuestionOf(st.queries[q])) == st.pendings[st.queries[q].local].key
  {
    hide Live, PendingKey;
  }

  lemma {:induction false} FansOut(st: State, cfg: Config, p: nat, question: Question, attempts: seq<Attempt>)
    ensures var s := ForwardAll(st, cfg, p, question, attempts);
      s.pendings == st.pendings && s.pendingUdp == st.pendingUdp && s.log == st.log && s.asked == st.asked
    decreases |attempts|
  {
    hide Forward;
    if attempts != [] {
      ForwardFrame(st, cfg, p, question, attempts[0]);
      FansOut(Forward(st, cfg, p, question, attempts[0]), cfg, p, question, attempts[1..]);
    }
  }

  lemma {:induction false} AskIsOpen(st: State, cfg: Config, id: uint16, question: Question, attempts: seq<Attempt>,
                                     refusalSent: bool)
    requires Usable(st, cfg, attempts) != [] && PendingKey(question) !in st.pendingUdp
    ensures var sent := ForwardAll(TransactionOpened(st, id, question), cfg, st.nextLocal, question,
                                   Usable(st, cfg, attempts));
      var dropped := sent.(pendingUdp := WithoutEntry(sent.pendingUdp, PendingKey(question)));
      Ask(st, cfg, id, question, attempts, refusalSent) ==
      if Siblings(sent, st.nextLocal) != {} then sent
      else dropped.(log := dropped.log + [Reply(|st.asked|, id, question, refusalSent)])
  {
    hide ForwardAll, PendingKey, Usable, Siblings;
  }
}
