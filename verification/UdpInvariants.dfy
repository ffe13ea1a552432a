/** What every run of the UDP forwarder keeps. */
module UdpInvariants {
  import opened Bytes
  import opened Messages
  import opened CoalescingKeys
  import opened UdpState

  // ----- The two tables and the channel counters -----

  /** Both tables list exactly the live queries, once each, under their current keys; channels count them. */
  predicate Tables(st: State) {
    && st.byLocal == multiset(LocalEntries(st.queries, Live(st)))
    && st.bySocket == multiset(SocketEntries(st.queries, Live(st)))
    && (forall q :: q in Live(st) ==> st.queries[q].fd in st.channels)
    && (forall fd :: fd in st.channels ==> st.channels[fd].active == |OnChannel(st.queries, Live(st), fd)|)
    && (forall q :: q in st.queries ==> q < st.nextQuery)
  }

  /** A local table built from a set of queries makes exactly those queries live. */
  lemma {:induction false} LiveIs(st: State, live: set<nat>)
    requires st.byLocal == multiset(LocalEntries(st.queries, live)) && live <= st.queries.Keys
    ensures Live(st) == live
  {
    forall q | q in st.queries
      ensures q in Live(st) <==> q in live
    {
      assert (st.queries[q].local, q) in LocalEntries(st.queries, live) <==> q in live;
    }
  }

  lemma {:induction false} AddToMultiset<T>(s: set<T>, x: T)
    requires x !in s
    ensures multiset(s) + multiset{x} == multiset(s + {x})
  {
  }

  /** How the tables and counters of a set of queries change when one is added or rewritten. */
  lemma {:induction false} LocalEntriesWith(queries: map<nat, Query>, live: set<nat>, id: nat, q: Query)
    requires id !in live
    ensures LocalEntries(queries[id := q], live) == LocalEntries(queries, live)
    ensures multiset(LocalEntries(queries[id := q], live + {id})) ==
            multiset(LocalEntries(queries, live)) + multiset{(q.local, id)}
  {
    var entries := LocalEntries(queries, live);
    assert LocalEntries(queries[id := q], live) == entries;
    assert LocalEntries(queries[id := q], live + {id}) == entries + {(q.local, id)};
    AddToMultiset(entries, (q.local, id));
  }

  lemma {:induction false} SocketEntriesWith(queries: map<nat, Query>, live: set<nat>, id: nat, q: Query)
    requires id !in live
    ensures multiset(SocketEntries(queries[id := q], live + {id})) ==
            multiset(SocketEntries(queries, live)) + multiset{(KeyOf(q), id)}
  {
    var entries := SocketEntries(queries, live);
    assert SocketEntries(queries[id := q], live + {id}) == entries + {(KeyOf(q), id)};
    AddToMultiset(entries, (KeyOf(q), id));
  }

  lemma {:induction false} OnChannelWith(queries: map<nat, Query>, live: set<nat>, id: nat, q: Query, fd: nat)
    requires id !in live
    ensures |OnChannel(queries[id := q], live + {id}, fd)| ==
            |OnChannel(queries, live, fd)| + if q.fd == fd then 1 else 0
  {
    var others := OnChannel(queries, live, fd);
    assert OnChannel(queries[id := q], live + {id}, fd) == if q.fd == fd then others + {id} else others;
  }

  lemma {:induction false} LiveAfterFinish(st: State, done: set<nat>)
    ensures Live(Finish(st, done)) == Live(st) - done
  {
    LiveIs(Finish(st, done), Live(st) - done);
  }

  lemma {:induction false} FinishKeepsTables(st: State, done: set<nat>)
    requires Tables(st)
    ensures Tables(Finish(st, done))
  {
    LiveAfterFinish(st, done);
  }

  lemma {:induction false} RegisterKeepsTables(st: State, q: Query)
    requires Tables(st) && q.fd in st.channels
    ensures Tables(Register(st, q)) && Live(Register(st, q)) == Live(st) + {st.nextQuery}
  {
    hide LocalEntries, SocketEntries, OnChannel, Live;
    var s, id, live := Register(st, q), st.nextQuery, Live(st);
    LiveIsKnown(st);
    LocalEntriesWith(st.queries, live, id, q);
    SocketEntriesWith(st.queries, live, id, q);
    LiveIs(s, live + {id});
    forall fd | fd in s.channels
      ensures s.channels[fd].active == |OnChannel(s.queries, Live(s), fd)|
    {
      OnChannelWith(st.queries, live, id, q, fd);
    }
  }

  lemma {:induction false} LiveIsKnown(st: State)
    ensures Live(st) <= st.queries.Keys
  {
  }

  lemma {:induction false} RetryKeepsTables(st: State, q: nat, id: uint16)
    requires Tables(st) && q in Live(st)
    ensures Tables(Retry(st, q, id)) && Live(Retry(st, q, id)) == Live(st)
  {
    hide LocalEntries, SocketEntries, OnChannel, Live;
    LiveIsKnown(st);
    var s, live := Retry(st, q, id), Live(st);
    var was, now, others := st.queries[q], s.queries[q], live - {q};
    assert st.queries[q := was] == st.queries && others + {q} == live;
    LocalEntriesWith(st.queries, others, q, was);
    LocalEntriesWith(st.queries, others, q, now);
    SocketEntriesWith(st.queries, others, q, was);
    SocketEntriesWith(st.queries, others, q, now);
    LiveIs(s, live);
    forall fd | fd in s.channels
      ensures s.channels[fd].active == |OnChannel(s.queries, live, fd)|
    {
      OnChannelWith(st.queries, others, q, was, fd);
      OnChannelWith(st.queries, others, q, now, fd);
    }
  }

  // ----- Coalescing -----

  predicate Joined(st: State, p: nat) {
    p in st.pendings && st.pendings[p].key in st.pendingUdp && st.pendingUdp[st.pendings[p].key] == p
  }

  /**
    * All live siblings share the entry of their transaction, and every entry has a live sibling,
    * except the entries just being set up.
    */
  predicate Coalescing(st: State, settingUp: set<nat>) {
    && (forall q :: q in st.queries ==> st.queries[q].local < st.nextLocal)
    && (forall p :: p in st.pendings ==> p < st.nextLocal)
    && (forall q :: q in Live(st) ==> Joined(st, st.queries[q].local))
    && (forall k :: k in st.pendingUdp ==> st.pendingUdp[k] in st.pendings && st.pendings[st.pendingUdp[k]].key == k)
    && (forall k :: k in st.pendingUdp ==>
          st.pendingUdp[k] in settingUp || HasSibling(st.queries, Live(st), st.pendingUdp[k]))
  }

  // ----- Replies -----

  predicate WaitersOk(ws: seq<Waiter>, key: bytes, asked: seq<Asked>) {
    && (forall i :: 0 <= i < |ws| ==>
          && ws[i].ticket < |asked|
          && asked[ws[i].ticket].id == ws[i].requesterId
          && asked[ws[i].ticket].question.name == ws[i].requestName
          && PendingKey(asked[ws[i].ticket].question) == key)
    && (forall i, j :: 0 <= i < j < |ws| ==> ws[i].ticket < ws[j].ticket)
  }

  /** None of these waiters has been answered yet. */
  predicate Unanswered(ws: seq<Waiter>, log: seq<Reply>) {
    forall i, j :: 0 <= i < |ws| && 0 <= j < |log| && log[j].sent ==> log[j].ticket != ws[i].ticket
  }

  /** Every reply carries the id and the question, in the spelling, of the client it goes to. */
  predicate Truthful(log: seq<Reply>, asked: seq<Asked>) {
    forall i :: 0 <= i < |log| ==>
      && log[i].ticket < |asked|
      && log[i].id == asked[log[i].ticket].id
      && log[i].question == asked[log[i].ticket].question
  }

  predicate AtMostOnce(log: seq<Reply>) {
    forall i, j :: 0 <= i < j < |log| && log[i].sent && log[j].sent ==> log[i].ticket != log[j].ticket
  }

  predicate Attempted(log: seq<Reply>, ticket: nat) {
    exists i :: 0 <= i < |log| && log[i].ticket == ticket
  }

  predicate WaitsIn(ws: seq<Waiter>, ticket: nat) {
    exists i :: 0 <= i < |ws| && ws[i].ticket == ticket
  }

  predicate Waiting(st: State, ticket: nat) {
    exists k :: k in st.pendingUdp && st.pendingUdp[k] in st.pendings &&
        WaitsIn(st.pendings[st.pendingUdp[k]].waiters, ticket)
  }

  predicate Replies(st: State) {
    && Truthful(st.log, st.asked) && AtMostOnce(st.log)
    && (forall k :: k in st.pendingUdp && st.pendingUdp[k] in st.pendings ==>
          var ws := st.pendings[st.pendingUdp[k]].waiters;
          WaitersOk(ws, k, st.asked) && Unanswered(ws, st.log))
    && (forall t :: 0 <= t < |st.asked| ==> Attempted(st.log, t) || Waiting(st, t))
  }

  function QuestionOf(q: Query): Question {
    Question(q.requestName, q.typ, q.clas)
  }

  /** Every live query asks its transaction's question, disguised only in case. */
  predicate SameQuestion(st: State) {
    forall q :: q in Live(st) && st.queries[q].local in st.pendings ==>
      && PendingKey(QuestionOf(st.queries[q])) == st.pendings[st.queries[q].local].key
      && Lower(st.queries[q].forwardName) == Lower(st.queries[q].requestName)
  }

  predicate Invariant(st: State) {
    Tables(st) && Coalescing(st, {}) && Replies(st) && SameQuestion(st)
  }

  // ----- Retiring queries of one transaction -----

  /** Retiring some of the siblings of p touches no other transaction. */
  lemma {:induction false} FinishKeepsOthers(st: State, done: set<nat>, p: nat, k: bytes)
    requires Coalescing(st, {}) && done <= Siblings(st, p)
    requires k in st.pendingUdp && st.pendingUdp[k] != p
    ensures k in Finish(st, done).pendingUdp
  {
    var r :| r in Live(st) && r in st.queries && st.queries[r].local == st.pendingUdp[k];
    assert r in Live(st) - done;
  }

  lemma {:induction false} FinishKeepsCoalescing(st: State, done: set<nat>, p: nat)
    requires Tables(st) && Coalescing(st, {}) && done <= Siblings(st, p)
    ensures Coalescing(Finish(st, done), {})
    ensures done == Siblings(st, p) ==> forall k :: k in Finish(st, done).pendingUdp ==> st.pendingUdp[k] != p
  {
    var s := Finish(st, done);
    LiveAfterFinish(st, done);
    forall q | q in Live(s)
      ensures Joined(s, s.queries[q].local)
    {
      assert Joined(st, st.queries[q].local);
    }
  }

  /** The log after the waiters of p have been written to, whatever became of the writes. */
  lemma {:induction false} RepliesAreTruthful(st: State, q: nat, sends: seq<bool>)
    requires Coalescing(st, {}) && Replies(st) && SameQuestion(st) && q in Live(st)
    ensures var query := st.queries[q];
      var log := st.log + RepliesTo(WaitersOf(st, q), query.typ, query.clas, sends);
      Truthful(log, st.asked) && AtMostOnce(log)
  {
    var query := st.queries[q];
    assert Joined(st, query.local);
    var pending := st.pendings[query.local];
    var ws := pending.waiters;
    assert WaitersOk(ws, pending.key, st.asked) && Unanswered(ws, st.log);
    var replies := RepliesTo(ws, query.typ, query.clas, sends);
    forall i | 0 <= i < |replies|
      ensures replies[i].ticket < |st.asked| && replies[i].question == st.asked[replies[i].ticket].question
    {
      PendingKeyInjective(st.asked[ws[i].ticket].question, QuestionOf(query));
    }
  }

  /** The log grows by what was written to p's waiters, and p's entry goes if anyone was reached. */
  lemma {:induction false} RetireKeepsReplies(st: State, q: nat, sends: seq<bool>, done: set<nat>)
    requires Tables(st) && Coalescing(st, {}) && Replies(st) && SameQuestion(st) && q in Live(st)
    requires done <= Siblings(st, st.queries[q].local)
    requires var query := st.queries[q];
      AnySent(RepliesTo(WaitersOf(st, q), query.typ, query.clas, sends)) ==> done == Siblings(st, query.local)
    ensures var query := st.queries[q];
      var s := st.(log := st.log + RepliesTo(WaitersOf(st, q), query.typ, query.clas, sends));
      Replies(Finish(s, done))
  {
    hide Finish, Live, Tables, Coalescing, SameQuestion, WaitersOk, Unanswered, Truthful, AtMostOnce, Siblings, AnySent;
    LiveIsKnown(st);
    var query, ws := st.queries[q], WaitersOf(st, q);
    var p := query.local;
    var replies := RepliesTo(ws, query.typ, query.clas, sends);
    var s := st.(log := st.log + replies);
    RepliesAreTruthful(st, q, sends);
    LiveIsJoined(st, q);
    SameButLog(st, s, p);
    FinishKeepsCoalescing(s, done, p);
    FinishFrame(s, done);
    OtherEntries(st, p, replies, Finish(s, done));
    forall t | 0 <= t < |st.asked|
      ensures Attempted(s.log, t) || Waiting(Finish(s, done), t)
    {
      StillAccounted(st, s, done, p, replies, t);
    }
  }

  lemma {:induction false} LiveIsJoined(st: State, q: nat)
    requires Coalescing(st, {}) && q in Live(st)
    ensures q in st.queries && Joined(st, st.queries[q].local)
  {
  }

  /** What Finish leaves alone. */
  lemma {:induction false} FinishFrame(st: State, done: set<nat>)
    ensures var s := Finish(st, done);
      && s.queries == st.queries && s.pendings == st.pendings && s.asked == st.asked && s.log == st.log
      && s.nextLocal == st.nextLocal && s.nextQuery == st.nextQuery && s.clock == st.clock
      && s.channels.Keys == st.channels.Keys
      && forall k :: k in s.pendingUdp ==> k in st.pendingUdp && s.pendingUdp[k] == st.pendingUdp[k]
  {
  }

  lemma {:induction false} SameButLog(st: State, s: State, p: nat)
    requires s == st.(log := s.log)
    ensures Live(s) == Live(st) && Siblings(s, p) == Siblings(st, p)
    ensures Tables(st) ==> Tables(s)
    ensures Coalescing(st, {}) ==> Coalescing(s, {})
    ensures SameQuestion(st) ==> SameQuestion(s)
  {
  }

  /** The entries left after the waiters of p were written to, p's own among them only if nobody was reached. */
  lemma {:induction false} OtherEntries(st: State, p: nat, replies: seq<Reply>, after: State)
    requires Coalescing(st, {}) && Replies(st) && Joined(st, p)
    requires after.pendings == st.pendings && after.asked == st.asked && after.log == st.log + replies
    requires forall k :: k in after.pendingUdp ==> k in st.pendingUdp && after.pendingUdp[k] == st.pendingUdp[k]
    requires AnySent(replies) ==> forall k :: k in after.pendingUdp ==> st.pendingUdp[k] != p
    requires |replies| == |st.pendings[p].waiters|
    requires forall i :: 0 <= i < |replies| ==> replies[i].ticket == st.pendings[p].waiters[i].ticket
    ensures forall k :: k in after.pendingUdp && after.pendingUdp[k] in after.pendings ==>
      var ws := after.pendings[after.pendingUdp[k]].waiters;
      WaitersOk(ws, k, after.asked) && Unanswered(ws, after.log)
  {
    forall k | k in after.pendingUdp && after.pendingUdp[k] in after.pendings
      ensures var ws := after.pendings[after.pendingUdp[k]].waiters;
        WaitersOk(ws, k, after.asked) && Unanswered(ws, after.log)
    {
      if st.pendingUdp[k] == p {
        assert !AnySent(replies);
        assert Unanswered(st.pendings[p].waiters, st.log);
      } else {
        OthersStayUnanswered(st, p, k, replies);
      }
    }
  }

  /** Writing to the waiters of p is no answer to the waiters of another transaction. */
  lemma {:induction false} OthersStayUnanswered(st: State, p: nat, k: bytes, replies: seq<Reply>)
    requires Coalescing(st, {}) && Replies(st) && Joined(st, p)
    requires k in st.pendingUdp && st.pendingUdp[k] != p
    requires |replies| == |st.pendings[p].waiters|
    requires forall i :: 0 <= i < |replies| ==> replies[i].ticket == st.pendings[p].waiters[i].ticket
    ensures Unanswered(st.pendings[st.pendingUdp[k]].waiters, st.log + replies)
  {
    var ws, mine := st.pendings[st.pendingUdp[k]].waiters, st.pendings[p];
    assert WaitersOk(mine.waiters, mine.key, st.asked) && WaitersOk(ws, k, st.asked);
    assert mine.key != k;
    forall i, j | 0 <= i < |ws| && 0 <= j < |replies|
      ensures replies[j].ticket != ws[i].ticket
    {
      assert PendingKey(st.asked[ws[i].ticket].question) == k;
      assert PendingKey(st.asked[mine.waiters[j].ticket].question) == mine.key;
    }
  }

  /** Whoever was waiting for p has now been written to; the others still wait. */
  lemma {:induction false} StillAccounted(st: State, s: State, done: set<nat>, p: nat, replies: seq<Reply>, t: nat)
    requires Coalescing(st, {}) && Coalescing(s, {}) && Replies(st) && Joined(st, p) && t < |st.asked|
    requires s == st.(log := st.log + replies) && done <= Siblings(s, p)
    requires |replies| == |st.pendings[p].waiters|
    requires forall i :: 0 <= i < |replies| ==> replies[i].ticket == st.pendings[p].waiters[i].ticket
    ensures Attempted(s.log, t) || Waiting(Finish(s, done), t)
  {
    hide Finish, Live, Coalescing, WaitersOk, Unanswered, Truthful, AtMostOnce;
    if Attempted(st.log, t) {
      var i :| 0 <= i < |st.log| && st.log[i].ticket == t;
      assert s.log[i].ticket == t;
    } else {
      assert Waiting(st, t);
      var k :| k in st.pendingUdp && st.pendingUdp[k] in st.pendings &&
          WaitsIn(st.pendings[st.pendingUdp[k]].waiters, t);
      if st.pendingUdp[k] == p {
        var i :| 0 <= i < |st.pendings[p].waiters| && st.pendings[p].waiters[i].ticket == t;
        assert s.log[|st.log| + i].ticket == t;
      } else {
        FinishFrame(s, done);
        FinishKeepsOthers(s, done, p, k);
      }
    }
  }
}
