/** The UDP code: tables updated in place, one query at a time, as the state machine prescribes. */
module UdpForwarder {
  import opened Bytes
  import opened Messages
  import opened CoalescingKeys
  import opened Txids
  import opened UdpState
  import opened UdpInvariants
  import opened UdpRuns
  import opened UdpResults

  // ----- One query at a time amounts to all at once -----

  lemma {:induction false} FinishTwice(st: State, done: set<nat>, q: nat)
    ensures Finish(Finish(st, done), {q}) == Finish(st, done + {q})
  {
    LiveAfterFinish(st, done);
    var s, t := Finish(st, done), Finish(st, done + {q});
    assert Live(s) - {q} == Live(st) - (done + {q});
    FinishTwiceMaps(st, done, q);
  }

  lemma {:induction false} FinishTwiceMaps(st: State, done: set<nat>, q: nat)
    requires Live(Finish(st, done)) - {q} == Live(st) - (done + {q})
    ensures Finish(Finish(st, done), {q}).pendingUdp == Finish(st, done + {q}).pendingUdp
    ensures Finish(Finish(st, done), {q}).txids == Finish(st, done + {q}).txids
    ensures Finish(Finish(st, done), {q}).channels == Finish(st, done + {q}).channels
  {
    hide LocalEntries, SocketEntries, Live, OnChannel;
    var live, rest := Live(st) - done, Live(st) - (done + {q});
    assert rest <= live;
    assert forall p :: HasSibling(st.queries, rest, p) ==> HasSibling(st.queries, live, p);
  }

  lemma {:induction false} FinishNothing(st: State)
    requires Tables(st) && Coalescing(st, {})
    ensures Finish(st, {}) == st
  {
    hide LocalEntries, SocketEntries, OnChannel, HasSibling, Live;
    assert Live(st) - {} == Live(st);
    assert TxidsOf(st.queries, {}) == {};
    var s := Finish(st, {});
    assert s.pendingUdp == st.pendingUdp && s.channels == st.channels && s.txids == st.txids;
  }

  lemma {:induction false} TakeOneAway<T>(all: multiset<T>, rest: multiset<T>, x: T)
    requires all == rest + multiset{x}
    ensures all - multiset{x} == rest
  {
  }

  /** What finish_udp_query does to the tables is what Finish says of a single query. */
  lemma {:induction false} OneQueryRetires(st: State, q: nat)
    requires Tables(st) && q in Live(st)
    ensures var query := st.queries[q];
      var s := Finish(st, {q});
      && s.byLocal == Unlist(st.byLocal, (query.local, q))
      && s.bySocket == Unlist(st.bySocket, (KeyOf(query), q))
      && query.fd in st.channels && st.channels[query.fd].active > 0
      && s.channels == st.channels[query.fd := st.channels[query.fd].(active := st.channels[query.fd].active - 1)]
      && s.txids == st.txids - {TxidOf(query)}
  {
    hide LocalEntries, SocketEntries, OnChannel, HasSibling, Live;
    LiveIsKnown(st);
    var query, rest := st.queries[q], Live(st) - {q};
    assert st.queries[q := query] == st.queries && rest + {q} == Live(st);
    LocalEntriesWith(st.queries, rest, q, query);
    SocketEntriesWith(st.queries, rest, q, query);
    TakeOneAway(st.byLocal, multiset(LocalEntries(st.queries, rest)), (query.local, q));
    TakeOneAway(st.bySocket, multiset(SocketEntries(st.queries, rest)), (KeyOf(query), q));
    forall fd | fd in st.channels
      ensures st.channels[fd].active == |OnChannel(st.queries, rest, fd)| + if query.fd == fd then 1 else 0
    {
      OnChannelWith(st.queries, rest, q, query, fd);
    }
    assert TxidsOf(st.queries, {q}) == {TxidOf(query)};
  }

  lemma {:induction false} LastSiblingDropsEntry(st: State, q: nat)
    requires Tables(st) && Coalescing(st, {}) && q in Live(st)
    ensures var p := st.queries[q].local;
      var s := Finish(st, {q});
      && Joined(st, p)
      && s.pendingUdp ==
         if AnyRegistered(s.byLocal, p) then st.pendingUdp else WithoutEntry(st.pendingUdp, st.pendings[p].key)
  {
    hide Live, Finish, Tables;
    LiveIsKnown(st);
    var p, s := st.queries[q].local, Finish(st, {q});
    LiveIsJoined(st, q);
    SiblingOfItself(st, q);
    EntrySurvives(st, {q}, p, st.pendings[p].key);
    FinishFrame(st, {q});
    forall k | k in st.pendingUdp && st.pendingUdp[k] != p
      ensures k in s.pendingUdp
    {
      FinishKeepsOthers(st, {q}, p, k);
    }
    RemainingSibling(st, q);
  }

  lemma {:induction false} RemainingSibling(st: State, q: nat)
    requires Tables(st) && q in Live(st)
    ensures var p := st.queries[q].local;
      AnyRegistered(Finish(st, {q}).byLocal, p) <==> {q} != Siblings(st, p)
  {
    hide Tables, Live, SocketEntries, OnChannel;
    LiveIsKnown(st);
    var p, s, rest := st.queries[q].local, Finish(st, {q}), Live(st) - {q};
    SiblingsAreThoseLive(st, p);
    if AnyRegistered(s.byLocal, p) {
      var x :| x in s.byLocal && x.0 == p;
      assert x in LocalEntries(st.queries, rest);
      assert x.1 in Siblings(st, p) && x.1 != q;
    }
    if {q} != Siblings(st, p) {
      assert q in Siblings(st, p);
      var r :| r in Siblings(st, p) && r != q;
      assert (p, r) in LocalEntries(st.queries, rest);
      assert (p, r) in s.byLocal;
    }
  }

  lemma {:induction false} SiblingsAreThoseLive(st: State, p: nat)
    ensures forall r :: r in Siblings(st, p) <==> r in Live(st) && st.queries[r].local == p
  {
  }

  /** The code of finish_udp_query in one expression. */
  function RetireOne(st: State, q: nat): State
    requires q in st.queries && st.queries[q].fd in st.channels && st.channels[st.queries[q].fd].active > 0
    requires Joined(st, st.queries[q].local)
  {
    var query := st.queries[q];
    var ch, byLocal := st.channels[query.fd], Unlist(st.byLocal, (query.local, q));
    st.(channels := st.channels[query.fd := ch.(active := ch.active - 1)],
        byLocal := byLocal,
        bySocket := Unlist(st.bySocket, (KeyOf(query), q)),
        pendingUdp := if AnyRegistered(byLocal, query.local) then st.pendingUdp
                      else WithoutEntry(st.pendingUdp, st.pendings[query.local].key),
        txids := ReleaseTxid(st.txids, TxidOf(query)))
  }

  lemma {:induction false} RetireOneIsFinish(st: State, q: nat)
    requires Tables(st) && Coalescing(st, {}) && q in Live(st)
    ensures st.queries[q].fd in st.channels && st.channels[st.queries[q].fd].active > 0
    ensures Joined(st, st.queries[q].local)
    ensures RetireOne(st, q) == Finish(st, {q})
  {
    hide Tables, Coalescing, Live, Finish, AnyRegistered;
    LiveIsKnown(st);
    OneQueryRetires(st, q);
    LastSiblingDropsEntry(st, q);
    FinishFrame(st, {q});
    FinishKeepsLoad(st, {q});
  }

  lemma {:induction false} FinishKeepsLoad(st: State, done: set<nat>)
    ensures Finish(st, done).tcpTasks == st.tcpTasks && Finish(st, done).lineup == st.lineup
  {
  }

  // ----- The class -----

  class Forwarder {
    const cfg: Config
    var queries: map<nat, Query>
    var byLocal: multiset<Registration>
    var bySocket: multiset<(SocketKey, nat)>
    var pendings: map<nat, Pending>
    var pendingUdp: map<bytes, nat>
    var channels: map<nat, Channel>
    var lineup: seq<nat>
    var txids: map<Txid, nat>
    var nextLocal: nat
    var nextQuery: nat
    var tcpTasks: nat
    var clock: nat
    // What the clients asked and what was written back; the program itself keeps neither.
    var asked: seq<Asked>
    var log: seq<Reply>

    ghost function Snapshot(): State
      reads this
    {
      State(queries, byLocal, bySocket, pendings, pendingUdp, channels, lineup, txids,
            nextLocal, nextQuery, tcpTasks, clock, asked, log)
    }

    ghost predicate Valid()
      reads this
    {
      Invariant(Snapshot())
    }

    constructor (cfg: Config)
      ensures this.cfg == cfg && Snapshot() == INITIAL && Valid()
    {
      this.cfg := cfg;
      queries, byLocal, bySocket, pendings, pendingUdp := map[], multiset{}, multiset{}, map[], map[];
      channels, lineup, txids, nextLocal, nextQuery, tcpTasks, clock := map[], [], map[], 0, 0, 0, 0;
      asked, log := [], [];
      new;
      InvariantHolds(cfg, []);
    }

    /** allocate_txid: an id that was free is filed with the time. */
    method AllocateTxid(address: nat, draws: seq<uint16>) returns (id: Option<uint16>)
      modifies this`txids
      ensures id == FirstFree(old(txids), address, draws)
      ensures txids == if id.None? then old(txids) else old(txids)[Txid(address, id.value) := clock]
    {
      id := DrawFree(txids, address, draws);
      if id.Some? {
        txids := txids[Txid(address, id.value) := clock];
      }
    }

    /** finish_udp_query. */
    method FinishQuery(q: nat)
      requires Tables(Snapshot()) && Coalescing(Snapshot(), {}) && q in Live(Snapshot())
      modifies this
      ensures Snapshot() == Finish(old(Snapshot()), {q})
    {
      hide Finish, Tables, Coalescing, Live, AnyRegistered, WithoutEntry, ReleaseTxid, Unlist;
      RetireOneIsFinish(Snapshot(), q);
      LiveIsKnown(Snapshot());
      ghost var want := RetireOne(Snapshot(), q);
      var query := queries[q];
      assert query.fd in channels && query.local in pendings;
      ghost var entry := pendings[query.local].key;
      assert entry in pendingUdp && pendingUdp[entry] == query.local;
      if query.fd in channels {
        var ch := channels[query.fd];
        if ch.active > 0 {
          channels := channels[query.fd := ch.(active := ch.active - 1)];
        }
      }
      byLocal := Unlist(byLocal, (query.local, q));
      bySocket := Unlist(bySocket, (KeyOf(query), q));
      if !AnyRegistered(byLocal, query.local) {
        var key := pendings[query.local].key;
        if key in pendingUdp && pendingUdp[key] == query.local {
          pendingUdp := WithoutEntry(pendingUdp, key);
        }
      }
      txids := ReleaseTxid(txids, TxidOf(query));
    }

    /** finish_udp_transaction: the siblings are collected first and retired one by one. */
    method FinishTransaction(local: nat)
      requires Tables(Snapshot()) && Coalescing(Snapshot(), {})
      modifies this
      ensures Snapshot() == Finish(old(Snapshot()), Siblings(old(Snapshot()), local))
    {
      hide Finish, Tables, Coalescing, Live, Siblings, Registered;
      ghost var st := Snapshot();
      var siblings := Registered(queries, byLocal, local);
      SiblingsByKey(st, local);
      ghost var done := {};
      FinishNothing(st);
      while siblings != {}
        invariant done !! siblings && done + siblings == Siblings(st, local)
        invariant Snapshot() == Finish(st, done)
        decreases |siblings|
      {
        var q :| q in siblings;
        LiveAfterFinish(st, done);
        FinishKeepsTables(st, done);
        FinishKeepsCoalescing(st, done, local);
        SiblingsAreLive(st, local, q);
        assert q in Live(Snapshot());
        FinishQuery(q);
        FinishTwice(st, done, q);
        siblings, done := siblings - {q}, done + {q};
      }
      assert done == Siblings(st, local);
    }

    method CountServing(endpoint: Endpoint) returns (n: nat)
      ensures n == Serving(channels, lineup, endpoint)
    {
      n := 0;
      for i := 0 to |lineup|
        invariant n == Serving(channels, lineup[..i], endpoint)
      {
        assert lineup[..i + 1][..i] == lineup[..i];
        if lineup[i] in channels && channels[lineup[i]].endpoint == endpoint {
          n := n + 1;
        }
      }
      assert lineup[..|lineup|] == lineup;
    }

    /** choose_udp_channel. */
    method ChooseChannel(endpoint: Endpoint) returns (best: Option<nat>)
      ensures best == LeastActive(channels, lineup, endpoint)
    {
      best := None;
      for i := 0 to |lineup|
        invariant best == LeastActive(channels, lineup[..i], endpoint)
      {
        assert lineup[..i + 1][..i] == lineup[..i];
        var fd := lineup[i];
        if fd in channels && channels[fd].endpoint == endpoint {
          if best.None? || channels[fd].active < channels[best.value].active {
            best := Some(fd);
          }
        }
      }
      assert lineup[..|lineup|] == lineup;
    }

    /** get_or_create_udp_channel. */
    method GetOrCreateChannel(endpoint: Endpoint, socket: Option<nat>) returns (fd: Option<nat>)
      modifies this`channels, this`lineup
      ensures var c := UseChannel(old(channels), old(lineup), endpoint, socket);
        && (fd.Some? <==> c.Some?)
        && (c.Some? ==> fd.value == c.value.fd && channels == c.value.channels && lineup == c.value.lineup)
        && (c.None? ==> channels == old(channels) && lineup == old(lineup))
    {
      var existing := CountServing(endpoint);
      if existing >= CHANNELS_PER_FORWARDER {
        fd := ChooseChannel(endpoint);
        return;
      }
      if socket.None? || socket.value in channels {
        return None;
      }
      channels, lineup := channels[socket.value := Channel(endpoint, 0)], lineup + [socket.value];
      fd := socket;
    }

    method RegisterQuery(query: Query)
      requires query.fd in channels
      modifies this`queries, this`nextQuery, this`channels, this`byLocal, this`bySocket
      ensures Snapshot() == Register(old(Snapshot()), query)
    {
      hide Enlist, KeyOf;
      var id, ch := nextQuery, channels[query.fd];
      queries, nextQuery := queries[id := query], id + 1;
      channels := channels[query.fd := ch.(active := ch.active + 1)];
      byLocal := Enlist(byLocal, (query.local, id));
      bySocket := Enlist(bySocket, (KeyOf(query), id));
    }

    /** forward_udp: one attempt at getting the question to one forwarder. */
    method ForwardUdp(local: nat, question: Question, a: Attempt)
      modifies this
      ensures Snapshot() == Forward(old(Snapshot()), cfg, local, question, a)
    {
      hide FirstFree, RandomizeCase, UseChannel, Register;
      ChosenIsThere(channels, lineup, a.endpoint, a.socket);
      if tcpTasks + |byLocal| >= cfg.maxTasks { return; }
      var queryName := RandomizeCase(question.name, a.flips);
      var fd := GetOrCreateChannel(a.endpoint, a.socket);
      if fd.None? { return; }
      var id := AllocateTxid(a.endpoint.address, a.draws);
      if id.None? || !a.sent { return; }
      RegisterQuery(Query(local, id.value, fd.value, a.endpoint, question.typ, question.clas,
                          question.name, queryName, true, clock));
    }

    method Refuse(ticket: nat, id: uint16, question: Question, sent: bool)
      modifies this`log
      ensures Snapshot() == UdpState.Refuse(old(Snapshot()), ticket, id, question, sent)
    {
      log := log + [Reply(ticket, id, question, sent)];
    }

    /** The fan-out of a new transaction. */
    method ForwardToAll(local: nat, question: Question, attempts: seq<Attempt>)
      modifies this
      ensures Snapshot() == ForwardAll(old(Snapshot()), cfg, local, question, attempts)
    {
      hide Forward;
      assert attempts[0..] == attempts;
      for i := 0 to |attempts|
        invariant ForwardAll(old(Snapshot()), cfg, local, question, attempts) ==
                  ForwardAll(Snapshot(), cfg, local, question, attempts[i..])
      {
        assert attempts[i..][1..] == attempts[i + 1..];
        ForwardUdp(local, question, attempts[i]);
      }
    }

    /** process_query_udp, once the question is known not to be answerable locally. */
    method ProcessQuery(id: uint16, question: Question, attempts: seq<Attempt>, refusalSent: bool)
      requires Valid()
      modifies this
      ensures Snapshot() == Ask(old(Snapshot()), cfg, id, question, attempts, refusalSent) && Valid()
    {
      hide Invariant, Open, PendingKey, Live, UdpState.Refuse, TaskCount;
      AskKeepsInvariant(Snapshot(), cfg, id, question, attempts, refusalSent);
      var ticket := |asked|;
      var usable := ChooseForwarders(attempts);
      asked := asked + [Asked(id, question)];
      hide Usable;
      if usable == [] {
        Refuse(ticket, id, question, refusalSent);
        return;
      }
      var key, waiter := PendingKey(question), Waiter(ticket, id, question.name);
      if key in pendingUdp && pendingUdp[key] in pendings {
        JoinTransaction(pendingUdp[key], waiter, question, refusalSent);
        return;
      }
      OpenTransaction(waiter, question, usable, refusalSent);
    }

    /** One more waiter for a question that is on its way already. */
    method JoinTransaction(p: nat, waiter: Waiter, question: Question, refusalSent: bool)
      requires p in pendings
      modifies this
      ensures Snapshot() ==
        var s, pending := old(Snapshot()), old(pendings)[p];
        if |pending.waiters| >= MAX_WAITERS_PER_QUERY
        then UdpState.Refuse(s, waiter.ticket, waiter.requesterId, question, refusalSent)
        else s.(pendings := s.pendings[p := pending.(waiters := pending.waiters + [waiter])])
    {
      if |pendings[p].waiters| >= MAX_WAITERS_PER_QUERY {
        Refuse(waiter.ticket, waiter.requesterId, question, refusalSent);
      } else {
        pendings := pendings[p := pendings[p].(waiters := pendings[p].waiters + [waiter])];
      }
    }

    /** Fewer forwarders are asked when the server is half full. */
    method ChooseForwarders(attempts: seq<Attempt>) returns (usable: seq<Attempt>)
      ensures usable == Usable(Snapshot(), cfg, attempts)
    {
      var fanout := if tcpTasks + |byLocal| < cfg.maxTasks / 2 then cfg.fanout else 1;
      usable := if |attempts| > fanout then attempts[..fanout] else attempts;
    }

    method OpenTransaction(waiter: Waiter, question: Question, usable: seq<Attempt>, refusalSent: bool)
      modifies this
      ensures Snapshot() == Open(old(Snapshot()), cfg, waiter, question, usable, refusalSent)
    {
      hide ForwardAll, PendingKey, Live, UdpState.Refuse, Siblings;
      var local, key := nextLocal, PendingKey(question);
      nextLocal := nextLocal + 1;
      pendings := pendings[local := Pending(key, [waiter])];
      pendingUdp := pendingUdp[key := local];
      ForwardToAll(local, question, usable);
      SiblingsByKey(Snapshot(), local);
      if Registered(queries, byLocal, local) == {} {
        pendingUdp := WithoutEntry(pendingUdp, key);
        Refuse(waiter.ticket, waiter.requesterId, question, refusalSent);
      }
    }

    /** reply_to_client_udp: one message per waiter; true when at least one could be sent. */
    method ReplyToClients(q: nat, sends: seq<bool>) returns (sent: bool)
      requires q in queries
      modifies this`log
      ensures var replies := RepliesTo(WaitersOf(old(Snapshot()), q), queries[q].typ, queries[q].clas, sends);
        Snapshot() == old(Snapshot()).(log := old(log) + replies) && sent == AnySent(replies)
    {
      var query := queries[q];
      var waiters := if query.local in pendings then pendings[query.local].waiters else [];
      ghost var replies := RepliesTo(waiters, query.typ, query.clas, sends);
      sent := false;
      for i := 0 to |waiters|
        invariant log == old(log) + replies[..i]
        invariant sent == exists j :: 0 <= j < i && replies[j].sent
      {
        var ok := i < |sends| && sends[i];
        log := log + [Reply(waiters[i].ticket, waiters[i].requesterId,
                            Question(waiters[i].requestName, query.typ, query.clas), ok)];
        assert replies[..i + 1] == replies[..i] + [replies[i]];
        sent := ok || sent;
      }
      assert replies[..|waiters|] == replies;
    }

    method Deliver(q: nat, sends: seq<bool>)
      requires Valid() && q in Live(Snapshot())
      modifies this
      ensures Snapshot() == UdpState.Deliver(old(Snapshot()), q, sends) && Valid()
    {
      hide Tables, Coalescing, Replies, SameQuestion, Finish, Live, WaitersOf, AnySent, RepliesTo;
      DeliverKeepsInvariant(Snapshot(), q, sends);
      LiveIsKnown(Snapshot());
      ghost var st := Snapshot();
      var sent := ReplyToClients(q, sends);
      SameButLog(st, Snapshot(), queries[q].local);
      if sent {
        FinishTransaction(queries[q].local);
      } else {
        FinishQuery(q);
      }
    }

    /**
      * One datagram in process_upstream_udp_channel. `pick` stands for whichever registration the
      * multimap lookup returns first.
      */
    method ProcessDatagram(fd: nat, msg: Upstream, pick: nat, draws: seq<uint16>, retrySent: bool, sends: seq<bool>)
      requires Valid()
      modifies this
      ensures Snapshot() == Receive(old(Snapshot()), fd, msg, pick, draws, retrySent, sends) && Valid()
    {
      hide Invariant, UdpState.Deliver, Live, Matches, FirstFree;
      ReceiveKeepsInvariant(Snapshot(), fd, msg, pick, draws, retrySent, sends);
      LiveIsListed(Snapshot(), pick);
      if ((fd, msg.id), pick) !in bySocket { return; }
      if pick !in queries || (queries[pick].local, pick) !in byLocal { return; }
      var q := queries[pick];
      if !Matches(q, msg) { return; }
      var rcode := Rcode(msg.flags);
      if (rcode == 1 || rcode == 4) && q.usedEdns {
        ghost var st := Snapshot();
        var id := AllocateTxid(q.endpoint.address, draws);
        TxidsKeepInvariant(st, txids);
        TablesHaveSameLive(st, Snapshot());
        if id.Some? && retrySent {
          MoveTo(pick, id.value);
          return;
        }
      }
      Deliver(pick, sends);
    }

    /** The query is registered anew under the id its retry went out with. */
    method MoveTo(q: nat, id: uint16)
      requires q in queries
      modifies this`queries, this`bySocket
      ensures Snapshot() == Retry(old(Snapshot()), q, id)
    {
      hide KeyOf, Unlist, Enlist, Retried;
      var was := queries[q];
      var now := Retried(was, id, clock);
      bySocket := Unlist(bySocket, (KeyOf(was), q));
      queries := queries[q := now];
      bySocket := Enlist(bySocket, (KeyOf(now), q));
    }

    /** The time-out phase of clean: the overdue queries, in whatever order the table lists them. */
    method ExpireOverdue(order: seq<nat>, sends: seq<seq<bool>>)
      requires Valid()
      modifies this
      ensures Snapshot() == ExpireAll(old(Snapshot()), cfg, order, sends) && Valid()
    {
      hide Invariant, Live, Expire;
      assert order[0..] == order;
      for i := 0 to |order|
        invariant Valid()
        invariant ExpireAll(old(Snapshot()), cfg, order, sends) ==
                  ExpireAll(Snapshot(), cfg, order[i..], Rest(sends, i))
      {
        assert order[i..][1..] == order[i + 1..];
        RestSteps(sends, i);
        var results := if i < |sends| then sends[i] else [];
        ExpireQuery(order[i], results);
      }
    }

    method ExpireQuery(q: nat, sends: seq<bool>)
      requires Valid()
      modifies this
      ensures Snapshot() == Expire(old(Snapshot()), cfg, q, sends) && Valid()
    {
      hide Tables, Coalescing, Replies, SameQuestion, Finish, Live, WaitersOf, AnySent, RepliesTo;
      ExpireKeepsInvariant(Snapshot(), cfg, q, sends);
      LiveIsListed(Snapshot(), q);
      if q !in queries || (queries[q].local, q) !in byLocal { return; }
      if clock - queries[q].timestamp < cfg.timeoutMs { return; }
      ghost var st := Snapshot();
      var _ := ReplyToClients(q, sends);
      SameButLog(st, Snapshot(), queries[q].local);
      FinishTransaction(queries[q].local);
    }
  }

  function Rest<T>(s: seq<T>, i: nat): seq<T> {
    if i < |s| then s[i..] else []
  }

  lemma {:induction false} RestSteps<T>(s: seq<T>, i: nat)
    ensures Rest(s, i) != [] <==> i < |s|
    ensures i < |s| ==> Rest(s, i)[0] == s[i] && Rest(s, i + 1) == Rest(s, i)[1..]
    ensures i >= |s| ==> Rest(s, i) == [] && Rest(s, i + 1) == []
  {
  }

  /** Expire, for each query of a list, with the outcome of each round of writes. */
  function ExpireAll(st: State, cfg: Config, order: seq<nat>, sends: seq<seq<bool>>): State
    decreases |order|
  {
    if order == [] then st
    else ExpireAll(Expire(st, cfg, order[0], if sends == [] then [] else sends[0]), cfg, order[1..], Rest(sends, 1))
  }

  /** A time-out phase that visits every overdue query leaves none overdue. */
  lemma {:induction false} NoneLeftOverdue(st: State, cfg: Config, order: seq<nat>, sends: seq<seq<bool>>)
    requires Invariant(st)
    requires forall q :: q in Live(st) && st.clock >= st.queries[q].timestamp + cfg.timeoutMs ==> q in order
    ensures var after := ExpireAll(st, cfg, order, sends);
      && Invariant(after)
      && forall q :: q in Live(after) ==> q in after.queries && after.clock < after.queries[q].timestamp + cfg.timeoutMs
    decreases |order|
  {
    hide Invariant, Expire, Live;
    LiveIsKnown(st);
    if order != [] {
      var results := if sends == [] then [] else sends[0];
      var s := Expire(st, cfg, order[0], results);
      ExpireKeepsInvariant(st, cfg, order[0], results);
      ExpireRetires(st, cfg, order[0], results);
      LiveIsKnown(s);
      NoneLeftOverdue(s, cfg, order[1..], Rest(sends, 1));
    }
  }

  lemma {:induction false} ExpireRetires(st: State, cfg: Config, q: nat, sends: seq<bool>)
    requires Invariant(st)
    ensures var s := Expire(st, cfg, q, sends);
      && s.queries == st.queries && s.clock == st.clock && Live(s) <= Live(st)
      && (q in Live(st) && Overdue(st, cfg, q) ==> q !in Live(s))
  {
    hide Finish, Live, Tables, Replies, SameQuestion, WaitersOf, RepliesTo;
    LiveIsKnown(st);
    if q in Live(st) && Overdue(st, cfg, q) {
      var query := st.queries[q];
      var s := st.(log := st.log + RepliesTo(WaitersOf(st, q), query.typ, query.clas, sends));
      SameButLog(st, s, query.local);
      FinishFrame(s, Siblings(s, query.local));
      LiveAfterFinish(s, Siblings(s, query.local));
      SiblingOfItself(st, q);
    }
  }

  lemma {:induction false} ChosenIsThere(channels: map<nat, Channel>, lineup: seq<nat>, endpoint: Endpoint,
                                         socket: Option<nat>)
    ensures var c := UseChannel(channels, lineup, endpoint, socket);
      c.Some? ==> c.value.fd in c.value.channels
  {
  }

  lemma {:induction false} LiveIsListed(st: State, q: nat)
    ensures q in Live(st) <==> q in st.queries && (st.queries[q].local, q) in st.byLocal
  {
  }

  lemma {:induction false} SiblingsByKey(st: State, local: nat)
    ensures Siblings(st, local) == Registered(st.queries, st.byLocal, local)
  {
  }

  lemma {:induction false} SiblingsAreLive(st: State, local: nat, q: nat)
    requires q in Siblings(st, local)
    ensures q in Live(st)
  {
  }
}
