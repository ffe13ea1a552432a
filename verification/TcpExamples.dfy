/** Runs of the TCP side that lose track of a descriptor. */
module TcpExamples {
  import opened Bytes
  import opened Txids
  import opened TcpTasks
  import opened TcpResults
  import opened TcpLeaks
  import Names
  import Messages
  import FilterRules
  import LocalReplies

  const LIMITS := Limits(10, 10, 1000, 1000, 1000)
  const LISTENING := State(map[3 := 0], 1, map[], {3}, 0, 0, map[], [])

  function Asks(fd: int, now: nat, request: Request): Event {
    Ready(fd, now, Outcome(WriteNeedMore, request, true, true, ReplyNotYet, SendOutcome(true, true)))
  }

  lemma {:induction false} StartsEmpty()
    ensures Init(LISTENING)
  {
  }

  // ----- A client whose local reply cannot be encoded -----

  const CLIENT := Accept(5, true, 0)
  const ONE_CLIENT := State(map[3 := 0, 5 := 1], 2, map[5 := Task(0, Reading, 5, -1, 1, true, None, 1000)], {3}, 0, 1,
                            map[], [])

  lemma {:induction false} ClientConnects()
    ensures Possible(LIMITS, LISTENING, CLIENT) && Step(LIMITS, LISTENING, CLIENT) == ONE_CLIENT
  {
  }

  /** A client connects, and its question is answered on the spot. */
  ghost function AnsweredRun(reply: Messages.Message): seq<State> {
    var asks := Asks(5, 1, Local(reply, true));
    assert Possible(LIMITS, ONE_CLIENT, asks);
    [LISTENING, ONE_CLIENT, Step(LIMITS, ONE_CLIENT, asks)]
  }

  lemma {:induction false} AnsweredIsARun(reply: Messages.Message)
    ensures IsRun(LIMITS, AnsweredRun(reply), [CLIENT, Asks(5, 1, Local(reply, true))])
  {
    hide Step, Init, Encoded;
    var states, events := AnsweredRun(reply), [CLIENT, Asks(5, 1, Local(reply, true))];
    StartsEmpty();
    ClientConnects();
    assert Possible(LIMITS, states[1], events[1]);
  }

  lemma {:induction false} UnencodedIsLost(reply: Messages.Message)
    requires !Encoded(reply)
    ensures 5 in Loses(ONE_CLIENT, Asks(5, 1, Local(reply, true)))
  {
    hide Encoded;
  }

  /**
    * A reverse look-up of an address that the hosts file names with a final dot costs the client's
    * descriptor: the answer cannot be encoded, and the connection stays open for ever.
    */
  lemma {:induction false} LocalReplyCanLoseClient(h: Messages.Header, q: Messages.Question, ttl: uint32, name: bytes,
                                                   edns: Option<uint16>)
    requires Names.Encodable(q.name) && FilterRules.ValidDomain(name) && name[|name| - 1] == Names.DOT
    ensures var reply := LocalReplies.PtrReply(h, q, ttl, Lower(name), edns);
      && IsRun(LIMITS, AnsweredRun(reply), [CLIENT, Asks(5, 1, Local(reply, true))])
      && Lost(AnsweredRun(reply)[2], 5)
  {
    hide IsRun, Lost, Step, Loses, Names.Encodable, LocalReplies.PtrReply, Lower;
    var reply := LocalReplies.PtrReply(h, q, ttl, Lower(name), edns);
    LocalReplies.HostAnswersWritten(h, q, ttl, name, edns);
    AnsweredIsARun(reply);
    UnencodedIsLost(reply);
    LostAtTheEnd(AnsweredRun(reply), [CLIENT, Asks(5, 1, Local(reply, true))], 5);
  }

  lemma {:induction false} LostAtTheEnd(states: seq<State>, events: seq<Event>, fd: int)
    requires IsRun(LIMITS, states, events) && events != []
    requires fd in Loses(states[|events| - 1], events[|events| - 1])
    ensures Lost(states[|events|], fd)
  {
    hide Lost, Step, Loses;
    RunsLoseExactly(LIMITS, states, events, |events|);
    assert LostBefore(states, events, |events|, fd);
  }

  // ----- A socket for which there is no transaction id -----

  function Repeated(draw: uint16, n: nat): (draws: seq<uint16>)
    ensures |draws| == n && forall i :: 0 <= i < n ==> draws[i] == draw
  {
    if n == 0 then [] else [draw] + Repeated(draw, n - 1)
  }

  const SAME_DRAWS := Repeated(9, MAX_TXID_RETRIES)
  const FIRST := Asks(5, 1, Routed(Socket(6, 1, SAME_DRAWS, true)))
  const ANOTHER := Accept(7, true, 2)
  const SECOND := Asks(7, 3, Routed(Socket(8, 1, SAME_DRAWS, true)))

  const ONE_FORWARDED := State(map[3 := 0, 5 := 1, 6 := 2], 3,
    map[6 := Task(1, Forwarding, 6, 5, 1, true, Some(Txid(1, 9)), 1001)], {3}, 0, 2, map[Txid(1, 9) := 1], [])
  const TWO_CLIENTS := State(map[3 := 0, 5 := 1, 6 := 2, 7 := 3], 4,
    map[6 := Task(1, Forwarding, 6, 5, 1, true, Some(Txid(1, 9)), 1001),
        7 := Task(2, Reading, 7, -1, 3, true, None, 1002)], {3}, 0, 3, map[Txid(1, 9) := 1], [])

  lemma {:induction false} FirstIsForwarded()
    ensures Possible(LIMITS, ONE_CLIENT, FIRST) && Step(LIMITS, ONE_CLIENT, FIRST) == ONE_FORWARDED
  {
    FirstDrawIsFree(map[]);
  }

  lemma {:induction false} FirstDrawIsFree(txids: map<Txid, nat>)
    requires txids == map[]
    ensures FirstFree(txids, 1, SAME_DRAWS) == Some(9)
  {
  }

  lemma {:induction false} AnotherConnects()
    ensures Possible(LIMITS, ONE_FORWARDED, ANOTHER) && Step(LIMITS, ONE_FORWARDED, ANOTHER) == TWO_CLIENTS
  {
  }

  /** All hundred draws repeat the id the first query holds. */
  lemma {:induction false} SecondFindsNoId()
    ensures Possible(LIMITS, TWO_CLIENTS, SECOND) && 8 in Loses(TWO_CLIENTS, SECOND)
  {
    hide FirstFree;
    FirstFreeExactly(TWO_CLIENTS.txids, 1, SAME_DRAWS);
  }

  const QUERIES: seq<Event> := [CLIENT, FIRST, ANOTHER, SECOND]

  ghost function QueriesRun(): seq<State> {
    SecondFindsNoId();
    [LISTENING, ONE_CLIENT, ONE_FORWARDED, TWO_CLIENTS, Step(LIMITS, TWO_CLIENTS, SECOND)]
  }

  lemma {:induction false} RunOfFour(s: seq<State>, e: seq<Event>)
    requires |s| == 5 && |e| == 4 && Init(s[0])
    requires Possible(LIMITS, s[0], e[0]) && s[1] == Step(LIMITS, s[0], e[0])
    requires Possible(LIMITS, s[1], e[1]) && s[2] == Step(LIMITS, s[1], e[1])
    requires Possible(LIMITS, s[2], e[2]) && s[3] == Step(LIMITS, s[2], e[2])
    requires Possible(LIMITS, s[3], e[3]) && s[4] == Step(LIMITS, s[3], e[3])
    ensures IsRun(LIMITS, s, e)
  {
    hide Step, Init, Possible;
  }

  lemma {:induction false} QueriesAreARun()
    ensures IsRun(LIMITS, QueriesRun(), QUERIES)
  {
    hide Step, Init, Possible, FirstFree, IsRun, Loses;
    StartsEmpty();
    ClientConnects();
    FirstIsForwarded();
    AnotherConnects();
    SecondFindsNoId();
    RunOfFour(QueriesRun(), QUERIES);
  }

  /** While one query holds an id, another whose draws all repeat it leaves its new socket open for ever. */
  lemma {:induction false} MissingTxidCanLoseSocket()
    ensures IsRun(LIMITS, QueriesRun(), QUERIES) && Lost(QueriesRun()[4], 8)
  {
    hide IsRun, Lost, Step, Loses, Possible;
    QueriesAreARun();
    SecondFindsNoId();
    LostAtTheEnd(QueriesRun(), QUERIES, 8);
  }
}
