/** A run of both sides in which a TCP task releases the transaction id of a UDP query. */
module SharedExamples {
  import opened Bytes
  import opened Txids
  import opened Capacity
  import U = UdpState
  import CoalescingKeys
  import UdpInvariants
  import UdpTxids
  import UdpExamples
  import T = TcpTasks

  const CONFIG := UdpExamples.EXAMPLE_CONFIG
  const LIMITS := T.Limits(10, 10, 1000, 100, 1000)
  const SHARED := Txid(1, 7)

  const FORWARDED := T.Task(1, T.Forwarding, 6, 5, 1, true, Some(SHARED), 100)

  // ----- The TCP side -----

  const T0 := T.State(map[3 := 0], 1, map[], {3}, 0, 0, map[], [])
  const T1 := T.State(map[3 := 0, 5 := 1], 2, map[5 := T.Task(0, T.Reading, 5, -1, 1, true, None, 1000)], {3}, 0, 1,
                      map[], [])
  const T2 := T.State(map[3 := 0, 5 := 1, 6 := 2], 3, map[6 := FORWARDED], {3}, 0, 2, map[SHARED := 0], [])

  const CONNECTS := T.Accept(5, true, 0)
  const ASKS := T.Ready(5, 0, Outcome(T.Routed(T.Socket(6, 1, [7], true)), true))
  const CLEANS := T.Expire([], [], 99)
  const BREAKS := T.Ready(6, 299, Outcome(T.NotYet, false))

  function Outcome(request: T.Request, connected: bool): T.Outcome {
    T.Outcome(T.WriteNeedMore, request, connected, true, T.ReplyNotYet, T.SendOutcome(true, true))
  }

  lemma {:induction false} ClientConnects()
    ensures T.Init(T0)
    ensures T.Possible(LIMITS, T0, CONNECTS) && T.Step(LIMITS, T0, CONNECTS) == T1
  {
  }

  lemma {:induction false} ClientAsks()
    ensures T.Possible(LIMITS, T1, ASKS) && T.Step(LIMITS, T1, ASKS) == T2
  {
    hide FirstFree, T.Put, T.Drop;
    UdpExamples.FirstDrawIsFree(map[], 1, [7]);
    HandedOver(T1.tasks, FORWARDED);
  }

  lemma {:induction false} HandedOver(tasks: map<int, T.Task>, t: T.Task)
    requires 6 !in tasks && tasks.Keys == {5}
    ensures T.Put(tasks, 6, t) == tasks[6 := t] && T.Drop(tasks[6 := t], 5) == map[6 := t]
  {
  }

  /** The TCP time-out phase finds the task one millisecond too young. */
  lemma {:induction false} TaskIsTooYoung()
    ensures T.Possible(LIMITS, T2, CLEANS) && T.Step(LIMITS, T2, CLEANS) == T2
  {
  }

  /** The task as it is when its connection turns out to have failed; 7 is the channel's socket by now. */
  function Waiting(udp: nat, txids: map<Txid, nat>): T.State {
    T.State(map[3 := 0, 5 := 1, 6 := 2, 7 := 3], 4, map[6 := FORWARDED], {3, 7}, udp, 2, txids, [])
  }

  lemma {:induction false} ChannelOpens(udp: nat, txids: map<Txid, nat>)
    ensures T.AllFresh(T2.(txids := map[]), [7])
    ensures T.UdpStep(T2.(txids := map[]), udp, [7], txids) == Waiting(udp, txids)
  {
    var s := T2.(txids := map[]);
    var r := T.Opened(s, 7).(system := s.system + {7});
    assert [7][1..] == [];
    assert T.OpenChannels(r, []) == r;
    assert T.OpenChannels(s, [7]) == r;
    assert s.system + {7} == {3, 7};
  }

  lemma {:induction false} NoChannelOpens(s: T.State)
    ensures T.AllFresh(s, []) && T.UdpStep(s, s.udp, [], s.txids) == s
    ensures forall txids :: T.UdpStep(s, s.udp, [], txids) == s.(txids := txids)
  {
  }

  const SERVFAIL := T.SendOutcome(true, true)

  /** The upstream task is gone, and its id with it. */
  function Ended(udp: nat, txids: map<Txid, nat>): T.State {
    T.State(map[3 := 0, 5 := 1, 7 := 3], 4, map[], {3, 7}, udp, 2, txids - {SHARED}, [])
  }

  /** The client is being told so. */
  function Replying(udp: nat, txids: map<Txid, nat>): T.State {
    Ended(udp, txids).(tasks := map[5 := T.Task(2, T.Writing, 5, -1, 1, true, None, 1299)], nextId := 3)
  }

  lemma {:induction false} TaskEnds(udp: nat, txids: map<Txid, nat>)
    ensures T.FinishTask(Waiting(udp, txids), FORWARDED, false) == Ended(udp, txids)
  {
    hide T.Drop;
    SixIsGone(Waiting(udp, txids).tasks, Waiting(udp, txids).open);
  }

  lemma {:induction false} SixIsGone(tasks: map<int, T.Task>, open: map<int, nat>)
    requires tasks == map[6 := FORWARDED] && open == map[3 := 0, 5 := 1, 6 := 2, 7 := 3]
    ensures T.Drop(tasks, 6) == map[] && open - {6} == map[3 := 0, 5 := 1, 7 := 3]
  {
  }

  lemma {:induction false} ReplyStarts(udp: nat, txids: map<Txid, nat>)
    requires udp <= 1
    ensures T.SendReply(LIMITS, Ended(udp, txids), 5, 1, 299, SERVFAIL) == T.Sent(Replying(udp, txids), true)
  {
    hide T.Put;
    PutAlone(T.Task(2, T.Writing, 5, -1, 1, true, None, 1299));
  }

  lemma {:induction false} PutAlone(t: T.Task)
    ensures T.Put(map[], 5, t) == map[5 := t]
  {
  }

  lemma {:induction false} FailureReleases(udp: nat, txids: map<Txid, nat>)
    requires udp <= 1
    ensures T.Possible(LIMITS, Waiting(udp, txids), BREAKS)
    ensures T.Step(LIMITS, Waiting(udp, txids), BREAKS) == Replying(udp, txids)
  {
    hide T.FinishTask, T.SendReply, Ended, Replying;
    TaskEnds(udp, txids);
    ReplyStarts(udp, txids);
  }

  // ----- The UDP side -----

  const ATTEMPT := U.Attempt(U.Endpoint(1, 53), Some(7), [], [7], true)
  const LETTER: U.Event := U.AskEvent(1, UdpExamples.LetterQuestion(0), [ATTEMPT], false)

  /** Nothing is asked by UDP until the sweep has passed. */
  function Idle(tcpTasks: nat, txids: map<Txid, nat>, clock: nat): U.State {
    U.INITIAL.(tcpTasks := tcpTasks, txids := txids, clock := clock)
  }

  lemma {:induction false} IdleSteps(tcpTasks: nat, txids: map<Txid, nat>, clock: nat, more: nat, tasks: nat,
                                     others: map<Txid, nat>)
    ensures U.Step(Idle(tcpTasks, txids, clock), CONFIG, U.TimePasses(more)) == Idle(tcpTasks, txids, clock + more)
    ensures U.Step(Idle(tcpTasks, txids, clock), CONFIG, U.TcpWork(tasks, others)) == Idle(tasks, others, clock)
    ensures UdpTxids.SweepIsSafe(Idle(tcpTasks, txids, clock), {}, CONFIG)
  {
    assert U.Live(Idle(tcpTasks, txids, clock)) == {};
  }

  lemma {:induction false} IdleSweeps()
    ensures U.Step(Idle(1, map[SHARED := 0], 299), CONFIG, U.SweepEvent) == Idle(1, map[], 299)
  {
    assert Young(map[SHARED := 0], 299, 100) == map[];
  }

  /** A question goes out under the id the sweep has freed. */
  lemma {:induction false} LetterTakesId()
    ensures var u := U.Step(Idle(1, map[], 299), CONFIG, LETTER);
      && 0 in U.Live(u) && 0 in u.queries && U.TxidOf(u.queries[0]) == SHARED && |u.byLocal| == 1
      && u.lineup == [7] && u.clock == 299
  {
    hide UdpInvariants.Tables, U.Live, CoalescingKeys.PendingKey, CoalescingKeys.RandomizeCase, U.Ask;
    var u := Idle(1, map[], 299);
    IdleTables(u);
    UdpExamples.PlainAsk(u, CONFIG, 1, UdpExamples.LetterQuestion(0), ATTEMPT);
    UdpExamples.PlainAskFrame(u, 1, UdpExamples.LetterQuestion(0), ATTEMPT);
    assert u.lineup + [7] == [7];
  }

  lemma {:induction false} IdleTables(u: U.State)
    requires u == Idle(1, map[], 299)
    ensures UdpInvariants.Tables(u)
  {
    assert U.Live(u) == {};
  }

  // ----- Together -----

  const EVENTS: seq<Event> := [
    Tcp(CONNECTS), Tcp(ASKS), Udp(U.TimePasses(99)), Tcp(CLEANS), Udp(U.TimePasses(200)), Udp(U.SweepEvent),
    Udp(LETTER), Tcp(BREAKS)]

  function Us(): seq<U.State> {
    var asked := U.Step(Idle(1, map[], 299), CONFIG, LETTER);
    var last := asked.txids - {SHARED};
    [U.INITIAL, Idle(1, map[], 0), Idle(1, map[SHARED := 0], 0), Idle(1, map[SHARED := 0], 99),
     Idle(1, map[SHARED := 0], 99), Idle(1, map[SHARED := 0], 299), Idle(1, map[], 299), asked,
     asked.(tcpTasks := 1, txids := last)]
  }

  function Ss(): seq<T.State> {
    var asked := U.Step(Idle(1, map[], 299), CONFIG, LETTER);
    [T0, T1, T2, T2, T2, T2, T2.(txids := map[]), Waiting(|asked.byLocal|, asked.txids),
     Replying(|asked.byLocal|, asked.txids)]
  }

  /** A TCP event at which nothing is asked by UDP yet. */
  lemma {:induction false} IdleTogether(s: T.State, s': T.State, x: T.Event, u: U.State, clock: nat)
    requires !x.UdpWork? && TimeOf(x) == clock && T.Possible(LIMITS, s, x) && s' == T.Step(LIMITS, s, x)
    requires u == Idle(|s.tasks|, s.txids, clock)
    ensures Together(CONFIG, LIMITS, u, s, Tcp(x), Idle(|s'.tasks|, s'.txids, clock), s')
  {
    hide T.Step, T.Possible, U.Step;
    IdleSteps(|s.tasks|, s.txids, clock, 0, |s'.tasks|, s'.txids);
  }

  lemma {:induction false} TcpEventsTogether()
    ensures Together(CONFIG, LIMITS, U.INITIAL, T0, Tcp(CONNECTS), Idle(1, map[], 0), T1)
    ensures Together(CONFIG, LIMITS, Idle(1, map[], 0), T1, Tcp(ASKS), Idle(1, map[SHARED := 0], 0), T2)
    ensures Together(CONFIG, LIMITS, Idle(1, map[SHARED := 0], 99), T2, Tcp(CLEANS), Idle(1, map[SHARED := 0], 99), T2)
  {
    hide T.Step, T.Possible, U.Step, T.Init, Together;
    ClientConnects();
    ClientAsks();
    TaskIsTooYoung();
    IdleTogether(T0, T1, CONNECTS, U.INITIAL, 0);
    IdleTogether(T1, T2, ASKS, Idle(1, map[], 0), 0);
    IdleTogether(T2, T2, CLEANS, Idle(1, map[SHARED := 0], 99), 99);
  }

  lemma {:induction false} UdpEventsTogether()
    ensures Together(CONFIG, LIMITS, Us()[2], Ss()[2], EVENTS[2], Us()[3], Ss()[3])
    ensures Together(CONFIG, LIMITS, Us()[4], Ss()[4], EVENTS[4], Us()[5], Ss()[5])
    ensures Together(CONFIG, LIMITS, Us()[5], Ss()[5], EVENTS[5], Us()[6], Ss()[6])
    ensures Together(CONFIG, LIMITS, Us()[6], Ss()[6], EVENTS[6], Us()[7], Ss()[7])
  {
    hide T.Step, T.Possible, U.Step, T.UdpStep, T.AllFresh, U.Live;
    IdleSteps(1, map[SHARED := 0], 0, 99, 1, map[]);
    IdleSteps(1, map[SHARED := 0], 99, 200, 1, map[]);
    IdleSweeps();
    NoChannelOpens(T2);
    LetterTakesId();
    ChannelOpens(|Us()[7].byLocal|, Us()[7].txids);
  }

  lemma {:induction false} LastEventTogether()
    ensures Together(CONFIG, LIMITS, Us()[7], Ss()[7], EVENTS[7], Us()[8], Ss()[8])
  {
    hide T.Step, T.Possible, U.Step;
    LetterTakesId();
    var asked := Us()[7];
    FailureReleases(|asked.byLocal|, asked.txids);
    WorkAgrees(CONFIG, asked, 1, asked.txids - {SHARED});
  }

  /**
    * It is not enough that every sweep spares the queries: the one sweep here comes while there is no
    * query at all, but it frees the id of a TCP task; a query draws that id, and the task, when it
    * ends, releases it while the query is live.
    */
  lemma {:induction false} TcpTaskCanReleaseQuerysId()
    ensures IsRun(CONFIG, LIMITS, Us(), Ss(), EVENTS)
    ensures forall i :: 0 <= i < 8 && EVENTS[i] == Udp(U.SweepEvent) ==> UdpTxids.SweepIsSafe(Us()[i], {}, CONFIG)
    ensures 0 in U.Live(Us()[8]) && U.TxidOf(Us()[8].queries[0]) !in Us()[8].txids
  {
    hide T.Step, T.Possible, U.Step, Together, T.Init, UdpTxids.SweepIsSafe;
    ClientConnects();
    ClientAsks();
    TcpEventsTogether();
    UdpEventsTogether();
    LastEventTogether();
    LetterTakesId();
    IdleSteps(1, map[SHARED := 0], 299, 0, 0, map[]);
  }
}
