/** Runs of the UDP side that show what it does not promise. */
module UdpExamples {
  import opened Bytes
  import opened Messages
  import opened CoalescingKeys
  import opened Txids
  import opened UdpState
  import opened UdpInvariants
  import opened UdpRuns
  import opened UdpResults
  import opened UdpTxids
  import opened UdpChannels

  // ----- A question nobody is waiting for, sent to one forwarder without a hitch -----

  /** The transaction is there, with its one waiter. */
  function Prepared(st: State, id: uint16, question: Question): State {
    var key := PendingKey(question);
    st.(asked := st.asked + [Asked(id, question)], nextLocal := st.nextLocal + 1,
        pendings := st.pendings[st.nextLocal := Pending(key, [Waiter(|st.asked|, id, question.name)])],
        pendingUdp := st.pendingUdp[key := st.nextLocal])
  }

  function ChannelFor(st: State, a: Attempt): Option<Chosen> {
    UseChannel(st.channels, st.lineup, a.endpoint, a.socket)
  }

  predicate Smooth(st: State, a: Attempt) {
    ChannelFor(st, a).Some? && a.sent && Txid(a.endpoint.address, Draw(a.draws, 0)) !in st.txids
  }

  /** The channel is chosen and the transaction id taken. */
  function Equipped(st: State, a: Attempt): State
    requires Smooth(st, a)
  {
    var c := ChannelFor(st, a).value;
    st.(channels := c.channels, lineup := c.lineup,
        txids := st.txids[Txid(a.endpoint.address, Draw(a.draws, 0)) := st.clock])
  }

  function NewQuery(st: State, p: nat, question: Question, a: Attempt): Query
    requires Smooth(st, a)
  {
    Query(p, Draw(a.draws, 0), ChannelFor(st, a).value.fd, a.endpoint, question.typ, question.clas,
          question.name, RandomizeCase(question.name, a.flips), true, st.clock)
  }

  lemma {:induction false} EquippedKeepsTables(st: State, a: Attempt)
    requires Tables(st) && Smooth(st, a)
    ensures Tables(Equipped(st, a)) && Live(Equipped(st, a)) == Live(st)
    ensures ChannelFor(st, a).value.fd in Equipped(st, a).channels
  {
    hide Tables, Live;
    var c := ChannelFor(st, a).value;
    var s := st.(channels := c.channels, lineup := c.lineup);
    OpenChannelKeepsTables(st, a.endpoint, a.socket);
    TablesHaveSameLive(st, s);
    TablesFrame(s, Equipped(st, a));
    TablesHaveSameLive(s, Equipped(st, a));
  }

  lemma {:induction false} FirstDrawIsFree(txids: map<Txid, nat>, address: nat, draws: seq<uint16>)
    requires Txid(address, Draw(draws, 0)) !in txids
    ensures FirstFree(txids, address, draws) == Some(Draw(draws, 0))
  {
  }

  lemma {:induction false} SmoothForward(st: State, cfg: Config, p: nat, question: Question, a: Attempt)
    requires Smooth(st, a) && TaskCount(st) < cfg.maxTasks
    ensures ChannelFor(st, a).value.fd in Equipped(st, a).channels
    ensures ForwardAll(st, cfg, p, question, [a]) == Register(Equipped(st, a), NewQuery(st, p, question, a))
  {
    hide Register, RandomizeCase, FirstFree, UseChannel, Draw;
    ChosenServes(st.channels, st.lineup, a.endpoint, a.socket);
    FirstDrawIsFree(st.txids, a.endpoint.address, a.draws);
    assert [a][1..] == [];
  }

  lemma {:induction false} RegisteredState(st: State, q: Query)
    requires Tables(st) && q.fd in st.channels
    ensures var after := Register(st, q);
      && Tables(after) && Live(after) == Live(st) + {st.nextQuery}
      && after.queries == st.queries[st.nextQuery := q] && |after.byLocal| == |st.byLocal| + 1
      && after.channels == st.channels[q.fd := Channel(st.channels[q.fd].endpoint, st.channels[q.fd].active + 1)]
  {
    hide Tables, Live;
    RegisterKeepsTables(st, q);
  }

  lemma {:induction false} RegisterFrame(st: State, q: Query)
    requires q.fd in st.channels
    ensures var after := Register(st, q);
      && after.lineup == st.lineup && after.txids == st.txids && after.pendingUdp == st.pendingUdp
      && after.nextQuery == st.nextQuery + 1 && after.nextLocal == st.nextLocal && after.clock == st.clock
      && after.tcpTasks == st.tcpTasks && after.pendings == st.pendings && after.asked == st.asked
  {
  }

  /** Ask comes to just this. */
  function Sent(st: State, id: uint16, question: Question, a: Attempt): State
    requires var s := Prepared(st, id, question);
      Smooth(s, a) && ChannelFor(s, a).value.fd in Equipped(s, a).channels
  {
    var s := Prepared(st, id, question);
    Register(Equipped(s, a), NewQuery(s, st.nextLocal, question, a))
  }

  lemma {:induction false} PlainAsk(st: State, cfg: Config, id: uint16, question: Question, a: Attempt)
    requires Tables(st) && PendingKey(question) !in st.pendingUdp && Smooth(st, a)
    requires TaskCount(st) < cfg.maxTasks && Usable(st, cfg, [a]) == [a]
    ensures var after := Ask(st, cfg, id, question, [a], false);
      var c := ChannelFor(st, a).value;
      && c.fd in Equipped(st, a).channels && c.fd in c.channels
      && after == Sent(st, id, question, a)
      && Tables(after) && Live(after) == Live(st) + {st.nextQuery}
      && after.queries == st.queries[st.nextQuery := NewQuery(st, st.nextLocal, question, a)]
      && |after.byLocal| == |st.byLocal| + 1
      && after.channels == c.channels[c.fd := Channel(c.channels[c.fd].endpoint, c.channels[c.fd].active + 1)]
  {
    hide Tables, Live, RandomizeCase, PendingKey, Usable, Register, ForwardAll, Siblings, UseChannel, Draw;
    var s := Prepared(st, id, question);
    TablesFrame(st, s);
    TablesHaveSameLive(st, s);
    EquippedKeepsTables(s, a);
    SmoothForward(s, cfg, st.nextLocal, question, a);
    RegisteredState(Equipped(s, a), NewQuery(s, st.nextLocal, question, a));
    InSiblings(Sent(st, id, question, a), st.nextQuery, st.nextLocal);
    AskOpensIt(st, cfg, id, question, a);
  }

  /** What else has changed. */
  lemma {:induction false} PlainAskFrame(st: State, id: uint16, question: Question, a: Attempt)
    requires Smooth(st, a) && ChannelFor(st, a).value.fd in Equipped(st, a).channels
    ensures var after := Sent(st, id, question, a);
      && after.lineup == ChannelFor(st, a).value.lineup
      && after.txids == st.txids[Txid(a.endpoint.address, Draw(a.draws, 0)) := st.clock]
      && after.pendingUdp == st.pendingUdp[PendingKey(question) := st.nextLocal]
      && after.nextQuery == st.nextQuery + 1 && after.nextLocal == st.nextLocal + 1
      && after.clock == st.clock && after.tcpTasks == st.tcpTasks
      && after.pendings == st.pendings[st.nextLocal :=
           Pending(PendingKey(question), [Waiter(|st.asked|, id, question.name)])]
      && after.asked == st.asked + [Asked(id, question)]
  {
    hide PendingKey, Register, UseChannel, Draw, RandomizeCase;
    var s := Prepared(st, id, question);
    RegisterFrame(Equipped(s, a), NewQuery(s, st.nextLocal, question, a));
  }

  lemma {:induction false} InSiblings(st: State, q: nat, p: nat)
    requires q in Live(st) && q in st.queries && st.queries[q].local == p
    ensures Siblings(st, p) != {}
  {
    assert q in Siblings(st, p);
  }

  lemma {:induction false} AskOpensIt(st: State, cfg: Config, id: uint16, question: Question, a: Attempt)
    requires PendingKey(question) !in st.pendingUdp && Usable(st, cfg, [a]) == [a]
    requires var sent := ForwardAll(Prepared(st, id, question), cfg, st.nextLocal, question, [a]);
      Siblings(sent, st.nextLocal) != {}
    ensures Ask(st, cfg, id, question, [a], false) ==
            ForwardAll(Prepared(st, id, question), cfg, st.nextLocal, question, [a])
  {
    hide ForwardAll, Siblings, PendingKey, Usable;
  }

  // ----- A transaction id that is given away -----

  const EXAMPLE_CONFIG := Config(10, 1, 100)
  const UPSTREAM := Endpoint(1, 53)

  function LetterQuestion(n: nat): Question
    requires n <= 4
  {
    Question([97 + n], 1, 1)
  }

  /** Should a new socket be opened, it is number 5 + n; the id drawn is 7 + n. */
  function LetterAttempt(n: nat): Attempt
    requires n <= 4
  {
    Attempt(UPSTREAM, Some(5 + n), [], [7 + n], true)
  }

  function LetterAsk(n: nat): Event
    requires n <= 4
  {
    AskEvent(1, LetterQuestion(n), [LetterAttempt(n)], false)
  }

  const FIRST_FOUR: seq<Event> := [LetterAsk(0), LetterAsk(1), LetterAsk(2), LetterAsk(3)]

  /** A time-out phase visits all four queries; the sweep is the next phase, a hundred milliseconds later. */
  const TIME_OUT_PHASE: seq<Event> := [
    TimePasses(99), ExpireEvent(0, []), ExpireEvent(1, []), ExpireEvent(2, []), ExpireEvent(3, [])]
  const SWEEP_PHASE: seq<Event> := [TimePasses(100), SweepEvent]

  const FIFTH: Event := AskEvent(2, LetterQuestion(4), [LetterAttempt(0)], false)

  const EXAMPLE_RUN := FIRST_FOUR + (TIME_OUT_PHASE + SWEEP_PHASE) + [FIFTH]

  /** The first n questions are out, each on its own channel. */
  ghost predicate LettersOut(st: State, n: nat)
    requires n <= 4
  {
    && Tables(st) && st.nextQuery == n && st.nextLocal == n && |st.byLocal| == n && st.tcpTasks == 0
    && st.lineup == [5, 6, 7, 8][..n]
    && (forall fd :: fd in st.channels <==> 5 <= fd < 5 + n)
    && (forall fd :: fd in st.channels ==> st.channels[fd] == Channel(UPSTREAM, 1))
    && (forall i :: 0 <= i < n ==> i in Live(st) && i in st.queries && st.queries[i].timestamp == 0)
    && (forall i :: 0 <= i < n ==> KeyOf(st.queries[i]) == (5 + i, 7 + i))
    && (forall k :: k in st.pendingUdp ==> exists i :: 0 <= i < n && k == PendingKey(LetterQuestion(i)))
  }

  /** And that was at time zero. */
  ghost predicate JustOut(st: State, n: nat)
    requires n <= 4
  {
    && LettersOut(st, n) && st.clock == 0
    && (forall t :: t in st.txids ==> st.txids[t] == 0 && t.id < 7 + n)
  }

  lemma {:induction false} LettersDiffer(i: nat, j: nat)
    requires i < j <= 4
    ensures PendingKey(LetterQuestion(i)) != PendingKey(LetterQuestion(j))
  {
    hide PendingKey;
    PendingKeyInjective(LetterQuestion(i), LetterQuestion(j));
    assert Lower([97 + i])[0] != Lower([97 + j])[0];
  }

  lemma {:induction false} LetterIsNew(st: State, n: nat)
    requires n <= 4 && LettersOut(st, n)
    ensures PendingKey(LetterQuestion(n)) !in st.pendingUdp
  {
    hide PendingKey, Tables, Live;
    forall i | 0 <= i < n ensures PendingKey(LetterQuestion(i)) != PendingKey(LetterQuestion(n)) {
      LettersDiffer(i, n);
    }
  }

  lemma {:induction false} AllServe(channels: map<nat, Channel>, lineup: seq<nat>, endpoint: Endpoint)
    requires forall i :: 0 <= i < |lineup| ==> Serves(channels, lineup[i], endpoint)
    ensures Serving(channels, lineup, endpoint) == |lineup|
    decreases |lineup|
  {
    if lineup != [] {
      AllServe(channels, lineup[..|lineup| - 1], endpoint);
    }
  }

  /** Below four channels a new socket is used. */
  lemma {:induction false} LetterChannel(st: State, n: nat)
    requires n < 4 && LettersOut(st, n)
    ensures ChannelFor(st, LetterAttempt(n)) ==
            Some(Chosen(5 + n, st.channels[5 + n := Channel(UPSTREAM, 0)], st.lineup + [5 + n]))
  {
    hide Tables, Live, PendingKey;
    AllServe(st.channels, st.lineup, UPSTREAM);
  }

  /** With four channels that are equally active the first is used again. */
  lemma {:induction false} FifthChannel(st: State)
    requires LettersOut(st, 4)
    ensures ChannelFor(st, LetterAttempt(0)) == Some(Chosen(5, st.channels, st.lineup))
  {
    hide Tables, Live, PendingKey, LeastActive;
    AllServe(st.channels, st.lineup, UPSTREAM);
    LeastActiveExactly(st.channels, st.lineup, UPSTREAM);
    assert FirstLeast(st.channels, st.lineup, UPSTREAM, 0);
  }

  /** What the n-th question leaves, channel by channel and table by table. */
  predicate Grown(st: State, after: State, n: nat)
    requires n < 4
  {
    && Tables(after) && Live(after) == Live(st) + {n} && |after.byLocal| == n + 1
    && after.queries.Keys == st.queries.Keys + {n} && after.queries == st.queries[n := after.queries[n]]
    && after.queries[n].timestamp == 0 && KeyOf(after.queries[n]) == (5 + n, 7 + n)
    && after.channels == st.channels[5 + n := Channel(UPSTREAM, 1)] && after.lineup == st.lineup + [5 + n]
    && after.txids == st.txids[Txid(1, 7 + n) := 0]
    && after.pendingUdp == st.pendingUdp[PendingKey(LetterQuestion(n)) := n]
    && after.nextQuery == n + 1 && after.nextLocal == n + 1 && after.clock == 0 && after.tcpTasks == 0
  }

  lemma {:induction false} LetterGrows(st: State, n: nat)
    requires n < 4 && JustOut(st, n)
    ensures Grown(st, Step(st, EXAMPLE_CONFIG, LetterAsk(n)), n)
  {
    hide Tables, Live, PendingKey, RandomizeCase, Ask, UseChannel, LetterQuestion, Sent;
    LetterIsNew(st, n);
    LetterChannel(st, n);
    PlainAsk(st, EXAMPLE_CONFIG, 1, LetterQuestion(n), LetterAttempt(n));
    PlainAskFrame(st, 1, LetterQuestion(n), LetterAttempt(n));
  }

  lemma {:induction false} AskLetter(st: State, n: nat)
    requires n < 4 && JustOut(st, n)
    ensures JustOut(Step(st, EXAMPLE_CONFIG, LetterAsk(n)), n + 1)
  {
    hide Grown, JustOut, Step;
    LetterGrows(st, n);
    GrownIsOut(st, Step(st, EXAMPLE_CONFIG, LetterAsk(n)), n);
  }

  lemma {:induction false} GrownIsOut(st: State, after: State, n: nat)
    requires n < 4 && JustOut(st, n) && Grown(st, after, n)
    ensures JustOut(after, n + 1)
  {
    hide Tables, Live, PendingKey, LetterQuestion, KeyOf;
    LiveIsKnown(st);
    assert [5, 6, 7, 8][..n] + [5 + n] == [5, 6, 7, 8][..n + 1];
    GrownEntries(st, after, n);
    GrownChannels(st.channels, after.channels, n);
  }

  lemma {:induction false} GrownChannels(before: map<nat, Channel>, after: map<nat, Channel>, n: nat)
    requires n < 4 && after == before[5 + n := Channel(UPSTREAM, 1)]
    requires forall fd :: fd in before <==> 5 <= fd < 5 + n
    requires forall fd :: fd in before ==> before[fd] == Channel(UPSTREAM, 1)
    ensures forall fd :: fd in after <==> 5 <= fd < 5 + (n + 1)
    ensures forall fd :: fd in after ==> after[fd] == Channel(UPSTREAM, 1)
  {
  }

  lemma {:induction false} GrownEntries(st: State, after: State, n: nat)
    requires n < 4 && after.pendingUdp == st.pendingUdp[PendingKey(LetterQuestion(n)) := n]
    requires forall k :: k in st.pendingUdp ==> exists i :: 0 <= i < n && k == PendingKey(LetterQuestion(i))
    ensures forall k :: k in after.pendingUdp ==> exists i :: 0 <= i < n + 1 && k == PendingKey(LetterQuestion(i))
  {
    hide PendingKey, LetterQuestion;
  }

  lemma {:induction false} FourLettersOut()
    ensures JustOut(Run(INITIAL, EXAMPLE_CONFIG, FIRST_FOUR), 4)
  {
    hide Tables, Live, PendingKey, Step, LetterAsk;
    InitialTables();
    assert [5, 6, 7, 8][..0] == [];
    var s1 := Step(INITIAL, EXAMPLE_CONFIG, LetterAsk(0));
    var s2 := Step(s1, EXAMPLE_CONFIG, LetterAsk(1));
    var s3 := Step(s2, EXAMPLE_CONFIG, LetterAsk(2));
    AskLetter(INITIAL, 0);
    AskLetter(s1, 1);
    AskLetter(s2, 2);
    AskLetter(s3, 3);
    RunOfFour(INITIAL, EXAMPLE_CONFIG, FIRST_FOUR);
  }

  lemma {:induction false} InitialTables()
    ensures Tables(INITIAL)
  {
    assert Live(INITIAL) == {};
  }

  lemma {:induction false} TooYoung(st: State, cfg: Config, q: nat)
    requires q in st.queries && st.clock - st.queries[q].timestamp < cfg.timeoutMs
    ensures Step(st, cfg, ExpireEvent(q, [])) == st
  {
    hide Live;
  }

  /** The time-out phase finds the queries one millisecond too young. */
  lemma {:induction false} NoneTimesOut(st: State)
    requires st.clock == 0 && (forall i :: 0 <= i < 4 ==> i in st.queries && st.queries[i].timestamp == 0)
    ensures Run(st, EXAMPLE_CONFIG, TIME_OUT_PHASE) == st.(clock := 99)
  {
    hide Expire, Step;
    var later := st.(clock := 99);
    ClockSteps(st, EXAMPLE_CONFIG, 99);
    TooYoung(later, EXAMPLE_CONFIG, 0);
    TooYoung(later, EXAMPLE_CONFIG, 1);
    TooYoung(later, EXAMPLE_CONFIG, 2);
    TooYoung(later, EXAMPLE_CONFIG, 3);
    RunOfFour(st, EXAMPLE_CONFIG, TIME_OUT_PHASE[..4]);
    RunOfOne(later, EXAMPLE_CONFIG, ExpireEvent(3, []));
    RunSplits(st, EXAMPLE_CONFIG, TIME_OUT_PHASE[..4], [ExpireEvent(3, [])]);
    assert TIME_OUT_PHASE[..4] + [ExpireEvent(3, [])] == TIME_OUT_PHASE;
  }

  /** The sweep finds all their ids old enough. */
  lemma {:induction false} AllAreSwept(st: State)
    requires st.clock == 99 && forall t :: t in st.txids ==> st.txids[t] == 0
    ensures Run(st, EXAMPLE_CONFIG, SWEEP_PHASE) == st.(clock := 199, txids := map[])
  {
    hide Step;
    ClockSteps(st, EXAMPLE_CONFIG, 100);
    SweepsAll(st.(clock := 199), EXAMPLE_CONFIG);
    RunOfTwo(st, EXAMPLE_CONFIG, SWEEP_PHASE);
  }

  lemma {:induction false} IdsAgeOut(st: State)
    requires JustOut(st, 4)
    ensures Run(st, EXAMPLE_CONFIG, TIME_OUT_PHASE + SWEEP_PHASE) == st.(clock := 199, txids := map[])
    ensures LettersOut(st.(clock := 199, txids := map[]), 4)
  {
    hide Tables, Live, PendingKey, Run;
    NoneTimesOut(st);
    AllAreSwept(st.(clock := 99));
    RunSplits(st, EXAMPLE_CONFIG, TIME_OUT_PHASE, SWEEP_PHASE);
    TablesFrame(st, st.(clock := 199, txids := map[]));
    TablesHaveSameLive(st, st.(clock := 199, txids := map[]));
  }

  lemma {:induction false} ClockSteps(st: State, cfg: Config, elapsed: nat)
    ensures Step(st, cfg, TimePasses(elapsed)) == st.(clock := st.clock + elapsed)
  {
  }

  lemma {:induction false} SweepsAll(st: State, cfg: Config)
    requires forall t :: t in st.txids ==> st.clock - st.txids[t] >= cfg.timeoutMs
    ensures Step(st, cfg, SweepEvent) == st.(txids := map[])
  {
    assert Young(st.txids, st.clock, cfg.timeoutMs) == map[];
  }

  lemma {:induction false} FifthIsConfused(st: State)
    requires LettersOut(st, 4) && st.txids == map[]
    ensures var after := Step(st, EXAMPLE_CONFIG, FIFTH);
      && 0 in Live(after) && 4 in Live(after) && 0 in after.queries && 4 in after.queries
      && KeyOf(after.queries[0]) == (5, 7) && KeyOf(after.queries[4]) == (5, 7)
  {
    hide Tables, Live, PendingKey, RandomizeCase, Ask, UseChannel, LetterQuestion, Sent;
    LetterIsNew(st, 4);
    FifthChannel(st);
    PlainAsk(st, EXAMPLE_CONFIG, 2, LetterQuestion(4), LetterAttempt(0));
  }

  /**
    * A query can outlive its transaction id: four questions to one forwarder take its four channels, the
    * time-out phase finds them one millisecond too young, the sweep, the next phase, finds their ids old
    * enough, and the fifth question gets the first one's channel and id while the first is still live.
    */
  lemma {:induction false} SweepCanConfuseQueries()
    ensures var st := Run(INITIAL, EXAMPLE_CONFIG, EXAMPLE_RUN);
      && 0 in Live(st) && 4 in Live(st) && 0 in st.queries && 4 in st.queries
      && KeyOf(st.queries[0]) == KeyOf(st.queries[4])
  {
    hide LettersOut, Live, Step, Run;
    var four := Run(INITIAL, EXAMPLE_CONFIG, FIRST_FOUR);
    FourLettersOut();
    IdsAgeOut(four);
    RunSplits(INITIAL, EXAMPLE_CONFIG, FIRST_FOUR, TIME_OUT_PHASE + SWEEP_PHASE);
    var aged := Run(INITIAL, EXAMPLE_CONFIG, FIRST_FOUR + (TIME_OUT_PHASE + SWEEP_PHASE));
    RunSplits(INITIAL, EXAMPLE_CONFIG, FIRST_FOUR + (TIME_OUT_PHASE + SWEEP_PHASE), [FIFTH]);
    RunOfOne(aged, EXAMPLE_CONFIG, FIFTH);
    FifthIsConfused(aged);
  }

  // ----- Unrolling runs -----

  lemma {:induction false} RunSplits(st: State, cfg: Config, first: seq<Event>, second: seq<Event>)
    ensures Run(st, cfg, first + second) == Run(Run(st, cfg, first), cfg, second)
    decreases |first|
  {
    hide Step;
    if first == [] {
      assert first + second == second;
    } else {
      assert (first + second)[1..] == first[1..] + second;
      RunSplits(Step(st, cfg, first[0]), cfg, first[1..], second);
    }
  }

  lemma {:induction false} RunOfOne(st: State, cfg: Config, e: Event)
    ensures Run(st, cfg, [e]) == Step(st, cfg, e)
  {
    hide Step;
    assert [e][1..] == [];
  }

  lemma {:induction false} RunOfThree(st: State, cfg: Config, e: seq<Event>)
    requires |e| == 3
    ensures Run(st, cfg, e) == Step(Step(Step(st, cfg, e[0]), cfg, e[1]), cfg, e[2])
  {
    hide Step;
    var s := Step(st, cfg, e[0]);
    RunOfTwo(s, cfg, e[1..]);
    assert e[1..][0] == e[1] && e[1..][1] == e[2];
  }

  lemma {:induction false} RunOfFour(st: State, cfg: Config, e: seq<Event>)
    requires |e| == 4
    ensures Run(st, cfg, e) == Step(Step(Step(Step(st, cfg, e[0]), cfg, e[1]), cfg, e[2]), cfg, e[3])
  {
    hide Step;
    var s := Step(st, cfg, e[0]);
    RunOfThree(s, cfg, e[1..]);
    assert e[1..][0] == e[1] && e[1..][1] == e[2] && e[1..][2] == e[3];
  }

  // ----- A client that is dropped -----

  const REPLY := Upstream(7, 0x8000, [LetterQuestion(0)])
  const UNSENT_RUN: seq<Event> := [LetterAsk(0), ReceiveEvent(5, REPLY, 0, [], false, [false])]

  lemma {:induction false} SameSpelling()
    ensures RandomizeCase(LetterQuestion(0).name, []) == LetterQuestion(0).name
  {
    assert RandomizeCase([97], [])[0] == 97;
  }

  const ONE_QUERY := Query(0, 7, 5, Endpoint(1, 53), 1, 1, [97], [97], true, 0)

  lemma {:induction false} OneQueryIs()
    ensures Smooth(INITIAL, LetterAttempt(0)) && NewQuery(INITIAL, 0, LetterQuestion(0), LetterAttempt(0)) == ONE_QUERY
    ensures Usable(INITIAL, EXAMPLE_CONFIG, [LetterAttempt(0)]) == [LetterAttempt(0)]
  {
    SameSpelling();
  }

  /** The state after the client's question has gone out. */
  function OneAsked(): State {
    Ask(INITIAL, EXAMPLE_CONFIG, 1, LetterQuestion(0), [LetterAttempt(0)], false)
  }

  lemma {:induction false} FirstStep()
    ensures Step(INITIAL, EXAMPLE_CONFIG, UNSENT_RUN[0]) == OneAsked()
  {
    hide Ask;
  }

  lemma {:induction false} OneAskedQueries()
    ensures Live(OneAsked()) == {0} && OneAsked().queries == map[0 := ONE_QUERY]
  {
    hide Tables, PendingKey, Live, Ask, Smooth, NewQuery, UseChannel, Usable, Equipped, Prepared, Sent;
    InitialTables();
    OneQueryIs();
    PlainAsk(INITIAL, EXAMPLE_CONFIG, 1, LetterQuestion(0), LetterAttempt(0));
    NobodyLive();
  }

  lemma {:induction false} OneAskedWaiters()
    ensures OneAsked().pendings == map[0 := Pending(PendingKey(LetterQuestion(0)), [Waiter(0, 1, [97])])]
    ensures |OneAsked().asked| == 1
  {
    hide Tables, PendingKey, Live, Ask, UseChannel, Usable, RandomizeCase;
    InitialTables();
    OneQueryIs();
    PlainAsk(INITIAL, EXAMPLE_CONFIG, 1, LetterQuestion(0), LetterAttempt(0));
  }

  /** One client asks, one forwarder is asked, and its answer matches. */
  lemma {:induction false} OneAskState(st: State)
    requires st == Step(INITIAL, EXAMPLE_CONFIG, UNSENT_RUN[0])
    ensures Live(st) == {0} && 0 in st.queries && st.queries[0].local == 0 && KeyOf(st.queries[0]) == (5, 7)
    ensures Matches(st.queries[0], REPLY)
    ensures WaitersOf(st, 0) == [Waiter(0, 1, LetterQuestion(0).name)] && |st.asked| == 1
  {
    hide PendingKey, Live, OneAsked, Step;
    FirstStep();
    OneAskedQueries();
    OneAskedWaiters();
  }

  lemma {:induction false} NobodyLive()
    ensures Live(INITIAL) == {}
  {
  }

  lemma {:induction false} RunOfTwo(st: State, cfg: Config, e: seq<Event>)
    requires |e| == 2
    ensures Run(st, cfg, e) == Step(Step(st, cfg, e[0]), cfg, e[1])
    ensures Run(st, cfg, [e[0]]) == Step(st, cfg, e[0])
  {
    hide Step;
    assert e[1..][1..] == [] && [e[0]][1..] == [];
    assert Run(Step(st, cfg, e[0]), cfg, e[1..]) == Step(Step(st, cfg, e[0]), cfg, e[1]);
  }

  lemma {:induction false} ReceivesFirst(st: State)
    requires Tables(st) && 0 in Live(st) && 0 in st.queries && KeyOf(st.queries[0]) == (5, 7) &&
            Matches(st.queries[0], REPLY)
    ensures Receive(st, 5, REPLY, 0, [], false, [false]) == Deliver(st, 0, [false])
  {
    hide Deliver, Matches, Live;
    assert (KeyOf(st.queries[0]), 0) in SocketEntries(st.queries, Live(st));
  }

  /**
    * A client can be dropped without an answer: the only answer there is cannot be sent to it, and
    * afterwards it has neither been answered nor does it wait for anything.
    */
  lemma {:induction false} ClientsCanBeDropped()
    ensures var st := Run(INITIAL, EXAMPLE_CONFIG, UNSENT_RUN);
      |st.asked| == 1 && !Answered(st.log, 0) && !Waiting(st, 0)
  {
    hide Tables, Coalescing, Replies, SameQuestion, PendingKey, Live, Ask, Deliver, Receive, Matches, Answered, Waiting,
         Siblings, WaitersOf;
    var s := Step(INITIAL, EXAMPLE_CONFIG, UNSENT_RUN[0]);
    RunOfTwo(INITIAL, EXAMPLE_CONFIG, UNSENT_RUN);
    InvariantHolds(EXAMPLE_CONFIG, [UNSENT_RUN[0]]);
    OneAskState(s);
    ReceivesFirst(s);
    DeliverOutcome(s, 0, [false], 0);
    OnlySibling(s);
    DeliverKeepsAsked(s, 0, [false]);
  }

  lemma {:induction false} OnlySibling(st: State)
    requires Live(st) == {0} && 0 in st.queries && st.queries[0].local == 0
    ensures Siblings(st, 0) == {0}
  {
    hide Live;
  }

  lemma {:induction false} DeliverKeepsAsked(st: State, q: nat, sends: seq<bool>)
    requires q in st.queries
    ensures Deliver(st, q, sends).asked == st.asked
  {
  }
}
