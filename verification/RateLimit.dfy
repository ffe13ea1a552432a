/** The two-level token bucket in front of both listeners. */
module RateLimit {
  import opened Bytes

  datatype Config = Config(qps: nat, burst: nat, maxTasks: nat)

  datatype Bucket = Bucket(tokens: real, updated: nat, lastSeen: nat)

  /** The client's key is its address in text; it is empty when there is none. */
  datatype State = State(global: Bucket, clients: map<string, Bucket>, lastCleanup: nat)

  datatype Verdict = Accepted | NoAddress | GlobalEmpty | TableFull | ClientEmpty

  datatype Outcome = Outcome(state: State, verdict: Verdict)

  const STALE_AFTER := 60000
  const CLEANUP_INTERVAL := 1000

  function MaximumClients(c: Config): nat {
    Max(1024, c.maxTasks * 4)
  }

  function Least(a: real, b: real): real {
    if a < b then a else b
  }

  function Refill(c: Config, b: Bucket, now: nat): Bucket {
    var b1 := if now > b.updated
              then b.(tokens := Least(c.burst as real, b.tokens + (now - b.updated) as real / 1000.0 * c.qps as real),
                      updated := now)
              else b;
    b1.(lastSeen := now)
  }

  function Spend(b: Bucket): Bucket {
    b.(tokens := b.tokens - 1.0)
  }

  predicate Stale(b: Bucket, now: nat) {
    now - b.lastSeen > STALE_AFTER
  }

  function WithoutStale(clients: map<string, Bucket>, now: nat): map<string, Bucket> {
    map key | key in clients && !Stale(clients[key], now) :: clients[key]
  }

  predicate Crowded(c: Config, s: State, key: string) {
    |s.clients| >= MaximumClients(c) && key !in s.clients
  }

  function Cleaned(s: State, now: nat): State {
    if now - s.lastCleanup >= CLEANUP_INTERVAL
    then s.(lastCleanup := now, clients := WithoutStale(s.clients, now)) else s
  }

  function Admit(c: Config, s: State, key: string, now: nat): Outcome {
    var client := Refill(c, if key in s.clients then s.clients[key] else Bucket(c.burst as real, now, now), now);
    if client.tokens < 1.0 then Outcome(s.(clients := s.clients[key := client]), ClientEmpty)
    else Outcome(s.(global := Spend(s.global), clients := s.clients[key := Spend(client)]), Accepted)
  }

  function Consume(c: Config, s: State, key: string, now: nat): Outcome {
    if key == "" then Outcome(s, NoAddress)
    else
      var s1 := s.(global := Refill(c, s.global, now));
      if s1.global.tokens < 1.0 then Outcome(s1, GlobalEmpty)
      else
        var s2 := if Crowded(c, s1, key) then Cleaned(s1, now) else s1;
        if Crowded(c, s2, key) then Outcome(s2, TableFull)
        else Admit(c, s2, key, now)
  }

  // ----- Runs -----

  datatype Query = Query(key: string, now: nat)

  function Start(c: Config, now: nat): State {
    State(Bucket(c.burst as real, now, now), map[], 0)
  }

  /** The clock does not run backwards. */
  ghost predicate IsRun(c: Config, start: nat, states: seq<State>, queries: seq<Query>) {
    && |states| == |queries| + 1 && states[0] == Start(c, start)
    && (forall i :: 0 <= i < |queries| ==> states[i + 1] == Consume(c, states[i], queries[i].key, queries[i].now).state)
    && (forall i :: 0 <= i < |queries| ==> start <= queries[i].now)
    && (forall i, j :: 0 <= i < j < |queries| ==> queries[i].now <= queries[j].now)
  }

  predicate Passes(c: Config, s: State, q: Query) {
    Consume(c, s, q.key, q.now).verdict == Accepted
  }

  function AcceptedIn(c: Config, states: seq<State>, queries: seq<Query>, i: nat, j: nat): nat
    requires i <= j <= |queries| < |states|
  {
    if i == j then 0 else
      AcceptedIn(c, states, queries, i, j - 1) + if Passes(c, states[j - 1], queries[j - 1]) then 1 else 0
  }

  // ----- What a bucket is worth -----

  /** What a bucket would hold at some time. */
  function Worth(c: Config, b: Bucket, t: nat): real {
    Refill(c, b, t).tokens
  }

  predicate Sound(c: Config, b: Bucket, now: nat) {
    0.0 <= b.tokens <= c.burst as real && b.updated <= now
  }

  ghost predicate Inv(c: Config, s: State, now: nat) {
    && Sound(c, s.global, now)
    && (forall key :: key in s.clients ==> Sound(c, s.clients[key], now) && Dominates(c, s.clients[key], s.global, now))
    && |s.clients| <= MaximumClients(c)
  }

  /** From now on, whenever one looks, the first bucket is worth at least as much as the second. */
  ghost predicate Dominates(c: Config, a: Bucket, b: Bucket, now: nat) {
    Worth(c, a, now) >= Worth(c, b, now)
  }

  lemma {:induction false} WorthLater(c: Config, b: Bucket, t1: nat, t2: nat)
    requires b.updated <= t1 <= t2 && b.tokens <= c.burst as real
    ensures Worth(c, b, t2) == Least(c.burst as real, Worth(c, b, t1) + (t2 - t1) as real / 1000.0 * c.qps as real)
    ensures Worth(c, b, t1) <= Worth(c, b, t2)
  {
    var q := c.qps as real;
    var e1, e2, d := (t1 - b.updated) as real / 1000.0, (t2 - b.updated) as real / 1000.0, (t2 - t1) as real / 1000.0;
    assert (t2 - b.updated) as real == (t1 - b.updated) as real + (t2 - t1) as real;
    assert e2 == e1 + d;
    assert e2 * q == e1 * q + d * q;
    assert e1 * q >= 0.0 && d * q >= 0.0;
    assert Worth(c, b, t1) == Least(c.burst as real, b.tokens + e1 * q);
    assert Worth(c, b, t2) == Least(c.burst as real, b.tokens + e2 * q);
  }

  lemma {:induction false} RefillKeepsWorth(c: Config, b: Bucket, now: nat)
    requires Sound(c, b, now)
    ensures Sound(c, Refill(c, b, now), now)
    ensures Refill(c, b, now).tokens == Worth(c, Refill(c, b, now), now) == Worth(c, b, now)
  {
    if now > b.updated {
      assert (now - b.updated) as real / 1000.0 * c.qps as real >= 0.0;
    }
  }

  lemma {:induction false} LaterInv(c: Config, s: State, t1: nat, t2: nat)
    requires Inv(c, s, t1) && t1 <= t2
    ensures Inv(c, s, t2)
  {
    hide Worth, Least;
    WorthLater(c, s.global, t1, t2);
    forall key | key in s.clients ensures Dominates(c, s.clients[key], s.global, t2) {
      WorthLater(c, s.clients[key], t1, t2);
      LeastIsMonotone(c.burst as real, Worth(c, s.global, t1), Worth(c, s.clients[key], t1),
          (t2 - t1) as real / 1000.0 * c.qps as real);
    }
  }

  lemma {:induction false} LeastIsMonotone(limit: real, a: real, b: real, d: real)
    requires a <= b
    ensures Least(limit, a + d) <= Least(limit, b + d)
  {
  }

  lemma {:induction false} FewerKeys(clients: map<string, Bucket>, now: nat)
    ensures |WithoutStale(clients, now)| <= |clients|
  {
    SubsetIsSmaller(WithoutStale(clients, now).Keys, clients.Keys);
  }

  /**
    * Every step keeps each bucket between empty and full, the table within its size, and every
    * client's bucket at least as full as the global one.
    */
  lemma {:induction false} StepKeepsInvariant(c: Config, s: State, key: string, now: nat)
    requires Inv(c, s, now)
    ensures Inv(c, Consume(c, s, key, now).state, now)
    ensures Consume(c, s, key, now).verdict != ClientEmpty
    ensures Consume(c, s, key, now).verdict == Accepted <==>
              key != "" && Worth(c, s.global, now) >= 1.0
              && !(Crowded(c, s, key) && Crowded(c, Cleaned(s, now), key))
    ensures Worth(c, Consume(c, s, key, now).state.global, now)
            == Worth(c, s.global, now) - if Consume(c, s, key, now).verdict == Accepted then 1.0 else 0.0
  {
    var s1 := s.(global := Refill(c, s.global, now));
    if key != "" && s1.global.tokens >= 1.0 {
      RefillKeeps(c, s, now);
      CleanKeeps(c, s1, now);
      var s2 := if Crowded(c, s1, key) then Cleaned(s1, now) else s1;
      if !Crowded(c, s2, key) {
        AdmitKeeps(c, s2, key, now);
      }
    } else {
      RefillKeeps(c, s, now);
    }
  }

  lemma {:induction false} RefillKeeps(c: Config, s: State, now: nat)
    requires Inv(c, s, now)
    ensures Inv(c, s.(global := Refill(c, s.global, now)), now)
    ensures Refill(c, s.global, now).tokens == Worth(c, s.global, now) == Worth(c, Refill(c, s.global, now), now)
    ensures Refill(c, s.global, now).updated == now
  {
    RefillKeepsWorth(c, s.global, now);
  }

  lemma {:induction false} CleanKeeps(c: Config, s: State, now: nat)
    requires Inv(c, s, now)
    ensures Inv(c, Cleaned(s, now), now) && Cleaned(s, now).global == s.global
  {
    FewerKeys(s.clients, now);
  }

  lemma {:induction false} AdmitKeeps(c: Config, s: State, key: string, now: nat)
    requires Inv(c, s, now) && !Crowded(c, s, key)
    requires s.global.tokens >= 1.0 && s.global.updated == now
    ensures Inv(c, Admit(c, s, key, now).state, now)
    ensures Admit(c, s, key, now).verdict == Accepted
    ensures Worth(c, Admit(c, s, key, now).state.global, now) == s.global.tokens - 1.0
  {
    var b := if key in s.clients then s.clients[key] else Bucket(c.burst as real, now, now);
    var r := Admit(c, s, key, now).state;
    RefillKeepsWorth(c, b, now);
    SpentWorth(c, s.global, now);
    SpentWorth(c, Refill(c, b, now), now);
    assert r.clients.Keys == s.clients.Keys + {key};
    forall k | k in r.clients ensures Sound(c, r.clients[k], now) && Dominates(c, r.clients[k], r.global, now) {}
  }

  lemma {:induction false} SpentWorth(c: Config, b: Bucket, now: nat)
    requires Sound(c, b, now) && b.updated == now
    ensures b.tokens >= 1.0 ==> Sound(c, Spend(b), now)
    ensures Worth(c, Spend(b), now) == b.tokens - 1.0
  {
  }

  // ----- Every run -----

  lemma {:induction false} RunKeepsInvariant(c: Config, start: nat, states: seq<State>, queries: seq<Query>, i: nat)
    requires IsRun(c, start, states, queries) && i < |states|
    ensures Inv(c, states[i], if i == 0 then start else queries[i - 1].now)
  {
    hide Inv, Consume;
    if i == 0 {
      StartHolds(c, start);
    } else {
      var q := queries[i - 1];
      RunKeepsInvariant(c, start, states, queries, i - 1);
      LaterInv(c, states[i - 1], if i == 1 then start else queries[i - 2].now, q.now);
      StepKeepsInvariant(c, states[i - 1], q.key, q.now);
    }
  }

  lemma {:induction false} StartHolds(c: Config, start: nat)
    ensures Inv(c, Start(c, start), start)
  {
  }

  /** A query meets the invariant at its own time. */
  lemma {:induction false} InvAtQuery(c: Config, start: nat, states: seq<State>, queries: seq<Query>, i: nat)
    requires IsRun(c, start, states, queries) && i < |queries|
    ensures Inv(c, states[i], queries[i].now)
  {
    hide Inv, Consume;
    RunKeepsInvariant(c, start, states, queries, i);
    LaterInv(c, states[i], if i == 0 then start else queries[i - 1].now, queries[i].now);
  }

  /**
    * No query is ever refused because of its client's own bucket: with the same rate and burst for
    * both, and every query spending from the global one, that can never be the emptier of the two.
    */
  lemma {:induction false} ClientBucketNeverRefuses(c: Config, start: nat, states: seq<State>, queries: seq<Query>,
                                                    i: nat)
    requires IsRun(c, start, states, queries) && i < |queries|
    ensures Consume(c, states[i], queries[i].key, queries[i].now).verdict != ClientEmpty
  {
    hide Inv, Consume;
    InvAtQuery(c, start, states, queries, i);
    StepKeepsInvariant(c, states[i], queries[i].key, queries[i].now);
  }

  /** What the global bucket is worth goes down by one for each query accepted, and up by the rate at most. */
  lemma {:induction false} WorthFalls(c: Config, start: nat, states: seq<State>, queries: seq<Query>, i: nat, j: nat)
    requires IsRun(c, start, states, queries) && i < j <= |queries|
    ensures AcceptedIn(c, states, queries, i, j) as real + Worth(c, states[j].global, queries[j - 1].now)
            <= Worth(c, states[i].global, queries[i].now)
               + (queries[j - 1].now - queries[i].now) as real / 1000.0 * c.qps as real
  {
    hide Inv, Consume, Worth;
    var last := queries[j - 1];
    InvAtQuery(c, start, states, queries, j - 1);
    StepKeepsInvariant(c, states[j - 1], last.key, last.now);
    if i + 1 < j {
      WorthFalls(c, start, states, queries, i, j - 1);
      RunKeepsInvariant(c, start, states, queries, j - 1);
      var t1, q := queries[j - 2].now, c.qps as real;
      InvSound(c, states[j - 1], t1);
      WorthLater(c, states[j - 1].global, t1, last.now);
      SpansAdd(queries[i].now, t1, last.now, q);
    } else {
      assert AcceptedIn(c, states, queries, i, i) == 0;
    }
  }

  lemma {:induction false} SpansAdd(a: nat, b: nat, d: nat, q: real)
    ensures (b - a) as real / 1000.0 * q + (d - b) as real / 1000.0 * q == (d - a) as real / 1000.0 * q
  {
    assert (b - a) as real / 1000.0 + (d - b) as real / 1000.0 == (d - a) as real / 1000.0;
  }

  lemma {:induction false} InvSound(c: Config, s: State, now: nat)
    requires Inv(c, s, now)
    ensures Sound(c, s.global, now)
    ensures 0.0 <= Worth(c, s.global, now) <= c.burst as real
  {
    RefillKeepsWorth(c, s.global, now);
  }

  /** In any window of any run, the queries accepted are at most the burst and what the rate adds meanwhile. */
  lemma {:induction false} RateIsBounded(c: Config, start: nat, states: seq<State>, queries: seq<Query>, i: nat, j: nat)
    requires IsRun(c, start, states, queries) && i < j <= |queries|
    ensures AcceptedIn(c, states, queries, i, j) as real
            <= c.burst as real + (queries[j - 1].now - queries[i].now) as real / 1000.0 * c.qps as real
  {
    hide Inv, Consume, Worth;
    WorthFalls(c, start, states, queries, i, j);
    InvAtQuery(c, start, states, queries, i);
    InvSound(c, states[i], queries[i].now);
    RunKeepsInvariant(c, start, states, queries, j);
    InvSound(c, states[j], queries[j - 1].now);
  }

  // ----- The limiter as the program keeps it -----

  class Limiter {
    const config: Config
    var global: Bucket
    var clients: map<string, Bucket>
    var lastCleanup: nat

    ghost function Snap(): State
      reads this
    {
      State(global, clients, lastCleanup)
    }

    constructor (config: Config, now: nat)
      ensures Snap() == Start(config, now) && this.config == config
    {
      this.config := config;
      global, clients, lastCleanup := Bucket(config.burst as real, now, now), map[], 0;
    }

    method RefillBucket(b: Bucket, now: nat) returns (r: Bucket)
      ensures r == Refill(config, b, now)
    {
      r := b;
      if now > r.updated {
        var elapsed := (now - r.updated) as real / 1000.0;
        r := r.(tokens := Least(config.burst as real, r.tokens + elapsed * config.qps as real), updated := now);
      }
      r := r.(lastSeen := now);
    }

    /** Drops the buckets of clients that have not been seen for a minute, one by one. */
    method DropStale(now: nat)
      modifies this`clients
      ensures clients == WithoutStale(old(clients), now)
    {
      var left := clients.Keys;
      while left != {}
        invariant left <= old(clients).Keys
        invariant clients.Keys <= old(clients).Keys
        invariant forall k :: k in clients ==> clients[k] == old(clients)[k] && (k in left || !Stale(clients[k], now))
        invariant forall k :: k in old(clients) && k !in clients ==> Stale(old(clients)[k], now)
        decreases |left|
      {
        var k :| k in left;
        if k in clients && Stale(clients[k], now) {
          clients := clients - {k};
        }
        left := left - {k};
      }
    }

    method ConsumeRateLimit(key: string, now: nat) returns (verdict: Verdict)
      modifies this
      ensures Outcome(Snap(), verdict) == Consume(config, old(Snap()), key, now)
    {
      if key == "" {
        return NoAddress;
      }
      global := RefillBucket(global, now);
      if global.tokens < 1.0 {
        return GlobalEmpty;
      }
      var maximum := Max(1024, config.maxTasks * 4);
      if |clients| >= maximum && key !in clients {
        if now - lastCleanup >= CLEANUP_INTERVAL {
          lastCleanup := now;
          DropStale(now);
        }
        if |clients| >= maximum {
          return TableFull;
        }
      }
      verdict := SpendOne(key, now);
    }

    method SpendOne(key: string, now: nat) returns (verdict: Verdict)
      modifies this
      ensures Outcome(Snap(), verdict) == Admit(config, old(Snap()), key, now)
    {
      var client := if key in clients then clients[key] else Bucket(config.burst as real, now, now);
      client := RefillBucket(client, now);
      if client.tokens < 1.0 {
        clients := clients[key := client];
        return ClientEmpty;
      }
      global := global.(tokens := global.tokens - 1.0);
      clients := clients[key := client.(tokens := client.tokens - 1.0)];
      return Accepted;
    }
  }
}
