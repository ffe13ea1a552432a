/** What the rate limiter does to one query and to a whole run, without its own vocabulary. */
module RateOutcomes {
  import opened Bytes
  import opened RateLimit

  /** A bucket holds what it held and what the rate has added since, at most the burst; time never runs back. */
  lemma {:induction false} RefillExactly(c: Config, b: Bucket, now: nat)
    ensures var added := b.tokens + (now - b.updated) as real / 1000.0 * c.qps as real;
            var after := Refill(c, b, now);
      && after.lastSeen == now
      && (now > b.updated ==>
            && after.updated == now && after.tokens <= c.burst as real
            && (after.tokens == added || after.tokens == c.burst as real < added))
      && (now <= b.updated ==> after.updated == b.updated && after.tokens == b.tokens)
  {
  }

  /** The table is full: no room for a new client, whatever the configuration allows. */
  predicate Full(c: Config, clients: map<string, Bucket>) {
    |clients| >= 1024 && |clients| >= 4 * c.maxTasks
  }

  /** The buckets that an eviction leaves: clients seen within the last minute. */
  function SeenLately(clients: map<string, Bucket>, now: nat): map<string, Bucket> {
    map key | key in clients && now <= clients[key].lastSeen + 60000 :: clients[key]
  }

  lemma {:induction false} CrowdedExactly(c: Config, s: State, key: string)
    ensures Crowded(c, s, key) <==> Full(c, s.clients) && key !in s.clients
  {
  }

  /** The table is swept at most once a second, of every client not seen for a minute and of no other. */
  lemma {:induction false} CleanedExactly(s: State, now: nat)
    ensures now < s.lastCleanup + 1000 ==> Cleaned(s, now) == s
    ensures now >= s.lastCleanup + 1000 ==>
              Cleaned(s, now) == State(s.global, SeenLately(s.clients, now), now)
  {
    assert WithoutStale(s.clients, now) == SeenLately(s.clients, now);
  }

  /** A new client meets a full table, last swept a second ago or more. */
  predicate Swept(c: Config, s: State, key: string, now: nat) {
    Full(c, s.clients) && key !in s.clients && now >= s.lastCleanup + 1000
  }

  /** The table a new client meets. */
  function Met(c: Config, s: State, key: string, now: nat): map<string, Bucket> {
    if Swept(c, s, key, now) then SeenLately(s.clients, now) else s.clients
  }

  /**
    * A query is refused for want of an address, for an empty global bucket, or because it comes from a
    * new client and the table is full even once swept; for nothing else.
    */
  lemma {:induction false} VerdictExactly(c: Config, s: State, key: string, now: nat)
    requires Inv(c, s, now)
    ensures var v := Consume(c, s, key, now).verdict;
      && (v == NoAddress <==> key == "")
      && (v == GlobalEmpty <==> key != "" && Worth(c, s.global, now) < 1.0)
      && (v == TableFull <==> key != "" && Worth(c, s.global, now) >= 1.0
                              && key !in s.clients && Full(c, Met(c, s, key, now)))
      && v != ClientEmpty
  {
    hide Crowded, Cleaned, Inv;
    StepKeepsInvariant(c, s, key, now);
    CrowdedExactly(c, s, key);
    CrowdedExactly(c, s.(global := Refill(c, s.global, now)), key);
    CrowdedExactly(c, Cleaned(s.(global := Refill(c, s.global, now)), now), key);
    CrowdedExactly(c, Cleaned(s, now), key);
    CleanedExactly(s.(global := Refill(c, s.global, now)), now);
    CleanedExactly(s, now);
    RefillKeeps(c, s, now);
  }

  /**
    * What an accepted query leaves behind: the table it met, with its own client one token poorer than
    * its bucket was worth (a full one for a new client), and seen just now; and the global bucket one
    * token poorer.
    */
  lemma {:induction false} AcceptedOutcome(c: Config, s: State, key: string, now: nat)
    requires Inv(c, s, now) && Consume(c, s, key, now).verdict == Accepted
    ensures var after := Consume(c, s, key, now).state;
      && (forall k :: k != key ==> (k in after.clients <==> k in Met(c, s, key, now)))
      && (forall k :: k != key && k in after.clients ==> k in s.clients && after.clients[k] == s.clients[k])
      && key in after.clients
      && after.clients[key] ==
           Bucket((if key in s.clients then Worth(c, s.clients[key], now) else c.burst as real) - 1.0, now, now)
      && after.global == Bucket(Worth(c, s.global, now) - 1.0, now, now)
      && after.lastCleanup == if Swept(c, s, key, now) then now else s.lastCleanup
  {
    hide Crowded, Cleaned, Inv;
    var s1 := s.(global := Refill(c, s.global, now));
    CrowdedExactly(c, s1, key);
    CrowdedExactly(c, Cleaned(s1, now), key);
    CleanedExactly(s1, now);
    RefillKeeps(c, s, now);
    FreshAt(c, s, key, now);
  }

  lemma {:induction false} FreshAt(c: Config, s: State, key: string, now: nat)
    requires Inv(c, s, now)
    ensures Refill(c, s.global, now) == Bucket(Worth(c, s.global, now), now, now)
    ensures key in s.clients ==> Refill(c, s.clients[key], now) == Bucket(Worth(c, s.clients[key], now), now, now)
    ensures Refill(c, Bucket(c.burst as real, now, now), now) == Bucket(c.burst as real, now, now)
  {
    if key in s.clients {
      assert Sound(c, s.clients[key], now);
    }
  }

  /** A refused query changes no client's bucket, and drops none but those a sweep may drop. */
  lemma {:induction false} RefusedOutcome(c: Config, s: State, key: string, now: nat)
    requires Inv(c, s, now) && Consume(c, s, key, now).verdict != Accepted
    ensures var r := Consume(c, s, key, now);
      && r.state.global == (if key == "" then s.global else Bucket(Worth(c, s.global, now), now, now))
      && r.state.clients == (if r.verdict == TableFull then Met(c, s, key, now) else s.clients)
      && r.state.lastCleanup == (if r.verdict == TableFull && Swept(c, s, key, now) then now else s.lastCleanup)
  {
    hide Crowded, Cleaned, Inv;
    var s1 := s.(global := Refill(c, s.global, now));
    CrowdedExactly(c, s1, key);
    CrowdedExactly(c, Cleaned(s1, now), key);
    CleanedExactly(s1, now);
    RefillKeeps(c, s, now);
    FreshAt(c, s, key, now);
    StepKeepsInvariant(c, s, key, now);
  }

  // ----- Whole runs -----

  function AcceptedAt(c: Config, states: seq<State>, queries: seq<Query>, i: nat, j: nat): set<nat>
    requires i <= j <= |queries| < |states|
  {
    set k | i <= k < j && Consume(c, states[k], queries[k].key, queries[k].now).verdict == Accepted
  }

  /** The count in the bound on the rate is the number of queries accepted. */
  lemma {:induction false} AcceptedAreCounted(c: Config, states: seq<State>, queries: seq<Query>, i: nat, j: nat)
    requires i <= j <= |queries| < |states|
    ensures AcceptedIn(c, states, queries, i, j) == |AcceptedAt(c, states, queries, i, j)|
    decreases j
  {
    hide Consume;
    if i < j {
      AcceptedAreCounted(c, states, queries, i, j - 1);
      var before, last := AcceptedAt(c, states, queries, i, j - 1), queries[j - 1];
      if Consume(c, states[j - 1], last.key, last.now).verdict == Accepted {
        assert AcceptedAt(c, states, queries, i, j) == before + {j - 1};
      } else {
        assert AcceptedAt(c, states, queries, i, j) == before;
      }
    } else {
      assert AcceptedAt(c, states, queries, i, j) == {};
    }
  }

  /** A client whose query was accepted is remembered for the next minute, in every run. */
  lemma {:induction false} ClientsAreRemembered(c: Config, start: nat, states: seq<State>, queries: seq<Query>,
                                                i: nat, j: nat)
    requires IsRun(c, start, states, queries) && i < j <= |queries|
    requires Consume(c, states[i], queries[i].key, queries[i].now).verdict == Accepted
    requires queries[j - 1].now <= queries[i].now + 60000
    ensures queries[i].key in states[j].clients
    ensures states[j].clients[queries[i].key].lastSeen >= queries[i].now
  {
    hide Inv, Consume;
    var key, q := queries[i].key, queries[j - 1];
    InvAtQuery(c, start, states, queries, j - 1);
    if i + 1 < j {
      ClientsAreRemembered(c, start, states, queries, i, j - 1);
    }
    if Consume(c, states[j - 1], q.key, q.now).verdict == Accepted {
      AcceptedOutcome(c, states[j - 1], q.key, q.now);
    } else {
      RefusedOutcome(c, states[j - 1], q.key, q.now);
    }
  }
}
