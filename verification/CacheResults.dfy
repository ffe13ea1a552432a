/** What the recency list keeps, what it drops, and what its TTLs promise. */
module CacheResults {
  import opened Bytes
  import opened Messages
  import opened CacheModel

  // ----- Lists -----

  predicate Distinct(items: seq<Item>) {
    forall i, j :: 0 <= i < j < |items| ==> items[i].key != items[j].key
  }

  lemma {:induction false} WithoutHolds(items: seq<Item>, key: CacheKey)
    ensures forall it :: it in Without(items, key) <==> it in items && it.key != key
  {
    if items != [] {
      assert items == [items[0]] + items[1..];
      WithoutHolds(items[1..], key);
    }
  }

  lemma {:induction false} LookupFinds(items: seq<Item>, key: CacheKey)
    ensures match Lookup(items, key)
            case None => forall it :: it in items ==> it.key != key
            case Some(it) => it in items && it.key == key
  {
    if items != [] {
      assert items == [items[0]] + items[1..];
      LookupFinds(items[1..], key);
    }
  }

  lemma {:induction false} AbsentIsUntouched(items: seq<Item>, key: CacheKey)
    requires Lookup(items, key).None?
    ensures Without(items, key) == items
  {
    if items != [] {
      AbsentIsUntouched(items[1..], key);
    }
  }

  lemma {:induction false} TotalFromFront(items: seq<Item>)
    requires items != []
    ensures TotalCharge(items) == items[0].charge + TotalCharge(items[1..])
  {
    var n := |items| - 1;
    if n > 0 {
      TotalFromFront(items[..n]);
      assert items[1..][..n - 1] == items[..n][1..];
    }
  }

  function ChargeOf(item: Option<Item>): nat {
    match item
    case None => 0
    case Some(it) => it.charge
  }

  lemma {:induction false} TotalWithout(items: seq<Item>, key: CacheKey)
    requires Distinct(items)
    ensures TotalCharge(items) == TotalCharge(Without(items, key)) + ChargeOf(Lookup(items, key))
    ensures |items| == |Without(items, key)| + (if Lookup(items, key).None? then 0 else 1)
  {
    if items != [] {
      TotalFromFront(items);
      if items[0].key == key {
        LookupFinds(items[1..], key);
        AbsentIsUntouched(items[1..], key);
      } else {
        TotalWithout(items[1..], key);
        TotalFromFront(Without(items, key));
        assert Without(items, key)[1..] == Without(items[1..], key);
      }
    }
  }

  /**
    * Room is made by dropping the shortest suffix that will do: what is kept is a prefix to which
    * the new entry can be added, and no longer prefix is one.
    */
  lemma {:induction false} RoomIsMadeFromTheEnd(l: Limits, items: seq<Item>, charge: nat)
    requires charge <= l.maxBytes
    ensures MakeRoom(l, items, charge) <= items
    ensures Fits(l, MakeRoom(l, items, charge), charge)
    ensures forall n :: |MakeRoom(l, items, charge)| < n <= |items| ==> !Fits(l, items[..n], charge)
  {
    var kept := MakeRoom(l, items, charge);
    if items != [] && !Fits(l, items, charge) {
      var shorter := items[..|items| - 1];
      RoomIsMadeFromTheEnd(l, shorter, charge);
      forall n | |kept| < n <= |items| ensures !Fits(l, items[..n], charge) {
        if n < |items| {
          assert shorter[..n] == items[..n];
        } else {
          assert items[..n] == items;
        }
      }
    }
  }

  // ----- Runs -----

  predicate WithinLimits(l: Limits, items: seq<Item>) {
    TotalCharge(items) <= l.maxBytes && |items| <= EntryCap(l.maxBytes)
  }

  predicate Current(l: Limits, ops: seq<Op>, items: seq<Item>) {
    forall it :: it in items ==> LastAccepted(l, ops, it.key) == Some(it)
  }

  predicate ByLastUse(l: Limits, ops: seq<Op>, items: seq<Item>) {
    forall i, j :: 0 <= i < j < |items| ==> LastUse(l, ops, items[i].key) > LastUse(l, ops, items[j].key)
  }

  lemma {:induction false} OrderMakesDistinct(l: Limits, ops: seq<Op>, items: seq<Item>)
    requires ByLastUse(l, ops, items)
    ensures Distinct(items)
  {
    forall i, j | 0 <= i < j < |items| ensures items[i].key != items[j].key {
      assert LastUse(l, ops, items[i].key) > LastUse(l, ops, items[j].key);
    }
  }

  lemma {:induction false} WithoutKeepsOrder(l: Limits, ops: seq<Op>, items: seq<Item>, key: CacheKey)
    requires ByLastUse(l, ops, items)
    ensures ByLastUse(l, ops, Without(items, key))
  {
    if items != [] {
      var rest := Without(items[1..], key);
      WithoutKeepsOrder(l, ops, items[1..], key);
      if items[0].key != key {
        WithoutHolds(items[1..], key);
        forall j | 0 < j < 1 + |rest|
          ensures LastUse(l, ops, items[0].key) > LastUse(l, ops, ([items[0]] + rest)[j].key)
        {
          assert rest[j - 1] in items[1..];
        }
      }
    }
  }

  /** Putting one item in front keeps the order if the last operation used just its key. */
  lemma {:induction false} FrontKeepsOrder(l: Limits, ops: seq<Op>, op: Op, items: seq<Item>, front: Item)
    requires ByLastUse(l, ops, items) && Uses(l, op, front.key)
    requires forall it :: it in items ==> it.key != front.key
    ensures ByLastUse(l, ops + [op], [front] + items)
  {
    AppendUse(l, ops, op);
  }

  lemma {:induction false} AppendUse(l: Limits, ops: seq<Op>, op: Op)
    ensures forall key :: LastUse(l, ops + [op], key) == if Uses(l, op, key) then |ops| else LastUse(l, ops, key)
    ensures forall key :: LastAccepted(l, ops + [op], key) ==
                          if op.key == key && Offered(l, op).Some? then Offered(l, op) else LastAccepted(l, ops, key)
  {
    assert (ops + [op])[..|ops|] == ops;
  }

  lemma {:induction false} UnusedKeepsOrder(l: Limits, ops: seq<Op>, op: Op, items: seq<Item>)
    requires ByLastUse(l, ops, items)
    requires forall it :: it in items ==> !Uses(l, op, it.key)
    ensures ByLastUse(l, ops + [op], items)
  {
    AppendUse(l, ops, op);
  }

  lemma {:induction false} StoreKeepsInvariant(l: Limits, ops: seq<Op>, op: Op, items: seq<Item>)
    requires WithinLimits(l, items) && Current(l, ops, items) && ByLastUse(l, ops, items)
    requires Offered(l, op).Some?
    ensures var after := Store(l, items, Offered(l, op).value);
            WithinLimits(l, after) && Current(l, ops + [op], after) && ByLastUse(l, ops + [op], after)
  {
    hide Offered, Without, MakeRoom, LastAccepted, LastUse, EntryCap, ByLastUse, TotalCharge;
    var item := Offered(l, op).value;
    var others := Without(items, item.key);
    var kept := MakeRoom(l, others, item.charge);
    WithoutKeepsOrder(l, ops, items, item.key);
    WithoutHolds(items, item.key);
    RoomIsMadeFromTheEnd(l, others, item.charge);
    assert kept == others[..|kept|];
    assert forall it :: it in kept ==> it in others;
    FrontKeepsOrder(l, ops, op, kept, item);
    AppendUse(l, ops, op);
    TotalFromFront([item] + kept);
    assert ([item] + kept)[1..] == kept;
  }

  lemma {:induction false} TouchKeepsInvariant(l: Limits, ops: seq<Op>, op: Op, items: seq<Item>)
    requires WithinLimits(l, items) && Current(l, ops, items) && ByLastUse(l, ops, items)
    requires op.Find?
    ensures var after := Touch(items, op.key, op.now);
            WithinLimits(l, after) && Current(l, ops + [op], after) && ByLastUse(l, ops + [op], after)
  {
    OrderMakesDistinct(l, ops, items);
    AppendUse(l, ops, op);
    LookupFinds(items, op.key);
    TotalWithout(items, op.key);
    match Lookup(items, op.key) {
      case None =>
        UnusedKeepsOrder(l, ops, op, items);
      case Some(item) =>
        var others := Without(items, op.key);
        WithoutHolds(items, op.key);
        WithoutKeepsOrder(l, ops, items, op.key);
        if op.now >= item.expire {
          UnusedKeepsOrder(l, ops, op, others);
        } else {
          FrontKeepsOrder(l, ops, op, others, item);
          TotalFromFront([item] + others);
          assert ([item] + others)[1..] == others;
        }
    }
  }

  /**
    * After any history of lookups, insertions and failures the cache keeps within its byte and
    * entry limits; every entry in it is the one most recently accepted for its key; and the entries
    * stand in the order in which their keys were last used.
    */
  lemma {:induction false} CacheInvariant(l: Limits, ops: seq<Op>)
    ensures WithinLimits(l, Run(l, ops))
    ensures Current(l, ops, Run(l, ops))
    ensures ByLastUse(l, ops, Run(l, ops))
  {
    if ops != [] {
      var before, op := ops[..|ops| - 1], ops[|ops| - 1];
      assert ops == before + [op];
      CacheInvariant(l, before);
      var items := Run(l, before);
      if op.Find? {
        TouchKeepsInvariant(l, before, op, items);
      } else if Offered(l, op).Some? {
        StoreKeepsInvariant(l, before, op, items);
      } else {
        forall it | it in items ensures !Uses(l, op, it.key) {}
        UnusedKeepsOrder(l, before, op, items);
        AppendUse(l, before, op);
      }
    }
  }

  /** A lookup answers from the entry last accepted for its key, or not at all. */
  lemma {:induction false} AnswersAreTheLastAccepted(l: Limits, ops: seq<Op>, key: CacheKey, now: nat)
    ensures Answer(Run(l, ops), key, now).Some? ==>
              LastAccepted(l, ops, key).Some? &&
                  Answer(Run(l, ops), key, now) == Render(LastAccepted(l, ops, key).value, now)
  {
    CacheInvariant(l, ops);
    LookupFinds(Run(l, ops), key);
  }

  // ----- What a bounded working set guarantees -----

  /** The list as far as the item for a key, that item included. */
  function Through(items: seq<Item>, key: CacheKey): seq<Item> {
    if items == [] then [] else
      if items[0].key == key then [items[0]] else [items[0]] + Through(items[1..], key)
  }

  lemma {:induction false} ThroughIsPrefix(items: seq<Item>, key: CacheKey)
    ensures Through(items, key) <= items
  {
    if items != [] {
      assert items == [items[0]] + items[1..];
      ThroughIsPrefix(items[1..], key);
    }
  }

  lemma {:induction false} LookupInPrefix(kept: seq<Item>, items: seq<Item>, key: CacheKey)
    requires Through(items, key) <= kept <= items && Lookup(items, key).Some?
    ensures Lookup(kept, key) == Lookup(items, key) && Through(kept, key) == Through(items, key)
  {
    if items[0].key != key {
      assert kept[0] == Through(items, key)[0];
      assert Through(items[1..], key) == Through(items, key)[1..];
      LookupInPrefix(kept[1..], items[1..], key);
    } else {
      assert kept[0] == Through(items, key)[0];
    }
  }

  lemma {:induction false} ThroughWithout(items: seq<Item>, key: CacheKey, other: CacheKey)
    requires key != other
    ensures Through(Without(items, other), key) == Without(Through(items, key), other)
    ensures Lookup(Without(items, other), key) == Lookup(items, key)
  {
    if items != [] {
      ThroughWithout(items[1..], key, other);
      if items[0].key != other {
        assert Without(items, other)[1..] == Without(items[1..], other);
      }
      if items[0].key != key {
        assert Through(items, key)[1..] == Through(items[1..], key);
      } else {
        assert Without([items[0]], other) == [items[0]];
      }
    }
  }

  /** The charges of what the operations since some point used, each time at the size it then had. */
  function Pressure(l: Limits, ops: seq<Op>, since: nat): nat
    requires since <= |ops|
  {
    if since == |ops| then 0 else
      Pressure(l, ops[..|ops| - 1], since) + ChargeOf(LastAccepted(l, ops, ops[|ops| - 1].key))
  }

  lemma {:induction false} PressureGrows(l: Limits, ops: seq<Op>, op: Op, since: nat)
    requires since <= |ops|
    ensures Pressure(l, ops + [op], since) == Pressure(l, ops, since) + ChargeOf(LastAccepted(l, ops + [op], op.key))
  {
    assert (ops + [op])[..|ops|] == ops;
  }

  /** A key is held with little in front of it. */
  predicate HeldWithin(items: seq<Item>, key: CacheKey, charge: nat, count: nat) {
    Lookup(items, key).Some? && TotalCharge(Through(items, key)) <= charge && |Through(items, key)| <= count
  }

  lemma {:induction false} WithoutKeepsHeld(items: seq<Item>, key: CacheKey, other: CacheKey, charge: nat, count: nat)
    requires Distinct(items) && key != other && HeldWithin(items, key, charge, count)
    ensures HeldWithin(Without(items, other), key, charge, count)
  {
    ThroughWithout(items, key, other);
    ThroughIsPrefix(items, key);
    TotalWithout(Through(items, key), other);
  }

  lemma {:induction false} FrontKeepsHeld(items: seq<Item>, key: CacheKey, front: Item, charge: nat, count: nat)
    requires front.key != key && HeldWithin(items, key, charge, count)
    ensures HeldWithin([front] + items, key, charge + front.charge, count + 1)
  {
    assert ([front] + items)[1..] == items;
    var t := [front] + Through(items, key);
    TotalFromFront(t);
    assert t[1..] == Through(items, key);
  }

  lemma {:induction false} RoomKeepsHeld(l: Limits, items: seq<Item>, key: CacheKey, room: nat, charge: nat, count: nat)
    requires HeldWithin(items, key, charge, count)
    requires charge + room <= l.maxBytes && count < EntryCap(l.maxBytes)
    ensures HeldWithin(MakeRoom(l, items, room), key, charge, count)
  {
    var through := Through(items, key);
    ThroughIsPrefix(items, key);
    RoomIsMadeFromTheEnd(l, items, room);
    assert items[..|through|] == through;
    assert Fits(l, through, room);
    LookupInPrefix(MakeRoom(l, items, room), items, key);
  }

  lemma {:induction false} StepKeepsHeld(l: Limits, ops: seq<Op>, op: Op, key: CacheKey, charge: nat, count: nat)
    requires HeldWithin(Run(l, ops), key, charge, count) && !Uses(l, op, key)
    requires charge + ChargeOf(LastAccepted(l, ops + [op], op.key)) <= l.maxBytes && count < EntryCap(l.maxBytes)
    ensures HeldWithin(Run(l, ops + [op]), key, charge + ChargeOf(LastAccepted(l, ops + [op], op.key)), count + 1)
  {
    var items, other := Run(l, ops), op.key;
    assert (ops + [op])[..|ops|] == ops;
    CacheInvariant(l, ops);
    OrderMakesDistinct(l, ops, items);
    AppendUse(l, ops, op);
    LookupFinds(items, other);
    if op.Find? && Lookup(items, other).Some? {
      WithoutKeepsHeld(items, key, other, charge, count);
      var item := Lookup(items, other).value;
      assert LastAccepted(l, ops + [op], other) == Some(item);
      if op.now < item.expire {
        FrontKeepsHeld(Without(items, other), key, item, charge, count);
      }
    } else if Offered(l, op).Some? {
      var item := Offered(l, op).value;
      WithoutKeepsHeld(items, key, other, charge, count);
      RoomKeepsHeld(l, Without(items, other), key, item.charge, charge, count);
      FrontKeepsHeld(MakeRoom(l, Without(items, other), item.charge), key, item, charge, count);
    }
  }

  /**
    * Least recently used is what goes: a key at the front of the list stays in it through any
    * further operations on other keys, so long as what these use, and the key's own entry, would
    * fit the limits together.
    */
  lemma {:induction false} WorkingSetIsKept(l: Limits, ops: seq<Op>, since: nat, key: CacheKey)
    requires since <= |ops|
    requires Run(l, ops[..since]) != [] && Run(l, ops[..since])[0].key == key
    requires forall i :: since <= i < |ops| ==> !Uses(l, ops[i], key)
    requires Run(l, ops[..since])[0].charge + Pressure(l, ops, since) <= l.maxBytes
    requires |ops| - since < EntryCap(l.maxBytes)
    ensures HeldWithin(Run(l, ops), key, Run(l, ops[..since])[0].charge + Pressure(l, ops, since), 1 + |ops| - since)
    ensures Lookup(Run(l, ops), key) == Some(Run(l, ops[..since])[0])
    decreases |ops|
  {
    var first := Run(l, ops[..since])[0];
    if since == |ops| {
      assert ops[..since] == ops;
      assert TotalCharge([first]) == TotalCharge([]) + first.charge by {
        assert [first][..0] == [];
      }
    } else {
      var before, op := ops[..|ops| - 1], ops[|ops| - 1];
      assert before[..since] == ops[..since] && ops == before + [op];
      assert forall i :: since <= i < |before| ==> before[i] == ops[i];
      PressureGrows(l, before, op, since);
      WorkingSetIsKept(l, before, since, key);
      StepKeepsHeld(l, before, op, key, first.charge + Pressure(l, before, since), 1 + |before| - since);
      AppendUse(l, before, op);
      AcceptedSurvives(l, before, key);
      AcceptedSurvives(l, ops, key);
    }
  }

  lemma {:induction false} AcceptedSurvives(l: Limits, ops: seq<Op>, key: CacheKey)
    ensures Lookup(Run(l, ops), key).Some? ==> LastAccepted(l, ops, key) == Lookup(Run(l, ops), key)
  {
    CacheInvariant(l, ops);
    LookupFinds(Run(l, ops), key);
  }

  // ----- Lifetimes -----

  lemma {:induction false} StampedTtl(r: Record, l: Limits, ttl: uint32, t0: nat, now: nat)
    requires t0 <= now < t0 + Min(ttl, l.maxTtl) * 1000
    ensures var own := t0 + Min(r.ttl, l.maxTtl) * 1000;
            var expire := t0 + Min(ttl, l.maxTtl) * 1000;
            var left := Remaining(Stamp(r, t0, expire, l.maxTtl), now).ttl;
            && left == (if now < own then (Min(own, expire) - now) / 1000 else 0)
            && (now + 1000 * left <= own <==> now <= own)
  {
  }

  predicate SameButTtls(offered: seq<Record>, shown: seq<Record>) {
    |shown| == |offered| &&
    forall i :: 0 <= i < |shown| ==> shown[i] == offered[i].(ttl := shown[i].ttl, deadline := shown[i].deadline)
  }

  /** What the record itself had left bounds its TTL exactly while it had anything left. */
  predicate Honest(l: Limits, offered: Record, ttl: uint32, t0: nat, now: nat) {
    now + 1000 * ttl <= t0 + 1000 * Min(offered.ttl, l.maxTtl) <==> now <= t0 + 1000 * Min(offered.ttl, l.maxTtl)
  }

  predicate AllHonest(l: Limits, offered: seq<Record>, shown: seq<Record>, t0: nat, now: nat)
    requires |shown| == |offered|
  {
    forall i :: 0 <= i < |shown| ==> Honest(l, offered[i], shown[i].ttl, t0, now)
  }

  lemma {:induction false} ShownTtls(l: Limits, rs: seq<Record>, ttl: uint32, t0: nat, now: nat)
    requires t0 <= now < t0 + Min(ttl, l.maxTtl) * 1000
    ensures var shown := RemainingAll(StampAll(rs, t0, t0 + Min(ttl, l.maxTtl) * 1000, l.maxTtl), now);
            SameButTtls(rs, shown) && AllHonest(l, rs, shown, t0, now)
  {
    var shown := RemainingAll(StampAll(rs, t0, t0 + Min(ttl, l.maxTtl) * 1000, l.maxTtl), now);
    forall i | 0 <= i < |rs| ensures Honest(l, rs[i], shown[i].ttl, t0, now) {
      StampedTtl(rs[i], l, ttl, t0, now);
    }
  }

  /**
    * An entry is handed out only before its time is up; its records are the ones that were offered
    * but for their TTLs; and a TTL stays within what the record itself had left exactly while the
    * record had anything left at all. (One that lives shorter than its entry is handed out with TTL 0.)
    */
  lemma {:induction false} HandedOutInTime(l: Limits, key: CacheKey, value: Message, ttl: uint32, t0: nat, now: nat)
    requires t0 <= now
    ensures var shown := Render(MakeItem(l, key, value, ttl, t0), now);
            && (shown.Some? <==> now < t0 + Min(ttl, l.maxTtl) * 1000)
            && (shown.Some? ==> IsHonestCopy(l, value, shown.value, t0, now))
  {
    hide StampAll, RemainingAll, SameButTtls, AllHonest, MessageSize;
    if now < t0 + Min(ttl, l.maxTtl) * 1000 {
      ShownTtls(l, value.answers, ttl, t0, now);
      ShownTtls(l, value.authorities, ttl, t0, now);
    }
  }

  predicate IsHonestCopy(l: Limits, offered: Message, shown: Message, t0: nat, now: nat) {
    && shown.header == offered.header && shown.questions == offered.questions && shown.additionals == []
    && SameButTtls(offered.answers, shown.answers) && SameButTtls(offered.authorities, shown.authorities)
    && AllHonest(l, offered.answers, shown.answers, t0, now)
    && AllHonest(l, offered.authorities, shown.authorities, t0, now)
  }

  lemma {:induction false} LeastIsLeast(rs: seq<Record>)
    ensures forall i :: 0 <= i < |rs| ==> LeastTtl(rs) <= rs[i].ttl
  {
    if rs != [] {
      LeastIsLeast(rs[1..]);
      assert rs == [rs[0]] + rs[1..];
    }
  }

  /** All answers of a positive entry report one TTL, and none reports more than its own. */
  lemma {:induction false} PositiveAnswersAgree(l: Limits, key: CacheKey, value: Message, t0: nat, now: nat)
    requires t0 <= now && !IsNegative(value) && Lifetime(value) != 0
    ensures var shown := Render(MakeItem(l, key, value, Lifetime(value), t0), now);
            shown.Some? ==>
              forall i :: 0 <= i < |shown.value.answers| ==>
                            && shown.value.answers[i].ttl == (t0 + Min(Lifetime(value), l.maxTtl) * 1000 - now) / 1000
                            && now + 1000 * shown.value.answers[i].ttl
                               <= t0 + 1000 * Min(value.answers[i].ttl, l.maxTtl)
  {
    hide MessageSize, Lifetime;
    LifetimeOfPositive(value);
    LeastIsLeast(value.answers);
    var ttl, shown := Lifetime(value), Render(MakeItem(l, key, value, Lifetime(value), t0), now);
    if shown.Some? {
      forall i | 0 <= i < |value.answers|
        ensures shown.value.answers[i].ttl == (t0 + Min(ttl, l.maxTtl) * 1000 - now) / 1000
        ensures now + 1000 * shown.value.answers[i].ttl <= t0 + 1000 * Min(value.answers[i].ttl, l.maxTtl)
      {
        StampedTtl(value.answers[i], l, ttl, t0, now);
      }
    }
  }

  lemma {:induction false} LifetimeOfPositive(value: Message)
    requires !IsNegative(value) && Lifetime(value) != 0
    ensures value.answers != [] && Lifetime(value) == LeastTtl(value.answers)
  {
  }

  /** TTLs only go down while an entry lives. */
  lemma {:induction false} TtlsOnlyShrink(l: Limits, key: CacheKey, value: Message, ttl: uint32, t0: nat, t1: nat,
                                          t2: nat)
    requires t0 <= t1 <= t2
    requires Render(MakeItem(l, key, value, ttl, t0), t2).Some?
    ensures var item := MakeItem(l, key, value, ttl, t0);
            var first, second := Render(item, t1), Render(item, t2);
            && first.Some?
            && Shrunk(first.value.answers, second.value.answers)
            && Shrunk(first.value.authorities, second.value.authorities)
  {
    hide StampAll, RemainingAll, Shrunk, MessageSize;
    ShownShrink(l, value.answers, ttl, t0, t1, t2);
    ShownShrink(l, value.authorities, ttl, t0, t1, t2);
  }

  predicate Shrunk(first: seq<Record>, second: seq<Record>) {
    |first| == |second| && forall i :: 0 <= i < |first| ==> second[i].ttl <= first[i].ttl
  }

  lemma {:induction false} ShownShrink(l: Limits, rs: seq<Record>, ttl: uint32, t0: nat, t1: nat, t2: nat)
    requires t0 <= t1 <= t2 < t0 + Min(ttl, l.maxTtl) * 1000
    ensures var kept := StampAll(rs, t0, t0 + Min(ttl, l.maxTtl) * 1000, l.maxTtl);
            Shrunk(RemainingAll(kept, t1), RemainingAll(kept, t2))
  {
    var kept := StampAll(rs, t0, t0 + Min(ttl, l.maxTtl) * 1000, l.maxTtl);
    forall i | 0 <= i < |rs| ensures RemainingAll(kept, t2)[i].ttl <= RemainingAll(kept, t1)[i].ttl {
      StampedTtl(rs[i], l, ttl, t0, t1);
      StampedTtl(rs[i], l, ttl, t0, t2);
    }
  }

  // ----- The two together -----

  function GivenLifetime(op: Op): uint32 {
    match op
    case Find(_, _) => 0
    case Insert(_, value, _) => Lifetime(value)
    case InsertFailure(_, _, ttl, _) => FailureLifetime(ttl)
  }

  lemma {:induction false} LastAcceptedIsOffered(l: Limits, ops: seq<Op>, key: CacheKey)
    requires LastAccepted(l, ops, key).Some?
    ensures exists i :: 0 <= i < |ops| && OfferedLast(l, ops, key, i)
  {
    hide Offered;
    var n := |ops| - 1;
    if ops[n].key == key && Offered(l, ops[n]).Some? {
      assert OfferedLast(l, ops, key, n);
    } else {
      LastAcceptedIsOffered(l, ops[..n], key);
      var i :| 0 <= i < n && OfferedLast(l, ops[..n], key, i);
      assert OfferedLast(l, ops, key, i);
    }
  }

  /** Operation i is the last that put something under this key. */
  predicate OfferedLast(l: Limits, ops: seq<Op>, key: CacheKey, i: nat)
    requires i < |ops|
  {
    && ops[i].key == key && Offered(l, ops[i]).Some? && LastAccepted(l, ops, key) == Offered(l, ops[i])
    && forall j :: i < j < |ops| ==> ops[j].key == key ==> Offered(l, ops[j]).None?
  }

  /**
    * Whatever the cache answers, after any history, is an honest copy of the value that was last
    * accepted for that key, and comes before that value's lifetime has passed.
    */
  lemma {:induction false} AnswersAreFresh(l: Limits, ops: seq<Op>, key: CacheKey, now: nat)
    requires forall i :: 0 <= i < |ops| ==> ops[i].now <= now
    requires Answer(Run(l, ops), key, now).Some?
    ensures exists i :: 0 <= i < |ops| && OfferedLast(l, ops, key, i) && !ops[i].Find? &&
                        now < ops[i].now + Min(GivenLifetime(ops[i]), l.maxTtl) * 1000 &&
                        IsHonestCopy(l, ops[i].value, Answer(Run(l, ops), key, now).value, ops[i].now, now)
  {
    hide Run, Answer, IsHonestCopy, Render, MakeItem, LastAccepted, Lifetime;
    AnswersAreTheLastAccepted(l, ops, key, now);
    LastAcceptedIsOffered(l, ops, key);
    var i :| 0 <= i < |ops| && OfferedLast(l, ops, key, i);
    HandedOutInTime(l, key, ops[i].value, GivenLifetime(ops[i]), ops[i].now, now);
  }

  // ----- A record that outlives itself -----

  const EXAMPLE_LIMITS := Limits(1000000, 65535, 86400, Sizes(0, 0, 0, 0, 0, 0, 0, 0, 0))
  const EXAMPLE_SOA := Record([], TYPE_SOA, 1, 60, [], SoaPayload([], [], 1, 1, 1, 1, 60), true, 0)
  const EXAMPLE_SHORT := Record([], TYPE_NS, 1, 1, [], NsPayload([]), true, 0)
  const EXAMPLE_NEGATIVE := Message(Header(1, 3, 0, 0, 2, 0), [], [], [EXAMPLE_SOA, EXAMPLE_SHORT], [])

  /**
    * A negative answer is kept for the minute its SOA allows; after two seconds it still shows a record
    * that had only one second to live.
    */
  lemma {:induction false} ShortRecordsCanOutliveThemselves(key: CacheKey, t0: nat)
    ensures Lifetime(EXAMPLE_NEGATIVE) == 60
    ensures var shown := Answer(Run(EXAMPLE_LIMITS, [Insert(key, EXAMPLE_NEGATIVE, t0)]), key, t0 + 2000);
      && (|key.name| <= 1000 ==> shown.Some?)
      && (shown.Some? ==>
            && |shown.value.authorities| == 2
            && !(t0 + 2000 + 1000 * shown.value.authorities[1].ttl <= t0 + 1000 * EXAMPLE_SHORT.ttl))
  {
    var l, now := EXAMPLE_LIMITS, t0 + 2000;
    var item := MakeItem(l, key, EXAMPLE_NEGATIVE, 60, t0);
    NegativeLifetime();
    NegativeSize(key, t0);
    InsertedFirst(l, Insert(key, EXAMPLE_NEGATIVE, t0));
    HandedOutInTime(l, key, EXAMPLE_NEGATIVE, 60, t0, now);
    assert item.key == key;
    hide Run, Lifetime, MakeItem, Render;
    var shown := Render(item, now).value;
    assert IsHonestCopy(l, EXAMPLE_NEGATIVE, shown, t0, now);
    assert |shown.authorities| == |EXAMPLE_NEGATIVE.authorities|;
    assert Honest(l, EXAMPLE_NEGATIVE.authorities[1], shown.authorities[1].ttl, t0, now);
  }

  lemma {:induction false} NegativeLifetime()
    ensures Lifetime(EXAMPLE_NEGATIVE) == 60
  {
    assert HasSoa(EXAMPLE_NEGATIVE.authorities[0]);
  }

  /** The first thing stored is all there is. */
  lemma {:induction false} InsertedFirst(l: Limits, op: Op)
    requires !op.Find?
    ensures Run(l, [op]) == match Offered(l, op) case None => [] case Some(item) => [item]
  {
    hide Offered;
    assert [op][..0] == [];
    assert Run(l, []) == [];
  }

  lemma {:induction false} NegativeSize(key: CacheKey, t0: nat)
    ensures MakeItem(EXAMPLE_LIMITS, key, EXAMPLE_NEGATIVE, 60, t0).charge == |key.name|
  {
    var z, kept := EXAMPLE_LIMITS.sizes, MakeItem(EXAMPLE_LIMITS, key, EXAMPLE_NEGATIVE, 60, t0).value;
    assert kept.questions == [] && kept.answers == [] && |kept.authorities| == 2;
    TwoSizes(z, kept.authorities);
    assert RecordSize(z, kept.authorities[0]) == 0 && RecordSize(z, kept.authorities[1]) == 0;
  }

  lemma {:induction false} TwoSizes(z: Sizes, rs: seq<Record>)
    requires |rs| == 2
    ensures RecordSizes(z, rs) == RecordSize(z, rs[0]) + RecordSize(z, rs[1])
  {
    hide RecordSize;
    var last := rs[1..];
    assert last[1..] == [] && last[0] == rs[1];
    assert RecordSizes(z, last) == RecordSize(z, last[0]) + RecordSizes(z, []);
  }
}
