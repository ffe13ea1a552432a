/** The cache as the program keeps it: a linked list, an index of list positions and a byte count. */
module CacheStore {
  import opened Bytes
  import opened Messages
  import opened CacheModel
  import opened CacheResults

  /** A list cell; its id stands for the iterator, which stays good while cells around it move. */
  datatype Node = Node(id: nat, item: Item)

  function Values(nodes: seq<Node>): seq<Item> {
    if nodes == [] then [] else [nodes[0].item] + Values(nodes[1..])
  }

  function Unlink(nodes: seq<Node>, id: nat): seq<Node> {
    if nodes == [] then [] else if nodes[0].id == id then nodes[1..] else [nodes[0]] + Unlink(nodes[1..], id)
  }

  predicate HasNode(nodes: seq<Node>, node: Node) {
    node in nodes
  }

  ghost predicate Listed(nodes: seq<Node>, id: nat) {
    exists i :: 0 <= i < |nodes| && nodes[i].id == id
  }

  function Deref(nodes: seq<Node>, id: nat): Item
    requires Listed(nodes, id)
  {
    if nodes[0].id == id then nodes[0].item else Deref(nodes[1..], id)
  }

  predicate DistinctNodes(nodes: seq<Node>, next: nat) {
    && (forall i :: 0 <= i < |nodes| ==> nodes[i].id < next)
    && (forall i, j :: 0 <= i < j < |nodes| ==> nodes[i].id != nodes[j].id && nodes[i].item.key != nodes[j].item.key)
  }

  /** The index knows every cell, and nothing else. */
  ghost predicate Indexed(nodes: seq<Node>, index: map<CacheKey, nat>) {
    && (forall node :: HasNode(nodes, node) ==> node.item.key in index && index[node.item.key] == node.id)
    && (forall key :: key in index ==> exists node :: HasNode(nodes, node) && node.item.key == key)
  }

  /** Subtraction that stops at zero. */
  function Minus(total: nat, amount: nat): nat {
    if amount <= total then total - amount else 0
  }

  lemma {:induction false} ValuesLength(nodes: seq<Node>)
    ensures |Values(nodes)| == |nodes|
    ensures forall i :: 0 <= i < |nodes| ==> Values(nodes)[i] == nodes[i].item
  {
    if nodes != [] {
      ValuesLength(nodes[1..]);
    }
  }

  lemma {:induction false} HasInFront(first: Node, rest: seq<Node>)
    ensures forall other :: HasNode([first] + rest, other) <==> other == first || HasNode(rest, other)
  {
  }

  /** A cell may stand in front of others that neither share its id nor its key. */
  lemma {:induction false} DistinctInFront(first: Node, rest: seq<Node>, next: nat)
    requires DistinctNodes(rest, next) && first.id < next
    requires forall other :: HasNode(rest, other) ==> other.id != first.id && other.item.key != first.item.key
    ensures DistinctNodes([first] + rest, next)
  {
    forall i | 0 <= i < |rest| ensures first.id != rest[i].id && first.item.key != rest[i].item.key {
      assert HasNode(rest, rest[i]);
    }
  }

  lemma {:induction false} FirstIsDistinct(nodes: seq<Node>, next: nat)
    requires nodes != [] && DistinctNodes(nodes, next)
    ensures DistinctNodes(nodes[1..], next) && nodes[0].id < next
    ensures forall other :: HasNode(nodes[1..], other) ==>
            other.id != nodes[0].id && other.item.key != nodes[0].item.key
  {
  }

  lemma {:induction false} UnlinkStep(nodes: seq<Node>, id: nat)
    requires nodes != []
    ensures Unlink(nodes, id) == if nodes[0].id == id then nodes[1..] else [nodes[0]] + Unlink(nodes[1..], id)
  {
  }

  lemma {:induction false} UnlinkKeepsOthers(nodes: seq<Node>, node: Node, next: nat)
    requires DistinctNodes(nodes, next) && HasNode(nodes, node)
    ensures DistinctNodes(Unlink(nodes, node.id), next)
    ensures forall other :: HasNode(Unlink(nodes, node.id), other) <==> HasNode(nodes, other) && other != node
  {
    assert nodes != [];
    hide DistinctNodes, HasNode, Unlink;
    var first, rest := nodes[0], nodes[1..];
    assert nodes == [first] + rest;
    FirstIsDistinct(nodes, next);
    UnlinkStep(nodes, node.id);
    HasInFront(first, rest);
    if first.id != node.id {
      UnlinkKeepsOthers(rest, node, next);
      HasInFront(first, Unlink(rest, node.id));
      DistinctInFront(first, Unlink(rest, node.id), next);
    }
  }

  lemma {:induction false} UnlinkIsWithout(nodes: seq<Node>, node: Node, next: nat)
    requires DistinctNodes(nodes, next) && HasNode(nodes, node)
    ensures Values(Unlink(nodes, node.id)) == Without(Values(nodes), node.item.key)
    ensures Lookup(Values(nodes), node.item.key) == Some(node.item) && Deref(nodes, node.id) == node.item
  {
    var rest := nodes[1..];
    assert nodes == [nodes[0]] + rest;
    assert Values(nodes)[1..] == Values(rest);
    if nodes[0].id == node.id {
      assert nodes[0] == node;
      AbsentKeyIsAbsent(rest, node.item.key);
      AbsentIsUntouched(Values(rest), node.item.key);
    } else {
      assert HasNode(rest, node);
      assert nodes[0].item.key != node.item.key;
      UnlinkIsWithout(rest, node, next);
      assert Unlink(nodes, node.id)[1..] == Unlink(rest, node.id);
    }
  }

  lemma {:induction false} AbsentKeyIsAbsent(nodes: seq<Node>, key: CacheKey)
    requires forall i :: 0 <= i < |nodes| ==> nodes[i].item.key != key
    ensures Lookup(Values(nodes), key).None?
  {
    if nodes != [] {
      AbsentKeyIsAbsent(nodes[1..], key);
    }
  }

  lemma {:induction false} UnlinkLast(nodes: seq<Node>, next: nat)
    requires nodes != [] && DistinctNodes(nodes, next)
    ensures Unlink(nodes, nodes[|nodes| - 1].id) == nodes[..|nodes| - 1] && |Values(nodes)| == |nodes|
    ensures Values(nodes[..|nodes| - 1]) == Values(nodes)[..|nodes| - 1]
  {
    ValuesLength(nodes);
    ValuesLength(nodes[..|nodes| - 1]);
    if |nodes| > 1 {
      var rest := nodes[1..];
      assert DistinctNodes(rest, next);
      UnlinkLast(rest, next);
      assert rest[|rest| - 1] == nodes[|nodes| - 1];
      assert nodes[..|nodes| - 1] == [nodes[0]] + rest[..|rest| - 1];
    }
  }

  // ----- Charges and TTLs, record by record -----

  method RecordsCharge(z: Sizes, records: seq<Record>) returns (size: nat)
    ensures size == RecordSizes(z, records)
  {
    size := 0;
    for i := 0 to |records|
      invariant size + RecordSizes(z, records[i..]) == RecordSizes(z, records)
    {
      assert records[i..][1..] == records[i + 1..];
      size := size + RecordSize(z, records[i]);
    }
  }

  method MessageCharge(z: Sizes, key: CacheKey, value: Message) returns (size: nat)
    ensures size == MessageSize(z, key, value)
  {
    size := z.item + |key.name|;
    for i := 0 to |value.questions|
      invariant size + QuestionSizes(z, value.questions[i..]) == z.item + |key.name| + QuestionSizes(z, value.questions)
    {
      assert value.questions[i..][1..] == value.questions[i + 1..];
      size := size + z.question + |value.questions[i].name|;
    }
    var answers := RecordsCharge(z, value.answers);
    var authorities := RecordsCharge(z, value.authorities);
    size := size + answers + authorities;
  }

  method StampRecords(records: seq<Record>, now: nat, expire: nat, maxTtl: uint32) returns (stamped: seq<Record>)
    ensures stamped == StampAll(records, now, expire, maxTtl)
  {
    stamped := records;
    for i := 0 to |records|
      invariant |stamped| == |records|
      invariant forall j :: 0 <= j < i ==> stamped[j] == Stamp(records[j], now, expire, maxTtl)
      invariant forall j :: i <= j < |records| ==> stamped[j] == records[j]
    {
      var ttl := Min(stamped[i].ttl, maxTtl);
      stamped := stamped[i := stamped[i].(deadline := Min(expire, now + ttl * 1000))];
    }
  }

  method UpdateTtls(records: seq<Record>, now: nat) returns (updated: seq<Record>)
    ensures updated == RemainingAll(records, now)
  {
    updated := records;
    for i := 0 to |records|
      invariant |updated| == |records|
      invariant forall j :: 0 <= j < i ==> updated[j] == Remaining(records[j], now)
      invariant forall j :: i <= j < |records| ==> updated[j] == records[j]
    {
      var r := updated[i];
      var ttl: uint32 := 0;
      if now < r.deadline {
        ttl := (r.deadline - now) / 1000 % 0x1_0000_0000;
      }
      updated := updated[i := r.(ttl := ttl)];
    }
  }

  /** How long to keep a response; zero when it is not to be kept. */
  method KeepFor(value: Message) returns (ttl: uint32)
    ensures ttl == Lifetime(value)
  {
    var rcode := value.header.flags % 0x10;
    ttl := UINT32_MAX;
    if rcode == 3 || (rcode == 0 && value.answers == []) {
      var i := 0;
      while i < |value.authorities| && !HasSoa(value.authorities[i])
        invariant 0 <= i <= |value.authorities|
        invariant FirstSoa(value.authorities) == FirstSoa(value.authorities[i..])
      {
        assert value.authorities[i..][1..] == value.authorities[i + 1..];
        i := i + 1;
      }
      if i == |value.authorities| {
        return 0;
      }
      ttl := Min(value.authorities[i].ttl, value.authorities[i].payload.minimum);
    } else if rcode == 0 {
      for i := 0 to |value.answers|
        invariant LeastTtl(value.answers) == Min(ttl, LeastTtl(value.answers[i..]))
      {
        assert value.answers[i..][1..] == value.answers[i + 1..];
        if value.answers[i].ttl == 0 {
          return 0;
        }
        ttl := Min(ttl, value.answers[i].ttl);
      }
    } else {
      return 0;
    }
    if ttl == UINT32_MAX {
      return 0;
    }
  }

  class Cache {
    const limits: Limits
    var items: seq<Node>
    var index: map<CacheKey, nat>
    var bytes: nat
    var nextId: nat

    ghost function Contents(): seq<Item>
      reads this
    {
      Values(items)
    }

    /** List, index and byte count agree, and the limits hold. */
    ghost predicate Valid()
      reads this
    {
      && Consistent(items, index, nextId)
      && bytes == TotalCharge(Contents())
      && WithinLimits(limits, Contents())
    }

    constructor (limits: Limits)
      ensures Valid() && Contents() == Run(limits, []) && this.limits == limits
    {
      this.limits := limits;
      items, index, bytes, nextId := [], map[], 0, 0;
    }

    method Erase(id: nat)
      requires Valid()
      requires Listed(items, id)
      modifies this
      ensures Valid()
      ensures Contents() == Without(old(Contents()), Deref(old(items), id).key)
      ensures items == Unlink(old(items), id)
      ensures nextId == old(nextId)
    {
      hide Values, Unlink, Without, TotalCharge, Consistent, EntryCap;
      ghost var i :| 0 <= i < |items| && items[i].id == id;
      ghost var node := items[i];
      ConsistentErase(items, index, nextId, node);
      ghost var before := Contents();
      TotalWithout(before, node.item.key);
      var item := Deref(items, id);
      bytes := Minus(bytes, item.charge);
      index := WithoutKey(index, item.key);
      items := Unlink(items, id);
    }

    method Find(name: bytes, typ: uint16, clas: uint16, now: nat) returns (r: Option<Message>)
      requires Valid()
      modifies this
      ensures Valid()
      ensures Contents() == Touch(old(Contents()), MakeKey(name, typ, clas), now)
      ensures r == Answer(old(Contents()), MakeKey(name, typ, clas), now)
    {
      hide Values, Unlink, Without, TotalCharge, Consistent, Lookup, EntryCap, RemainingAll;
      var key := MakeKey(name, typ, clas);
      IndexIsLookup(items, index, nextId, key);
      if key !in index {
        return None;
      }
      var id := index[key];
      var item := Deref(items, id);
      if now >= item.expire {
        Erase(id);
        return None;
      }
      var answers := UpdateTtls(item.value.answers, now);
      var authorities := UpdateTtls(item.value.authorities, now);
      r := Some(item.value.(answers := answers, authorities := authorities));
      MoveToFront(id, item);
    }

    /** Splicing a cell to the front changes neither the index nor the byte count. */
    method MoveToFront(id: nat, ghost item: Item)
      requires Valid() && HasNode(items, Node(id, item))
      modifies this
      ensures Valid()
      ensures Contents() == [item] + Without(old(Contents()), item.key)
    {
      hide Values, Unlink, Without, TotalCharge, Consistent, EntryCap;
      ghost var before := Contents();
      ConsistentMove(items, index, nextId, Node(id, item));
      TotalWithout(before, item.key);
      items := [Node(id, Deref(items, id))] + Unlink(items, id);
      TotalFromFront(Contents());
      assert Contents()[1..] == Without(before, item.key);
    }

    method InsertWithTtl(key: CacheKey, value: Message, ttl: uint32, now: nat)
      requires Valid()
      modifies this
      ensures Valid()
      ensures Contents() == StoreIfAccepted(limits, old(Contents()), Accepted(limits, key, value, ttl, now))
    {
      hide Values, Unlink, Without, TotalCharge, Consistent, Lookup, EntryCap, StampAll, MessageSize, MakeRoom;
      if ttl == 0 {
        return;
      }
      var expire := now + Min(ttl, limits.maxTtl) * 1000;
      var answers := StampRecords(value.answers, now, expire, limits.maxTtl);
      var authorities := StampRecords(value.authorities, now, expire, limits.maxTtl);
      var kept := value.(additionals := [], answers := answers, authorities := authorities);
      var charge := MessageCharge(limits.sizes, key, kept);
      if charge > limits.maxEntrySize || charge > limits.maxBytes {
        return;
      }
      ghost var before := Contents();
      EraseKey(key);
      EvictFor(charge, Without(before, key), key);
      AddInFront(Item(key, expire, charge, kept));
    }

    method EraseKey(key: CacheKey)
      requires Valid()
      modifies this
      ensures Valid() && key !in index
      ensures Contents() == Without(old(Contents()), key)
    {
      hide Values, Unlink, Without, TotalCharge, Consistent, Lookup, EntryCap;
      IndexIsLookup(items, index, nextId, key);
      if key in index {
        Erase(index[key]);
        WithoutHolds(old(Contents()), key);
        LookupFinds(Contents(), key);
        IndexIsLookup(items, index, nextId, key);
      } else {
        AbsentIsUntouched(Contents(), key);
      }
    }

    method EvictFor(charge: nat, ghost whole: seq<Item>, ghost key: CacheKey)
      requires Valid() && Contents() == whole && charge <= limits.maxBytes && key !in index
      modifies this
      ensures Valid() && key !in index
      ensures Contents() == MakeRoom(limits, whole, charge)
      ensures Fits(limits, Contents(), charge)
    {
      hide Values, Unlink, Without, Consistent, Lookup, EntryCap;
      ValuesLength(items);
      while items != [] && (|items| >= EntryCap(limits.maxBytes) || charge > limits.maxBytes - bytes)
        invariant Valid() && key !in index && |Contents()| == |items|
        invariant MakeRoom(limits, Contents(), charge) == MakeRoom(limits, whole, charge)
        decreases |items|
      {
        EvictLast(charge, key);
        ValuesLength(items);
      }
    }

    method EvictLast(ghost charge: nat, ghost key: CacheKey)
      requires Valid() && items != [] && !Fits(limits, Contents(), charge) && key !in index
      modifies this
      ensures Valid() && |items| < |old(items)| && key !in index
      ensures MakeRoom(limits, Contents(), charge) == MakeRoom(limits, old(Contents()), charge)
    {
      hide Values, Unlink, Without, TotalCharge, Lookup, EntryCap, Fits;
      UnlinkLast(items, nextId);
      ValuesLength(items);
      Erase(items[|items| - 1].id);
    }

    method AddInFront(item: Item)
      requires Valid() && item.key !in index && Fits(limits, Contents(), item.charge)
      modifies this
      ensures Valid()
      ensures Contents() == [item] + old(Contents())
    {
      hide Values, TotalCharge, Consistent, EntryCap;
      ConsistentAdd(items, index, nextId, item);
      ValuesLength(items);
      items := [Node(nextId, item)] + items;
      bytes := bytes + item.charge;
      index := WithKey(index, item.key, nextId);
      nextId := nextId + 1;
      TotalFromFront(Contents());
      assert Contents()[1..] == old(Contents());
    }

    method Insert(name: bytes, typ: uint16, clas: uint16, value: Message, now: nat)
      requires Valid()
      modifies this
      ensures Valid()
      ensures Contents() == Apply(limits, old(Contents()), Op.Insert(MakeKey(name, typ, clas), value, now))
    {
      hide Lifetime, Accepted, StoreIfAccepted, Valid;
      var ttl := KeepFor(value);
      InsertWithTtl(MakeKey(name, typ, clas), value, ttl, now);
    }

    method InsertFailure(name: bytes, typ: uint16, clas: uint16, value: Message, ttl: uint32, now: nat)
      requires Valid()
      modifies this
      ensures Valid()
      ensures Contents() == Apply(limits, old(Contents()), Op.InsertFailure(MakeKey(name, typ, clas), value, ttl, now))
    {
      hide Accepted, StoreIfAccepted, Valid;
      InsertWithTtl(MakeKey(name, typ, clas), value, Min(300, Max(1, ttl)), now);
    }
  }

  ghost predicate Consistent(nodes: seq<Node>, index: map<CacheKey, nat>, next: nat) {
    DistinctNodes(nodes, next) && Indexed(nodes, index)
  }

  function WithoutKey(index: map<CacheKey, nat>, key: CacheKey): (r: map<CacheKey, nat>)
    ensures forall k :: k in r <==> k in index && k != key
    ensures forall k :: k in r ==> r[k] == index[k]
  {
    index - {key}
  }

  function WithKey(index: map<CacheKey, nat>, key: CacheKey, id: nat): (r: map<CacheKey, nat>)
    ensures forall k :: k in r <==> k in index || k == key
    ensures forall k :: k in r ==> r[k] == if k == key then id else index[k]
  {
    index[key := id]
  }

  lemma {:induction false} ConsistentErase(nodes: seq<Node>, index: map<CacheKey, nat>, next: nat, node: Node)
    requires Consistent(nodes, index, next) && HasNode(nodes, node)
    ensures Consistent(Unlink(nodes, node.id), WithoutKey(index, node.item.key), next)
    ensures Values(Unlink(nodes, node.id)) == Without(Values(nodes), node.item.key)
    ensures Deref(nodes, node.id) == node.item && Lookup(Values(nodes), node.item.key) == Some(node.item)
    ensures Distinct(Values(nodes))
  {
    UnlinkIsWithout(nodes, node, next);
    UnlinkKeepsOthers(nodes, node, next);
    ValuesLength(nodes);
    var left := Unlink(nodes, node.id);
    forall other | HasNode(left, other) ensures other.item.key != node.item.key {
      assert HasNode(nodes, other) && other != node;
    }
    forall key | key in WithoutKey(index, node.item.key)
      ensures exists other :: HasNode(left, other) && other.item.key == key
    {
      var other :| HasNode(nodes, other) && other.item.key == key;
      assert HasNode(left, other);
    }
  }

  lemma {:induction false} ConsistentMove(nodes: seq<Node>, index: map<CacheKey, nat>, next: nat, node: Node)
    requires Consistent(nodes, index, next) && HasNode(nodes, node)
    ensures Consistent([node] + Unlink(nodes, node.id), index, next)
    ensures Deref(nodes, node.id) == node.item
    ensures Values([node] + Unlink(nodes, node.id)) == [node.item] + Without(Values(nodes), node.item.key)
    ensures Lookup(Values(nodes), node.item.key) == Some(node.item) && Distinct(Values(nodes))
  {
    hide Indexed, Lookup, Without;
    var left := Unlink(nodes, node.id);
    UnlinkIsWithout(nodes, node, next);
    ValuesLength(nodes);
    assert ([node] + left)[1..] == left;
    DistinctMove(nodes, next, node);
    IndexedMove(nodes, index, next, node);
  }

  lemma {:induction false} DistinctMove(nodes: seq<Node>, next: nat, node: Node)
    requires DistinctNodes(nodes, next) && HasNode(nodes, node)
    ensures DistinctNodes([node] + Unlink(nodes, node.id), next)
  {
    hide Unlink;
    var left := Unlink(nodes, node.id);
    UnlinkKeepsOthers(nodes, node, next);
    forall i | 0 <= i < |left| ensures left[i].id != node.id && left[i].item.key != node.item.key {
      assert HasNode(left, left[i]);
      assert HasNode(nodes, left[i]);
    }
  }

  lemma {:induction false} IndexedMove(nodes: seq<Node>, index: map<CacheKey, nat>, next: nat, node: Node)
    requires Consistent(nodes, index, next) && HasNode(nodes, node)
    ensures Indexed([node] + Unlink(nodes, node.id), index)
  {
    hide Unlink;
    var left := Unlink(nodes, node.id);
    UnlinkKeepsOthers(nodes, node, next);
    forall other ensures HasNode([node] + left, other) <==> HasNode(nodes, other) {
      assert HasNode([node] + left, other) <==> other == node || HasNode(left, other);
    }
  }

  lemma {:induction false} ConsistentAdd(nodes: seq<Node>, index: map<CacheKey, nat>, next: nat, item: Item)
    requires Consistent(nodes, index, next) && item.key !in index
    ensures Consistent([Node(next, item)] + nodes, WithKey(index, item.key, next), next + 1)
    ensures Values([Node(next, item)] + nodes) == [item] + Values(nodes)
  {
    var node := Node(next, item);
    assert ([node] + nodes)[1..] == nodes;
    NewIsDistinct(nodes, index, next, item.key);
    hide DistinctNodes, Indexed, HasNode, WithKey;
    DistinctInFront(node, nodes, next + 1);
    IndexedAdd(nodes, index, node);
  }

  /** A key that is not indexed, and the next id, are nobody's. */
  lemma {:induction false} NewIsDistinct(nodes: seq<Node>, index: map<CacheKey, nat>, next: nat, key: CacheKey)
    requires Consistent(nodes, index, next) && key !in index
    ensures DistinctNodes(nodes, next + 1)
    ensures forall other :: HasNode(nodes, other) ==> other.id != next && other.item.key != key
  {
  }

  lemma {:induction false} IndexedAdd(nodes: seq<Node>, index: map<CacheKey, nat>, node: Node)
    requires Indexed(nodes, index)
    requires forall other :: HasNode(nodes, other) ==> other.item.key != node.item.key
    ensures Indexed([node] + nodes, WithKey(index, node.item.key, node.id))
  {
    HasInFront(node, nodes);
    hide HasNode;
    var more := [node] + nodes;
    forall key | key in WithKey(index, node.item.key, node.id)
      ensures exists other :: HasNode(more, other) && other.item.key == key
    {
      if key == node.item.key {
        assert HasNode(more, node);
      } else {
        var other :| HasNode(nodes, other) && other.item.key == key;
        assert HasNode(more, other);
      }
    }
  }

  /** A key is indexed exactly when a search of the list would find it, and leads to the same entry. */
  lemma {:induction false} IndexIsLookup(nodes: seq<Node>, index: map<CacheKey, nat>, next: nat, key: CacheKey)
    requires Consistent(nodes, index, next)
    ensures key in index <==> Lookup(Values(nodes), key).Some?
    ensures key in index ==> HasNode(nodes, Node(index[key], Lookup(Values(nodes), key).value))
                             && Lookup(Values(nodes), key).value.key == key
                             && Deref(nodes, index[key]) == Lookup(Values(nodes), key).value
  {
    if key in index {
      var node :| HasNode(nodes, node) && node.item.key == key;
      UnlinkIsWithout(nodes, node, next);
    } else {
      forall i | 0 <= i < |nodes| ensures nodes[i].item.key != key {
        assert HasNode(nodes, nodes[i]);
      }
      AbsentKeyIsAbsent(nodes, key);
    }
  }
}
