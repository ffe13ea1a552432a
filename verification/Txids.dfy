/** The transaction ids in use, one set for the queries of the UDP and the TCP side alike. */
module Txids {
  import opened Bytes

  const MAX_TXID_RETRIES := 100

  /** Ids are kept apart per upstream address; the port does not take part. */
  datatype Txid = Txid(address: nat, id: uint16)

  /** The random draws of one allocation; what is not listed is zero. */
  function Draw(draws: seq<uint16>, retry: nat): uint16 {
    if retry < |draws| then draws[retry] else 0
  }

  predicate Taken(txids: map<Txid, nat>, address: nat, draws: seq<uint16>, retry: nat) {
    Txid(address, Draw(draws, retry)) in txids
  }

  function FreeFrom(txids: map<Txid, nat>, address: nat, draws: seq<uint16>, retry: nat): Option<uint16>
    decreases MAX_TXID_RETRIES - retry
  {
    if retry >= MAX_TXID_RETRIES then None
    else if Taken(txids, address, draws, retry) then FreeFrom(txids, address, draws, retry + 1)
    else Some(Draw(draws, retry))
  }

  /** allocate_txid: the first draw that is not taken, of a hundred. */
  function FirstFree(txids: map<Txid, nat>, address: nat, draws: seq<uint16>): Option<uint16> {
    FreeFrom(txids, address, draws, 0)
  }

  /** release_txid. */
  function ReleaseTxid(txids: map<Txid, nat>, t: Txid): map<Txid, nat> {
    txids - {t}
  }

  /** What is left after the sweep, which goes by age alone. */
  function Young(txids: map<Txid, nat>, now: nat, timeout: nat): map<Txid, nat> {
    map t | t in txids && now - txids[t] < timeout :: txids[t]
  }

  lemma {:induction false} FreeFromExactly(txids: map<Txid, nat>, address: nat, draws: seq<uint16>, retry: nat)
    requires retry <= MAX_TXID_RETRIES
    ensures FreeFrom(txids, address, draws, retry).None? <==>
            forall i :: retry <= i < MAX_TXID_RETRIES ==> Taken(txids, address, draws, i)
    ensures forall id :: FreeFrom(txids, address, draws, retry) == Some(id) ==> Txid(address, id) !in txids
    decreases MAX_TXID_RETRIES - retry
  {
    if retry < MAX_TXID_RETRIES {
      FreeFromExactly(txids, address, draws, retry + 1);
    }
  }

  /** An id that is handed out was free, and none is handed out exactly when all hundred draws are taken. */
  lemma {:induction false} FirstFreeExactly(txids: map<Txid, nat>, address: nat, draws: seq<uint16>)
    ensures FirstFree(txids, address, draws).None? <==>
            forall i :: 0 <= i < MAX_TXID_RETRIES ==> Taken(txids, address, draws, i)
    ensures FirstFree(txids, address, draws).Some? ==>
            Txid(address, FirstFree(txids, address, draws).value) !in txids
  {
    FreeFromExactly(txids, address, draws, 0);
  }

  /** Draw i, zero where none is listed, is an id in use. */
  predicate InUse(txids: map<Txid, nat>, address: nat, draws: seq<uint16>, i: nat) {
    Txid(address, if i < |draws| then draws[i] else 0) in txids
  }

  lemma {:induction false} TakenIsInUse(txids: map<Txid, nat>, address: nat, draws: seq<uint16>, i: nat)
    ensures Taken(txids, address, draws, i) <==> InUse(txids, address, draws, i)
  {
  }

  lemma {:induction false} FreeFromIsFirst(txids: map<Txid, nat>, address: nat, draws: seq<uint16>, retry: nat)
      returns (k: nat)
    requires FreeFrom(txids, address, draws, retry).Some?
    ensures retry <= k < 100 && !InUse(txids, address, draws, k)
    ensures forall i :: retry <= i < k ==> InUse(txids, address, draws, i)
    ensures FreeFrom(txids, address, draws, retry) == Some(if k < |draws| then draws[k] else 0)
    decreases MAX_TXID_RETRIES - retry
  {
    hide InUse;
    TakenIsInUse(txids, address, draws, retry);
    if Taken(txids, address, draws, retry) {
      k := FreeFromIsFirst(txids, address, draws, retry + 1);
    } else {
      k := retry;
    }
  }

  /** Of a hundred draws the first that is not in use is handed out; without one, nothing is. */
  lemma {:induction false} HundredDraws(txids: map<Txid, nat>, address: nat, draws: seq<uint16>)
    ensures FirstFree(txids, address, draws).None? <==> forall i :: 0 <= i < 100 ==> InUse(txids, address, draws, i)
    ensures FirstFree(txids, address, draws).Some? ==>
            exists k :: 0 <= k < 100 && !InUse(txids, address, draws, k)
              && (forall i :: 0 <= i < k ==> InUse(txids, address, draws, i))
              && FirstFree(txids, address, draws).value == if k < |draws| then draws[k] else 0
  {
    hide InUse, Taken;
    FreeFromExactly(txids, address, draws, 0);
    forall i: nat ensures Taken(txids, address, draws, i) <==> InUse(txids, address, draws, i) {
      TakenIsInUse(txids, address, draws, i);
    }
    if FirstFree(txids, address, draws).Some? {
      var k := FreeFromIsFirst(txids, address, draws, 0);
    } else {
      assert forall i :: 0 <= i < 100 ==> Taken(txids, address, draws, i);
    }
  }

  /** The loop of allocate_txid; filing the id is left to the caller. */
  method DrawFree(txids: map<Txid, nat>, address: nat, draws: seq<uint16>) returns (id: Option<uint16>)
    ensures id == FirstFree(txids, address, draws)
  {
    for retry := 0 to MAX_TXID_RETRIES
      invariant FirstFree(txids, address, draws) == FreeFrom(txids, address, draws, retry)
    {
      var draw := if retry < |draws| then draws[retry] else 0;
      if Txid(address, draw) !in txids {
        return Some(draw);
      }
    }
    id := None;
  }
}
