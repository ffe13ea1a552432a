/** Messages over a TCP connection, behind a two-octet length (section 4.2.2 of RFC 1035). */
module TcpFraming {
  import opened Bytes
  import opened Messages
  import opened MessageCodec
  import opened MessageRoundTrip

  const READ_SIZE := 4096

  // ----- What a stream of octets holds -----

  datatype Frame =
    | Incomplete
    | TooShort
    | Whole(body: bytes, rest: bytes)

  function FirstFrame(s: bytes): (f: Frame)
    ensures f.Whole? ==> HEADER_SIZE <= |f.body| <= UINT16_MAX && s == U16(|f.body|) + f.body + f.rest
  {
    if |s| < 2 then Incomplete
    else if ReadU16(s, 0) < HEADER_SIZE then TooShort
    else if |s| < 2 + ReadU16(s, 0) then Incomplete
    else
      LengthOctets(s);
      Whole(s[2..2 + ReadU16(s, 0)], s[2 + ReadU16(s, 0)..])
  }

  lemma {:induction false} LengthOctets(s: bytes)
    requires |s| >= 2
    ensures U16(ReadU16(s, 0)) == s[..2]
  {
  }

  /** The messages a stream delivers, None for a frame that does not parse. */
  function Deliveries(s: bytes): seq<Option<Message>>
    decreases |s|
  {
    match FirstFrame(s)
    case Whole(body, rest) => [ParseMessage(body)] + Deliveries(rest)
    case _ => []
  }

  /** What is left of a stream behind its last whole frame. */
  function LeftOver(s: bytes): bytes
    decreases |s|
  {
    match FirstFrame(s)
    case Whole(body, rest) => LeftOver(rest)
    case _ => s
  }

  // ----- One call of the reader -----

  datatype ReadResult =
    | NeedMore
    | Ready(message: Message)
    | Malformed
    | Error

  predicate EndsFrame(s: bytes) {
    FirstFrame(s).Whole? && FirstFrame(s).rest == []
  }

  /**
    * What a call that held `before` of a frame, took `taken` from the socket and now holds `after`
    * may have reported: a result exactly at the end of a frame, of exactly that frame, and nothing
    * taken beyond it; or an error when the length is too small or the socket failed.
    */
  predicate ReadOutcome(before: bytes, taken: bytes, result: ReadResult, after: bytes) {
    var all := before + taken;
    match result
    case NeedMore => FirstFrame(all) == Incomplete && after == all
    case Ready(m) => EndsFrame(all) && ParseMessage(FirstFrame(all).body) == Some(m) && after == []
    case Malformed => EndsFrame(all) && ParseMessage(FirstFrame(all).body) == None && after == []
    case Error => (if FirstFrame(all) == TooShort then |all| == 2 else FirstFrame(all) == Incomplete) && after == all
  }

  /** A call only gives up when the socket has stalled or died, or the length is too small. */
  predicate StoppedBecause(result: ReadResult, all: bytes, status: Status) {
    && (result == NeedMore ==> status == Stalled)
    && (result == Error ==> status == Dead || FirstFrame(all) == TooShort)
  }

  lemma {:induction false} OutcomeRegroups(before: bytes, first: bytes, second: bytes, result: ReadResult, after: bytes)
    requires ReadOutcome(before + first, second, result, after)
    ensures ReadOutcome(before, first + second, result, after)
  {
    Concat(before, first, second);
  }

  // ----- Sockets -----

  /** What the operating system makes of one call: some octets, a signal, no progress, or failure. */
  datatype Outcome = Moves(n: nat) | Interrupted | WouldBlock | Failed

  datatype Received = Data(data: bytes) | Again | Blocked | Broken

  datatype SentResult = Accepted(n: nat) | Retry | Full | Lost

  /** How the last call on a socket went. */
  datatype Status = Moving | Stalled | Dead

  class Socket {
    var status: Status
    var incoming: bytes
    var sent: bytes
    var outcomes: seq<Outcome>

    constructor (incoming: bytes, outcomes: seq<Outcome>)
      ensures this.incoming == incoming && this.outcomes == outcomes && sent == [] && status == Moving
    {
      this.incoming, this.outcomes, sent, status := incoming, outcomes, [], Moving;
    }

    method Recv(limit: nat) returns (r: Received)
      requires 0 < limit
      modifies this
      ensures sent == old(sent)
      ensures r.Data? ==> 0 < |r.data| <= limit && old(incoming) == r.data + incoming
      ensures !r.Data? ==> incoming == old(incoming)
      ensures r.Data? || r.Again? ==> |outcomes| < |old(outcomes)|
      ensures r.Blocked? <==> status == Stalled
      ensures r.Broken? <==> status == Dead
    {
      status := Moving;
      if outcomes == [] {
        status := Stalled;
        return Blocked;
      }
      var o := outcomes[0];
      outcomes := outcomes[1..];
      match o {
        case Moves(n) =>
          var k: nat := Min(Max(n, 1), Min(limit, |incoming|));
          if k == 0 {
            status := Dead;
            return Broken;
          }
          r := Data(incoming[..k]);
          incoming := incoming[k..];
        case Interrupted => return Again;
        case WouldBlock =>
          status := Stalled;
          return Blocked;
        case Failed =>
          status := Dead;
          return Broken;
      }
    }

    method Send(data: bytes) returns (r: SentResult)
      requires data != []
      modifies this
      ensures incoming == old(incoming)
      ensures r.Accepted? ==> 0 < r.n <= |data| && sent == old(sent) + data[..r.n]
      ensures !r.Accepted? ==> sent == old(sent)
      ensures r.Accepted? || r.Retry? ==> |outcomes| < |old(outcomes)|
      ensures r.Full? <==> status == Stalled
      ensures r.Lost? <==> status == Dead
    {
      status := Moving;
      if outcomes == [] {
        status := Stalled;
        return Full;
      }
      var o := outcomes[0];
      outcomes := outcomes[1..];
      match o {
        case Moves(n) =>
          var k: nat := Min(Max(n, 1), |data|);
          sent := sent + data[..k];
          r := Accepted(k);
        case Interrupted => return Retry;
        case WouldBlock =>
          status := Stalled;
          return Full;
        case Failed =>
          status := Dead;
          return Lost;
      }
    }
  }

  // ----- The reassembly state of a task -----

  class Reader {
    var buffer: bytes
    var expected: nat

    constructor ()
      ensures Valid() && Pending() == []
    {
      buffer, expected := [], 0;
    }

    ghost predicate Valid()
      reads this
    {
      if expected == 0 then |buffer| <= 2
      else HEADER_SIZE <= expected <= UINT16_MAX && |buffer| <= expected
    }

    /** The part of the current frame that has been taken from the socket. */
    ghost function Pending(): bytes
      requires Valid()
      reads this
    {
      if expected == 0 then buffer else U16(expected) + buffer
    }

    method ReadMessage(socket: Socket) returns (r: ReadResult, ghost taken: bytes)
      requires Valid() && FirstFrame(Pending()) == Incomplete
      modifies this, socket
      ensures Valid() && socket.sent == old(socket.sent)
      ensures old(socket.incoming) == taken + socket.incoming
      ensures ReadOutcome(old(Pending()), taken, r, Pending())
      ensures StoppedBecause(r, old(Pending()) + taken, socket.status)
    {
      hide FirstFrame, ReadOutcome, StoppedBecause, U16, ParseMessage, Valid, Pending;
      taken := [];
      ghost var before, stream := Pending(), socket.incoming;
      assert before + [] == before && [] + stream == stream;
      r := NeedMore;
      var done := false;
      while !done
        invariant Valid() && socket.sent == old(socket.sent)
        invariant stream == taken + socket.incoming
        invariant !done ==> before + taken == Pending()
        invariant done ==> ReadOutcome(before, taken, r, Pending()) && StoppedBecause(r, before + taken, socket.status)
        decreases !done, |socket.outcomes|, if expected == 0 then 1 else 0
      {
        done, r, taken := Advance(socket, before, taken, stream);
      }
    }

    method Advance(socket: Socket, ghost before: bytes, ghost taken: bytes, ghost stream: bytes)
      returns (done: bool, r: ReadResult, ghost all: bytes)
      requires Valid() && before + taken == Pending() && stream == taken + socket.incoming
      modifies this, socket
      ensures Valid() && socket.sent == old(socket.sent)
      ensures stream == all + socket.incoming
      ensures !done ==> before + all == Pending()
      ensures done ==> ReadOutcome(before, all, r, Pending()) && StoppedBecause(r, before + all, socket.status)
      ensures !done ==> |socket.outcomes| < |old(socket.outcomes)|
                        || (socket.outcomes == old(socket.outcomes) && old(expected) == 0 && expected != 0)
    {
      hide FirstFrame, ReadOutcome, StoppedBecause, U16, ParseMessage, Valid, Pending;
      ghost var more;
      if expected == 0 {
        done, r, more := ReadLength(socket);
      } else {
        done, r, more := ReadBody(socket);
      }
      if done {
        OutcomeRegroups(before, taken, more, r, Pending());
      }
      all := taken + more;
      Concat(before, taken, more);
      Concat(taken, more, socket.incoming);
    }

    method ReadLength(socket: Socket) returns (done: bool, r: ReadResult, ghost more: bytes)
      requires Valid() && expected == 0
      modifies this, socket
      ensures Valid() && socket.sent == old(socket.sent)
      ensures old(socket.incoming) == more + socket.incoming
      ensures !done ==> old(Pending()) + more == Pending()
      ensures done ==> ReadOutcome(old(Pending()), more, r, Pending())
      ensures done ==> StoppedBecause(r, old(Pending()) + more, socket.status)
      ensures !done ==> |socket.outcomes| < |old(socket.outcomes)|
                        || (socket.outcomes == old(socket.outcomes) && expected != 0)
    {
      more := [];
      assert buffer + [] == buffer;
      if |buffer| < 2 {
        var got := socket.Recv(2 - |buffer|);
        match got {
          case Data(data) =>
            buffer, more := buffer + data, data;
            return false, NeedMore, data;
          case Again => return false, NeedMore, [];
          case Broken => return true, Error, [];
          case Blocked => return true, NeedMore, [];
        }
      }
      var len := ReadU16(buffer, 0);
      if len < HEADER_SIZE {
        return true, Error, [];
      }
      LengthOctets(buffer);
      expected, buffer := len, [];
      return false, NeedMore, [];
    }

    method ReadBody(socket: Socket) returns (done: bool, r: ReadResult, ghost more: bytes)
      requires Valid() && expected != 0
      modifies this, socket
      ensures Valid() && socket.sent == old(socket.sent)
      ensures old(socket.incoming) == more + socket.incoming
      ensures !done ==> old(Pending()) + more == Pending() && expected != 0
      ensures done ==> ReadOutcome(old(Pending()), more, r, Pending())
      ensures done ==> StoppedBecause(r, old(Pending()) + more, socket.status)
      ensures !done ==> |socket.outcomes| < |old(socket.outcomes)|
    {
      hide ParseMessage, U16;
      more := [];
      ghost var p := Pending();
      assert p + [] == p;
      FrameOfPending(expected, buffer);
      var need := expected - |buffer|;
      if need == 0 {
        var m := ParseMessage(buffer);
        expected, buffer := 0, [];
        match m {
          case None => return true, Malformed, [];
          case Some(message) => return true, Ready(message), [];
        }
      }
      var got := socket.Recv(Min(need, READ_SIZE));
      match got {
        case Data(data) =>
          Concat(U16(expected), buffer, data);
          buffer := buffer + data;
          return false, NeedMore, data;
        case Again => return false, NeedMore, [];
        case Broken => return true, Error, [];
        case Blocked => return true, NeedMore, [];
      }
    }
  }

  lemma {:induction false} FrameOfPending(expected: uint16, buffer: bytes)
    requires HEADER_SIZE <= expected && |buffer| <= expected
    ensures FirstFrame(U16(expected) + buffer) ==
              if |buffer| < expected then Incomplete else Whole(buffer, [])
  {
    var s := U16(expected) + buffer;
    assert s[0..2] == U16(expected);
    ReadBackU16(s, 0, expected);
    assert s[2..] == buffer;
    if |buffer| == expected {
      assert s[2..2 + |buffer|] == buffer;
    }
  }

  // ----- Many calls -----

  datatype Call = Call(taken: bytes, result: ReadResult)

  function TakenBy(calls: seq<Call>): bytes {
    if calls == [] then [] else calls[0].taken + TakenBy(calls[1..])
  }

  /** What the calls reported, in order, leaving out those that had to wait. */
  function Reported(calls: seq<Call>): seq<Option<Message>> {
    if calls == [] then [] else
      match calls[0].result
      case Ready(m) => [Some(m)] + Reported(calls[1..])
      case Malformed => [None] + Reported(calls[1..])
      case _ => Reported(calls[1..])
  }

  /** A chain of calls, none failing, that each start from what the one before held. */
  ghost predicate ReadRun(before: bytes, calls: seq<Call>, after: bytes)
    decreases |calls|
  {
    if calls == [] then before == after && FirstFrame(before) == Incomplete
    else exists held: bytes :: ReadOutcome(before, calls[0].taken, calls[0].result, held)
                               && calls[0].result != Error && ReadRun(held, calls[1..], after)
  }

  /**
    * However the stream is cut into reads, and however often a read is suspended and taken up again,
    * the calls report exactly the messages that the octets they took hold, in order, and hold exactly
    * what is left over.
    */
  lemma {:induction false} ReadsAreChunkIndependent(before: bytes, calls: seq<Call>, after: bytes)
    requires ReadRun(before, calls, after)
    ensures Reported(calls) == Deliveries(before + TakenBy(calls))
    ensures after == LeftOver(before + TakenBy(calls))
    decreases |calls|
  {
    hide ParseMessage, FirstFrame;
    if calls == [] {
      assert before + [] == before;
    } else {
      var held: bytes :| ReadOutcome(before, calls[0].taken, calls[0].result, held) && ReadRun(held, calls[1..], after);
      ReadsAreChunkIndependent(held, calls[1..], after);
      var all, later := before + calls[0].taken, TakenBy(calls[1..]);
      Concat(before, calls[0].taken, later);
      assert [] + later == later;
      if FirstFrame(all).Whole? {
        FrameWithMore(all, later);
      }
    }
  }

  lemma {:induction false} FrameWithMore(s: bytes, more: bytes)
    requires FirstFrame(s).Whole? && FirstFrame(s).rest == []
    ensures FirstFrame(s + more) == Whole(FirstFrame(s).body, more)
  {
    var body := FirstFrame(s).body;
    assert s + more == U16(|body|) + body + more by {
      assert s == U16(|body|) + body + [];
    }
    FrameReads(body, more);
  }

  /** A body behind its own length is the first frame of whatever it begins. */
  lemma {:induction false} FrameReads(body: bytes, more: bytes)
    requires HEADER_SIZE <= |body| <= UINT16_MAX
    ensures FirstFrame(U16(|body|) + body + more) == Whole(body, more)
  {
    var s := U16(|body|) + body + more;
    assert s[0..2] == U16(|body|);
    ReadBackU16(s, 0, |body|);
    assert s[2..2 + |body|] == body && s[2 + |body|..] == more;
  }

  // ----- Writing -----

  datatype WriteResult = Done | WriteNeedMore | WriteError

  class Writer {
    const fd: int
    var buffer: bytes
    var offset: nat

    constructor (fd: int, buffer: bytes)
      ensures this.fd == fd && this.buffer == buffer && offset == 0
    {
      this.fd, this.buffer, offset := fd, buffer, 0;
    }

    /**
      * Every octet goes out once and in order: what has been sent is always the buffer as far as the
      * offset, and the whole of it when the call says so.
      */
    method WriteBuffer(socket: Socket) returns (r: WriteResult)
      modifies this, socket
      ensures buffer == old(buffer) && socket.incoming == old(socket.incoming)
      ensures fd == -1 || old(offset) > |buffer| ==>
              r == WriteError && offset == old(offset) && socket.sent == old(socket.sent)
      ensures fd != -1 && old(offset) <= |buffer| ==>
                && old(offset) <= offset <= |buffer|
                && socket.sent == old(socket.sent) + buffer[old(offset)..offset]
                && (r == Done <==> offset == |buffer|)
                && (r == WriteNeedMore <==> offset < |buffer| && socket.status == Stalled)
                && (r == WriteError <==> offset < |buffer| && socket.status == Dead)
    {
      if fd == -1 || offset > |buffer| {
        return WriteError;
      }
      ghost var start, before := offset, socket.sent;
      assert before + buffer[start..start] == before;
      while offset < |buffer|
        invariant start <= offset <= |buffer| && buffer == old(buffer)
        invariant socket.sent == before + buffer[start..offset]
        invariant socket.incoming == old(socket.incoming)
        decreases |buffer| - offset, |socket.outcomes|
      {
        var s := socket.Send(buffer[offset..]);
        match s {
          case Accepted(n) =>
            assert buffer[start..offset] + buffer[offset..][..n] == buffer[start..offset + n];
            offset := offset + n;
          case Retry =>
          case Full => return WriteNeedMore;
          case Lost => return WriteError;
        }
      }
      return Done;
    }
  }

  // ----- From one end to the other -----

  /**
    * A packet written to a connection is read back from it, by any chain of calls that takes just
    * those octets, as one result: the same message exactly when the message respects the rules.
    */
  lemma {:induction false} PacketCrosses(msg: Message, udpLimit: uint16, calls: seq<Call>, after: bytes)
    requires PacketFor(msg, true, udpLimit).Some?
    requires ReadRun([], calls, after) && TakenBy(calls) == PacketFor(msg, true, udpLimit).value
    ensures after == [] && |Reported(calls)| == 1
    ensures EncodeMessage(msg).Some? && (RoundTrippable(msg) <==> Reported(calls)[0] == Some(CanonMessage(msg)))
  {
    hide ParseMessage, EncodeMessage, FirstFrame, ReadRun, RoundTrippable, CanonMessage;
    RoundTripExactly(msg);
    var packet, body := PacketFor(msg, true, udpLimit).value, EncodeMessage(msg).value;
    ReadsAreChunkIndependent([], calls, after);
    assert [] + packet == packet;
    EncodingHasHeader(msg);
    FrameReads(body, []);
    assert packet == U16(|body|) + body + [];
    NothingToDeliver();
  }

  lemma {:induction false} NothingToDeliver()
    ensures Deliveries([]) == [] && LeftOver([]) == []
  {
  }

  lemma {:induction false} EncodingHasHeader(msg: Message)
    requires EncodeMessage(msg).Some?
    ensures |EncodeMessage(msg).value| >= HEADER_SIZE
  {
  }
}
