/** What the framing of TCP messages comes to octet by octet, and for whole streams. */
module TcpStreams {
  import opened Bytes
  import opened Messages
  import opened MessageCodec
  import opened TcpFraming

  /** A message that may stand in a frame: at least a header, at most what two octets can count. */
  predicate Carried(body: bytes) {
    12 <= |body| <= 65535
  }

  /** A message behind its length, the high octet first. */
  function Frame(body: bytes): bytes
    requires Carried(body)
  {
    [|body| / 256, |body| % 256] + body
  }

  lemma {:induction false} FramesExactly(s: bytes, body: bytes, rest: bytes)
    ensures FirstFrame(s) == Whole(body, rest) <==> Carried(body) && s == Frame(body) + rest
  {
    if Carried(body) && s == Frame(body) + rest {
      assert s[0] == |body| / 256 && s[1] == |body| % 256;
      assert s[2..2 + |body|] == body && s[2 + |body|..] == rest;
    }
  }

  /** A length below that of a header is an error as soon as it is there. */
  lemma {:induction false} ShortExactly(s: bytes)
    ensures FirstFrame(s) == TooShort <==> |s| >= 2 && s[0] == 0 && s[1] < 12
  {
  }

  ghost predicate Completes(s: bytes, missing: bytes, body: bytes) {
    missing != [] && Carried(body) && s + missing == Frame(body)
  }

  /** A frame is incomplete exactly if something can complete it. */
  lemma {:induction false} IncompleteExactly(s: bytes)
    ensures FirstFrame(s) == Incomplete <==> exists missing, body :: Completes(s, missing, body)
  {
    hide FirstFrame;
    forall missing, body | Completes(s, missing, body) ensures FirstFrame(s) == Incomplete {
      PartIsIncomplete(s, missing, body);
    }
    if FirstFrame(s) == Incomplete {
      var missing, body := Completion(s);
      assert Completes(s, missing, body);
    }
  }

  lemma {:induction false} PartIsIncomplete(s: bytes, missing: bytes, body: bytes)
    requires Completes(s, missing, body)
    ensures FirstFrame(s) == Incomplete
  {
    var all := s + missing;
    assert all[0] == |body| / 256 && all[1] == |body| % 256;
    assert |s| >= 1 ==> s[0] == all[0];
    assert |s| >= 2 ==> s[1] == all[1];
  }

  lemma {:induction false} Completion(s: bytes) returns (missing: bytes, body: bytes)
    requires FirstFrame(s) == Incomplete
    ensures Completes(s, missing, body)
  {
    var high := if |s| >= 1 then s[0] else 1;
    var low := if |s| >= 2 then s[1] else 12;
    var n: nat := high * 256 + low;
    assert n >= 12;
    var zeros := seq(n, i => 0 as byte);
    if |s| < 2 {
      body, missing := zeros, [high, low][|s|..] + zeros;
      assert s == [high, low][..|s|];
      assert s + missing == [high, low] + body;
    } else {
      body := s[2..] + zeros[|s| - 2..];
      missing := zeros[|s| - 2..];
      assert s == [high, low] + s[2..];
      assert s + missing == [high, low] + body;
    }
  }

  // ----- Whole streams -----

  predicate AllCarried(bodies: seq<bytes>) {
    forall i :: 0 <= i < |bodies| ==> Carried(bodies[i])
  }

  function Stream(bodies: seq<bytes>): bytes
    requires AllCarried(bodies)
  {
    if bodies == [] then [] else Frame(bodies[0]) + Stream(bodies[1..])
  }

  function Parsed(bodies: seq<bytes>): (r: seq<Option<Message>>)
    ensures |r| == |bodies|
    ensures forall i :: 0 <= i < |bodies| ==> r[i] == ParseMessage(bodies[i])
  {
    seq(|bodies|, i requires 0 <= i < |bodies| => ParseMessage(bodies[i]))
  }

  /** Of messages in frames one behind the other, each is delivered, in order, and what follows them is kept. */
  lemma {:induction false} StreamsAreDelivered(bodies: seq<bytes>, tail: bytes)
    requires AllCarried(bodies) && !FirstFrame(tail).Whole?
    ensures Deliveries(Stream(bodies) + tail) == Parsed(bodies)
    ensures LeftOver(Stream(bodies) + tail) == tail
  {
    hide ParseMessage, FirstFrame;
    var s := Stream(bodies) + tail;
    if bodies == [] {
      assert s == tail;
    } else {
      var more := Stream(bodies[1..]) + tail;
      Concat(Frame(bodies[0]), Stream(bodies[1..]), tail);
      FramesExactly(s, bodies[0], more);
      StreamsAreDelivered(bodies[1..], tail);
      assert Parsed(bodies) == [ParseMessage(bodies[0])] + Parsed(bodies[1..]);
    }
  }

  // ----- One call -----

  ghost predicate Ended(all: bytes, body: bytes) {
    Carried(body) && all == Frame(body)
  }

  /** Nothing but a length below that of a header. */
  predicate Cut(all: bytes) {
    |all| == 2 && all[0] == 0 && all[1] < 12
  }

  lemma {:induction false} EndsExactly(all: bytes)
    ensures EndsFrame(all) <==> exists body :: Ended(all, body)
    ensures forall body :: Ended(all, body) ==> FirstFrame(all) == Whole(body, [])
  {
    hide FirstFrame;
    if EndsFrame(all) {
      var body := FirstFrame(all).body;
      FramesExactly(all, body, []);
      assert Frame(body) + [] == Frame(body);
      assert Ended(all, body);
    }
    forall body | Ended(all, body) ensures FirstFrame(all) == Whole(body, []) {
      assert Frame(body) + [] == Frame(body);
      FramesExactly(all, body, []);
    }
  }

  /**
    * A call of the reader reports a message exactly when what it held and what it took make up one
    * frame with that message in it; octets that are no message are reported as such at the same point.
    * It asks for more exactly short of that, and fails only there or behind a length below 12; in both
    * cases nothing is dropped.
    */
  lemma {:induction false} CallsReport(before: bytes, taken: bytes, after: bytes, m: Message)
    ensures ReadOutcome(before, taken, Ready(m), after) <==>
            after == [] && exists body :: Ended(before + taken, body) && ParseMessage(body) == Some(m)
    ensures ReadOutcome(before, taken, Malformed, after) <==>
            after == [] && exists body :: Ended(before + taken, body) && ParseMessage(body) == None
    ensures ReadOutcome(before, taken, NeedMore, after) <==>
            after == before + taken && exists missing, body :: Completes(before + taken, missing, body)
    ensures ReadOutcome(before, taken, Error, after) <==>
            && after == before + taken
            && (Cut(after) || exists missing, body :: Completes(before + taken, missing, body))
  {
    hide FirstFrame, ParseMessage, Ended, Completes;
    var all := before + taken;
    EndsExactly(all);
    IncompleteExactly(all);
    ShortExactly(all);
    assert FirstFrame(all) == TooShort ==> FirstFrame(all) != Incomplete;
  }

  /** A call that fails met a length that is too small, or a socket that is dead. */
  lemma {:induction false} CallsStop(before: bytes, taken: bytes, after: bytes, r: ReadResult, status: Status)
    requires ReadOutcome(before, taken, r, after) && StoppedBecause(r, before + taken, status)
    ensures r == NeedMore ==> status == Stalled
    ensures r == Error ==> status == Dead || Cut(after)
  {
    hide FirstFrame, ParseMessage;
    ShortExactly(before + taken);
  }
}
