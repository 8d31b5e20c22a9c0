/** The two-hop relay of base/: a request that the base daemon does not know is rewritten and sent to the specialised
    daemon, and that daemon's reply is rewritten and sent back (base/onlbased_requests.cc, base/onlbased_responses.cc).

    What goes over a connection is described by what its receiver reads from it. */
module Relay {
  import opened Wire
  import opened ByteBuffers
  import Streams

  const RESPONSE: U16 := 2

  const FINE: U32 := 1
  const TIMEOUT_REMOTE: U32 := 3

  /** The specialised daemon, as the globals of the base daemon know it. */
  datatype Daemon = Daemon(inUse: bool, conn: Option<nat>, closed: bool)

  /** What became of `send_and_wait`; an answer is the message the dispatcher matched to the registered rendezvous. */
  datatype Outcome = SendFailed | TimedOut | Answered(reply: Bytes)

  datatype Packet = Packet(conn: nat, bytes: Bytes)

  /** The rendezvous that `register_rendezvous` hands out. */
  function Key(op: Byte, seqNum: U32): Rendezvous {
    Rendezvous(op, 0, 0, seqNum, 0, 0, 0, 0, 0)
  }

  const DEFAULT_REND := Rendezvous(0, 0, 0, 0, 0, 0, 0, 0, 0)

  /** The header of a response to `head`. */
  function ReplyHead(head: Request, returnRend: Rendezvous, endOfMessage: bool): Response {
    var h := head.header;
    RawResponse(h.(mtype := RESPONSE), if h.periodic then Some(returnRend) else None, endOfMessage)
  }

  const BLANK_EXPERIMENT := Experiment([], 0, ExperimentInfo([], [], []))
  const BLANK_COMPONENT := Component([], 0, 0, [], [], false)

  function RliError(head: Request, returnRend: Rendezvous): RliResponse {
    RliResponse(ReplyHead(head, returnRend, true), TIMEOUT_REMOTE, 0, 0, 0, [])
  }

  function CrdStatus(head: Request, returnRend: Rendezvous, status: U32): CrdResponse {
    CrdResponse(ReplyHead(head, returnRend, true), status, BLANK_EXPERIMENT, BLANK_COMPONENT)
  }

  // ------------------------------------------------------------- what the two ends see

  predicate RepliesRli(p: Packet, conn: nat, r: RliResponse, trailing: Bytes) {
    p.conn == conn && GetRliResponse(p.bytes) == Got(r, trailing)
  }

  predicate RepliesCrd(p: Packet, conn: nat, r: CrdResponse, trailing: Bytes) {
    p.conn == conn && GetCrdResponse(p.bytes) == Got(r, trailing)
  }

  /** The specialised daemon reads the requester's request with nothing changed but the rendezvous and the period, and
      then the requester's `body`. */
  predicate Forwards(p: Packet, conn: nat, head: Request, seqNum: U32, body: Bytes) {
    var h := head.header;
    && p.conn == conn
    && GetRequest(p.bytes) ==
       Got(RawRequest(Header(h.mtype, h.version, h.op, Rendezvous(h.op, 0, 0, seqNum, 0, 0, 0, 0, 0), false), None), body)
  }

  /** A response in the requester's own terms: to its operation and version, under its rendezvous, and, to a periodic
      request, with the rendezvous under which it can be stopped. */
  predicate Answers(r: Response, head: Request, returnRend: Rendezvous, endOfMessage: bool) {
    var h := r.header;
    && h.mtype == 2 && h.version == head.header.version && h.op == head.header.op
    && h.rend == head.header.rend && h.periodic == head.header.periodic
    && r.returnRend == (if head.header.periodic then Some(returnRend) else None)
    && r.endOfMessage == endOfMessage
  }

  /** The requester reads that the request timed out remotely, and nothing else. */
  predicate TellsTimeout(p: Packet, conn: nat, head: Request, returnRend: Rendezvous) {
    var got := GetRliResponse(p.bytes);
    && p.conn == conn && got.Got? && got.rest == []
    && Answers(got.value.resp, head, returnRend, true)
    && got.value.status == 3 && got.value.statusMsg == []
    && got.value.timeStamp == 0 && got.value.clockRate == 0 && got.value.value == 0
  }

  /** The requester reads a status without experiment and component. */
  predicate TellsStatus(p: Packet, conn: nat, head: Request, returnRend: Rendezvous, status: U32) {
    var got := GetCrdResponse(p.bytes);
    && p.conn == conn && got.Got? && got.rest == []
    && Answers(got.value.resp, head, returnRend, true)
    && got.value.status == status
    && got.value.exp == Experiment([], 0, ExperimentInfo([], [], []))
    && got.value.comp == Component([], 0, 0, [], [], false)
  }

  /** The requester reads what the daemon replied, in the requester's own terms, and the same bytes after it. */
  predicate PassesOnRli(p: Packet, conn: nat, head: Request, returnRend: Rendezvous, reply: Bytes) {
    var answer, got := GetRliResponse(reply), GetRliResponse(p.bytes);
    && answer.Got? && p.conn == conn && got.Got? && got.rest == answer.rest
    && Answers(got.value.resp, head, returnRend, answer.value.resp.endOfMessage)
    && got.value.(resp := answer.value.resp) == answer.value
  }

  predicate PassesOnCrd(p: Packet, conn: nat, head: Request, returnRend: Rendezvous, reply: Bytes) {
    var answer, got := GetCrdResponse(reply), GetCrdResponse(p.bytes);
    && answer.Got? && p.conn == conn && got.Got? && got.rest == answer.rest
    && Answers(got.value.resp, head, returnRend, answer.value.resp.endOfMessage)
    && got.value.(resp := answer.value.resp) == answer.value
  }

  /** One handling of an RLI request: what is sent, and to whom. */
  predicate RliExchange(out: seq<Packet>, d: Daemon, conn: nat, head: Request, returnRend: Rendezvous, body: Bytes,
                        seqNum: U32, outcome: Outcome)
  {
    if !Ready(d) || outcome.SendFailed? then
      |out| == 1 && TellsTimeout(out[0], conn, head, returnRend)
    else
      && |out| == 2
      && Forwards(out[0], d.conn.value, head, seqNum, body)
      && match outcome
         case TimedOut => TellsTimeout(out[1], conn, head, returnRend)
         case Answered(reply) => PassesOnRli(out[1], conn, head, returnRend, reply)
  }

  /** One handling of a CRD request. Without a specialised daemon it is simply acknowledged. */
  predicate CrdExchange(out: seq<Packet>, d: Daemon, conn: nat, head: Request, returnRend: Rendezvous, body: Bytes,
                        seqNum: U32, outcome: Outcome)
  {
    if !d.inUse then
      |out| == 1 && TellsStatus(out[0], conn, head, returnRend, 1)
    else if !Ready(d) || outcome.SendFailed? then
      |out| == 1 && TellsStatus(out[0], conn, head, returnRend, 3)
    else
      && |out| == 2
      && Forwards(out[0], d.conn.value, head, seqNum, body)
      && match outcome
         case TimedOut => TellsStatus(out[1], conn, head, returnRend, 3)
         case Answered(reply) => PassesOnCrd(out[1], conn, head, returnRend, reply)
  }

  predicate Ready(d: Daemon) {
    d.inUse && d.conn.Some? && !d.closed
  }

  /** A reply fits the 2048 bytes of the response that relays it. */
  predicate RliFits(periodic: bool, outcome: Outcome) {
    outcome.Answered? ==>
      var answer := GetRliResponse(outcome.reply);
      answer.Got? && (if periodic then 64 else 36) + 20 + |answer.value.statusMsg| + |answer.rest| <= 2048
  }

  predicate CrdFits(periodic: bool, outcome: Outcome) {
    outcome.Answered? ==>
      var answer := GetCrdResponse(outcome.reply);
      && answer.Got?
      && (if periodic then 64 else 36) + 4 + ExperimentSize(answer.value.exp) + ComponentSize(answer.value.comp) +
         |answer.rest| <= 2048
  }

  // ------------------------------------------------------------- the relayed request

  /** `rli_relay_req` and `crd_relay_req`, which differ only in the responses they send. */
  class RelayRequest {
    const buf: ByteBuffer
    const data: ByteBuffer
    var mtype: U16
    var version: Byte
    var op: Byte
    var rend: Rendezvous
    var periodic: bool
    var period: Period
    var returnRend: Rendezvous
    var conn: nat
    var receivedStop: bool

    function Head(): Request
      reads this
    {
      var header, p := Header(mtype, version, op, rend, periodic), period;
      if periodic then RawRequest(header, Some(p)) else RawRequest(header, None)
    }

    /** The bytes to pass on. */
    ghost function Body(): Bytes
      requires data.Valid()
      reads data, data.data
    {
      data.data[..data.numStored]
    }

    /** The message's own buffer is big enough to write the request back into it. */
    ghost predicate Valid()
      reads this, buf, data
    {
      && buf != data && buf.data != data.data && buf.Valid() && data.Valid()
      && HeadSize(periodic) + data.numStored <= buf.data.Length
    }

    /** What stays the same from one handling to the next. */
    twostate predicate SameRequest()
      requires old(Valid()) && Valid()
      reads this, buf, data, data.data
    {
      && Head() == old(Head()) && returnRend == old(returnRend) && conn == old(conn)
      && Body() == old(Body()) && buf.data == old(buf.data) && data.data == old(data.data)
    }

    /** Receive and parse. */
    constructor (mbuf: Bytes, conn: nat)
      requires GetRequest(mbuf).Got?
      ensures Valid() && fresh(buf) && fresh(data) && fresh(buf.data) && fresh(data.data)
      ensures GetRequest(mbuf) == Got(Head(), Body())
      ensures Skips(mbuf, HeadSize(periodic), Body())
      ensures this.conn == conn && returnRend == Rendezvous(0, 0, 0, 0, 0, 0, 0, 0, 0) && !receivedStop
    {
      hide GetRequest, Skips;
      var received := ByteBuffers.Receive(mbuf);
      buf := received;
      data := new ByteBuffer();
      this.conn := conn;
      returnRend := DEFAULT_REND;
      receivedStop := false;
      new;
      Parse();
      RequestSkips(mbuf);
    }

    method Parse()
      requires buf != data && buf.data != data.data && buf.Valid() && data.Valid()
      requires GetRequest(buf.Remaining()).Got? && buf.numStored <= buf.data.Length && buf.curIndex == 0
      modifies this`mtype, this`version, this`op, this`rend, this`periodic, this`period, buf`curIndex, data, data.data
      ensures Valid()
      ensures GetRequest(old(buf.Remaining())) == Got(Head(), Body())
      ensures data.data == old(data.data) || fresh(data.data)
    {
      hide GetRequest;
      RequestSkips(buf.Remaining());
      var head := Streams.GetRequest(buf);
      mtype, version, op := head.header.mtype, head.header.version, head.header.op;
      rend, periodic := head.header.rend, head.header.periodic;
      if periodic {
        period := head.period.value;
      }
      CopyBody();
    }

    /** Copy what is left of the message into `data`. */
    method CopyBody()
      requires buf != data && buf.data != data.data && buf.Valid() && data.Valid()
      modifies data, data.data
      ensures data.Valid() && buf.data != data.data && Body() == buf.Remaining()
      ensures data.data == old(data.data) || fresh(data.data)
    {
      data.Resize(buf.numStored);
      var i := buf.curIndex;
      ghost var start := i;
      while i < buf.numStored
        invariant start <= i <= buf.numStored
        invariant buf.data != data.data && data.Valid() && data.numStored == data.curIndex == i - start
        invariant data.data.Length >= buf.numStored
        invariant data.data == old(data.data) || fresh(data.data)
        invariant Body() == buf.data[start..i]
      {
        data.PutU8(buf.data[i]);
        i := i + 1;
      }
    }

    /** The request as it is now, then the body. */
    method Write()
      requires Valid()
      modifies buf`curIndex, buf`numStored, buf.data
      ensures Valid() && buf.data[..buf.numStored] == PutRequest(Head(), Body())
    {
      hide PutRequest, GetRequest;
      buf.Reset();
      Streams.PutRequest(buf, Head());
      ghost var w := buf.Written();
      assert w + Body() == PutRequest(Head(), Body());
      WriteBody();
    }

    method WriteBody()
      requires buf != data && buf.data != data.data && buf.Valid() && data.Valid()
      requires buf.numStored == buf.curIndex && buf.curIndex + data.numStored <= buf.data.Length
      modifies buf`curIndex, buf`numStored, buf.data
      ensures buf.Valid() && buf.numStored == buf.curIndex
      ensures buf.Written() == old(buf.Written()) + Body()
    {
      for i := 0 to data.numStored
        invariant buf.Valid() && buf.numStored == buf.curIndex == old(buf.curIndex) + i
        invariant buf.Written() == old(buf.Written()) + Body()[..i]
      {
        buf.PutU8(data.data[i]);
      }
    }

    /** Send the request on and wait: non-periodic, over the daemon's connection and under a new rendezvous, all three
        of which are put back afterwards. */
    method SendAndWait(specConn: nat, seqNum: U32, outcome: Outcome) returns (out: seq<Packet>)
      requires Valid()
      modifies this`rend, this`periodic, this`conn, buf`curIndex, buf`numStored, buf.data
      ensures Valid() && SameRequest() && receivedStop == old(receivedStop)
      ensures outcome.SendFailed? ==> out == []
      ensures !outcome.SendFailed? ==> |out| == 1 && Forwards(out[0], specConn, Head(), seqNum, Body())
    {
      hide PutRequest, GetRequest;
      var origRend, origPeriodic, origConn := rend, periodic, conn;
      periodic := false;
      conn := specConn;
      rend := Key(op, seqNum);
      out := [];
      if !outcome.SendFailed? {
        Write();
        out := [Packet(conn, buf.data[..buf.numStored])];
        assert GetRequest(out[0].bytes) == Got(Head(), Body());
      }
      rend := DEFAULT_REND;
      rend, periodic, conn := origRend, origPeriodic, origConn;
    }

    method HandleRli(d: Daemon, seqNum: U32, outcome: Outcome) returns (out: seq<Packet>)
      requires Valid() && RliFits(periodic, outcome)
      modifies this`rend, this`periodic, this`conn, this`receivedStop, buf`curIndex, buf`numStored, buf.data
      ensures Valid() && SameRequest()
      ensures RliExchange(out, d, conn, Head(), returnRend, Body(), seqNum, outcome)
      ensures receivedStop == (old(receivedStop) || (periodic && StopsRli(d, outcome)))
    {
      hide GetRequest, GetRliResponse, PutRliResponse;
      if !d.inUse || d.conn.None? || d.closed {
        var p := SendRli(conn, RliError(Head(), returnRend), [], 0);
        if periodic {
          receivedStop := true;
        }
        return [p];
      }
      out := SendAndWait(d.conn.value, seqNum, outcome);
      if !outcome.Answered? {
        var p := SendRli(conn, RliError(Head(), returnRend), [], 0);
        out := out + [p];
      } else {
        var from := ByteBuffers.Receive(outcome.reply);
        var answer := Streams.GetRliResponse(from);
        if answer.status != FINE && periodic {
          receivedStop := true;
        }
        var bytes := from.data[..from.numStored];
        var p := SendRli(conn, answer.(resp := ReplyHead(Head(), returnRend, answer.resp.endOfMessage)),
                         bytes, from.curIndex);
        out := out + [p];
      }
    }

    /** What `crd_relay_req` does with the daemon's answer: look at its status, and relay it. */
    method AnswerCrd(reply: Bytes) returns (p: Packet)
      requires Valid() && CrdFits(periodic, Answered(reply))
      modifies this`receivedStop
      ensures PassesOnCrd(p, conn, Head(), returnRend, reply)
      ensures receivedStop == (old(receivedStop) || (periodic && GetCrdResponse(reply).value.status != 1))
    {
      hide GetRequest, GetCrdResponse, PutCrdResponse;
      var from := ByteBuffers.Receive(reply);
      var answer := Streams.GetCrdResponse(from);
      if answer.status != FINE && periodic {
        receivedStop := true;
      }
      var bytes := from.data[..from.numStored];
      p := SendCrd(conn, answer.(resp := ReplyHead(Head(), returnRend, answer.resp.endOfMessage)), bytes, from.curIndex);
    }

    method HandleCrd(d: Daemon, seqNum: U32, outcome: Outcome) returns (out: seq<Packet>)
      requires Valid() && CrdFits(periodic, outcome)
      modifies this`rend, this`periodic, this`conn, this`receivedStop, buf`curIndex, buf`numStored, buf.data
      ensures Valid() && SameRequest()
      ensures CrdExchange(out, d, conn, Head(), returnRend, Body(), seqNum, outcome)
      ensures receivedStop == (old(receivedStop) || (periodic && StopsCrd(d, outcome)))
    {
      hide GetRequest, GetCrdResponse, PutCrdResponse, Forwards, PassesOnCrd;
      if !d.inUse {
        var p := SendCrd(conn, CrdStatus(Head(), returnRend, FINE), [], 0);
        return [p];
      }
      if !d.inUse || d.conn.None? || d.closed {
        var p := SendCrd(conn, CrdStatus(Head(), returnRend, TIMEOUT_REMOTE), [], 0);
        if periodic {
          receivedStop := true;
        }
        return [p];
      }
      out := SendAndWait(d.conn.value, seqNum, outcome);
      if !outcome.Answered? {
        var p := SendCrd(conn, CrdStatus(Head(), returnRend, TIMEOUT_REMOTE), [], 0);
        out := out + [p];
      } else {
        var p := AnswerCrd(outcome.reply);
        out := out + [p];
      }
    }
  }

  /** A periodic request ends itself when the daemon is gone or answers with anything but a fine status. */
  predicate StopsRli(d: Daemon, outcome: Outcome)
  {
    !Ready(d) || match outcome
                 case Answered(reply) => var answer := GetRliResponse(reply); answer.Got? && answer.value.status != 1
                 case _ => false
  }

  predicate StopsCrd(d: Daemon, outcome: Outcome)
  {
    d.inUse && (!Ready(d) || match outcome
                             case Answered(reply) =>
                               var answer := GetCrdResponse(reply);
                               answer.Got? && answer.value.status != 1
                             case _ => false)
  }

  /** Write a response, and after it the bytes of another message from `at` on. */
  method SendRli(conn: nat, r: RliResponse, bytes: Bytes, at: nat) returns (p: Packet)
    requires at <= |bytes| && RliResponseSize(r) + |bytes| - at <= 2048
    ensures RepliesRli(p, conn, r, bytes[at..])
  {
    hide PutRliResponse, GetRliResponse;
    var buf := new ByteBuffer();
    Streams.PutRliResponse(buf, r);
    ghost var w := buf.Written();
    assert w + bytes[at..] == PutRliResponse(r, bytes[at..]);
    CopyRest(buf, bytes, at);
    p := Packet(conn, buf.data[..buf.numStored]);
  }

  method SendCrd(conn: nat, r: CrdResponse, bytes: Bytes, at: nat) returns (p: Packet)
    requires at <= |bytes| && CrdResponseSize(r) + |bytes| - at <= 2048
    ensures RepliesCrd(p, conn, r, bytes[at..])
  {
    hide PutCrdResponse, GetCrdResponse;
    var buf := new ByteBuffer();
    Streams.PutCrdResponse(buf, r);
    ghost var w := buf.Written();
    assert w + bytes[at..] == PutCrdResponse(r, bytes[at..]);
    CopyRest(buf, bytes, at);
    p := Packet(conn, buf.data[..buf.numStored]);
  }

  method CopyRest(buf: ByteBuffer, bytes: Bytes, at: nat)
    requires buf.Valid() && buf.numStored == buf.curIndex
    requires at <= |bytes| && buf.curIndex + |bytes| - at <= buf.data.Length
    modifies buf`curIndex, buf`numStored, buf.data
    ensures buf.Valid() && buf.numStored == buf.curIndex
    ensures buf.Written() == old(buf.Written()) + bytes[at..]
  {
    var i := at;
    while i < |bytes|
      invariant at <= i <= |bytes| && buf.Valid() && buf.numStored == buf.curIndex == old(buf.curIndex) + i - at
      invariant buf.Written() == old(buf.Written()) + bytes[at..i]
    {
      buf.PutU8(bytes[i]);
      i := i + 1;
    }
  }

  // ------------------------------------------------------------- end to end

  /** What the specialised daemon is sent is the message that came in, from its body on, behind a shorter or equally
      long header: the rewritten request always fits where the received one was. */
  lemma ForwardedByteForByte(mbuf: Bytes, p: Packet, conn: nat, seqNum: U32)
    requires GetRequest(mbuf).Got?
    requires Forwards(p, conn, GetRequest(mbuf).value, seqNum, GetRequest(mbuf).rest)
    ensures var n := HeadSize(GetRequest(mbuf).value.header.periodic);
            && |mbuf| >= n && |p.bytes| >= 34 && p.bytes[34..] == mbuf[n..]
            && |p.bytes| == |mbuf| - (n - 34) <= |mbuf|
  {
    hide GetRequest;
    RequestSkips(mbuf);
    RequestSkips(p.bytes);
  }

  /** One handling of a request: the state of the daemon, the sequence number handed out, what came back, and whether
      the requester asked meanwhile to stop. */
  datatype Round = Round(d: Daemon, seqNum: U32, outcome: Outcome, stop: bool)

  predicate Ends(round: Round) {
    round.stop || StopsRli(round.d, round.outcome)
  }

  /** A relayed request from its arrival on. A periodic one is handled again and again, and each time the daemon gets
      the same body and the requester an answer in its own terms, until the first round that ends it. */
  method ServeRli(mbuf: Bytes, conn: nat, regSeq: U32, rounds: seq<Round>, ghost head: Request, ghost body: Bytes)
    returns (outs: seq<seq<Packet>>)
    requires GetRequest(mbuf) == Got(head, body)
    requires |rounds| >= 1
    requires forall k :: 0 <= k < |rounds| ==> RliFits(head.header.periodic, rounds[k].outcome)
    ensures 1 <= |outs| <= |rounds|
    ensures forall k :: 0 <= k < |outs| ==>
              RliExchange(outs[k], rounds[k].d, conn, head, Rendezvous(head.header.op, 0, 0, regSeq, 0, 0, 0, 0, 0), body,
                          rounds[k].seqNum, rounds[k].outcome)
    ensures forall k :: 0 <= k < |outs| - 1 ==> head.header.periodic && !Ends(rounds[k])
    ensures |outs| < |rounds| ==> !head.header.periodic || Ends(rounds[|outs| - 1])
  {
    hide GetRequest, GetRliResponse, RliExchange, RliFits, StopsRli;
    var req := new RelayRequest(mbuf, conn);
    req.returnRend := Key(req.op, regSeq);
    if !req.periodic {
      var out := req.HandleRli(rounds[0].d, rounds[0].seqNum, rounds[0].outcome);
      return [out];
    }
    req.receivedStop := false;
    outs := [];
    while |outs| < |rounds| && !req.receivedStop
      invariant fresh(req) && fresh(req.buf) && fresh(req.data) && fresh(req.buf.data) && req.Valid()
      invariant req.Head() == head && req.Body() == body && req.conn == conn
      invariant req.periodic && req.returnRend == Key(head.header.op, regSeq)
      invariant |outs| <= |rounds| && (outs == [] ==> !req.receivedStop)
      invariant forall k :: 0 <= k < |outs| ==>
                  RliExchange(outs[k], rounds[k].d, conn, head, req.returnRend, body, rounds[k].seqNum, rounds[k].outcome)
      invariant forall k :: 0 <= k < |outs| - 1 ==> !Ends(rounds[k])
      invariant outs != [] ==> req.receivedStop == Ends(rounds[|outs| - 1])
    {
      var round := rounds[|outs|];
      var out := req.HandleRli(round.d, round.seqNum, round.outcome);
      if round.stop {
        req.receivedStop := true;
      }
      outs := outs + [out];
    }
    req.returnRend := DEFAULT_REND;
  }
}
