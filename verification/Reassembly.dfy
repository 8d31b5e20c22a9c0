/** How a connection puts a message together from what the socket delivers (shared/nccp_connection.cc), once its
    4-byte length has been read. */
module Reassembly {
  import opened Wire

  const MAX_MESSAGE_SIZE := 1024

  /** The reads give at least `wanted` bytes before one of them fails. */
  predicate Deliver(chunks: seq<int>, wanted: nat) {
    wanted == 0 ||
    (chunks != [] && chunks[0] > 0 && Deliver(chunks[1..], if chunks[0] < wanted then wanted - chunks[0] else 0))
  }

  /** `chunks` are what the calls of `read` would return if there were no bound on what is asked for; the bytes come
      from `stream`. The message is the first `msgLength` bytes, however they are cut up, and the connection is closed
      instead exactly when a read fails before they are there, or there are none to come. */
  method GetMessage(msgLength: U32, stream: Bytes, chunks: seq<int>) returns (message: Option<Bytes>)
    requires msgLength <= |stream|
    ensures message == if msgLength > 0 && Deliver(chunks, msgLength) then Some(stream[..msgLength]) else None
  {
    var buf := new Byte[if msgLength > MAX_MESSAGE_SIZE then msgLength else MAX_MESSAGE_SIZE];
    if msgLength <= 0 {
      return None;
    }
    var numRead: nat := 0;
    var k := 0;
    while numRead < msgLength
      invariant 0 <= k <= |chunks| && numRead <= msgLength <= buf.Length
      invariant buf[..numRead] == stream[..numRead]
      invariant Deliver(chunks, msgLength) <==> Deliver(chunks[k..], msgLength - numRead)
    {
      assert k < |chunks| ==> chunks[k..][1..] == chunks[k + 1..];
      if k == |chunks| || chunks[k] <= 0 {
        return None;
      }
      var n := if chunks[k] < msgLength - numRead then chunks[k] else msgLength - numRead;
      for i := 0 to n
        invariant buf[..numRead + i] == stream[..numRead + i]
      {
        buf[numRead + i] := stream[numRead + i];
      }
      numRead := numRead + n;
      k := k + 1;
    }
    return Some(buf[..msgLength]);
  }
}
