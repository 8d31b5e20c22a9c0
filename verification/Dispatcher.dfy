/** The rendezvous table that matches responses to requests (shared/dispatcher.cc, shared/message.cc): the dispatcher
    itself, and what it guarantees over every interleaving of the threads that use it. */
module Dispatching {
  import opened Wire

  const SEQS := 0x1_0000_0000

  /** The part of a rendezvous that it is compared by. */
  datatype Key = Key(id: Byte, seqNum: U32)

  const DEFAULT_KEY := Key(0, 0)

  /** The number after `n`, as a 32-bit counter has it. */
  function Next(n: U32): (r: U32)
    ensures r == if n == 0xFFFF_FFFF then 0 else n + 1
  {
    (n + 1) % SEQS
  }

  /** The key of the `n`th registration (from 0) of an operation. */
  function KeyOf(op: Byte, n: nat): Key {
    Key(op, (n + 1) % SEQS)
  }

  /** Exactly when two registrations share a key: same operation, a multiple of 2^32 apart. */
  lemma KeysClashIff(op: Byte, m: nat, op': Byte, n: nat)
    ensures KeyOf(op, m) == KeyOf(op', n) <==> op == op' && (m - n) % 0x1_0000_0000 == 0
  {
    var x := (m + 1) % SEQS - (n + 1) % SEQS;
    var k := (m + 1) / SEQS - (n + 1) / SEQS;
    assert m - n == k * SEQS + x;
    assert (m - n) % SEQS == x % SEQS;
  }

  // ------------------------------------------------------------- the dispatcher

  const STOP_PERIODIC: Byte := 33
  const ACK_PERIODIC: Byte := 34

  class Request {
    const op: Byte
    var rend: Key
    var returnRend: Key
    var resp: Option<nat>
    var receivedResponse: bool
    var receivedStop: bool
    var receivedAck: bool

    constructor (op: Byte)
      ensures this.op == op && rend == returnRend == Key(0, 0)
      ensures !receivedResponse && !receivedStop && !receivedAck
    {
      this.op := op;
      rend, returnRend := DEFAULT_KEY, DEFAULT_KEY;
      resp, receivedResponse, receivedStop, receivedAck := None, false, false, false;
    }
  }

  class Dispatcher {
    const nextSeq: array<U32>
    var rendMap: map<Key, Request>

    ghost predicate Valid() {
      nextSeq.Length == 256
    }

    constructor ()
      ensures Valid() && fresh(nextSeq) && rendMap == map[]
      ensures forall op: Byte :: nextSeq[op] == 1
    {
      nextSeq := new U32[256](_ => 1);
      rendMap := map[];
    }

    method RegisterRendezvous(req: Request)
      requires Valid()
      modifies nextSeq, this`rendMap, req`rend
      ensures req.rend == Key(req.op, old(nextSeq[req.op]))
      ensures nextSeq[..] == old(nextSeq[..])[req.op := Next(old(nextSeq[req.op]))]
      ensures rendMap == old(rendMap)[req.rend := req]
    {
      var seqNum := nextSeq[req.op];
      nextSeq[req.op] := (seqNum + 1) % SEQS;
      req.rend := Key(req.op, seqNum);
      rendMap := rendMap[req.rend := req];
    }

    method RegisterPeriodicRendezvous(req: Request)
      requires Valid()
      modifies nextSeq, this`rendMap, req`returnRend, req`receivedStop, req`receivedAck
      ensures req.returnRend == Key(req.op, old(nextSeq[req.op])) && !req.receivedStop && !req.receivedAck
      ensures nextSeq[..] == old(nextSeq[..])[req.op := Next(old(nextSeq[req.op]))]
      ensures rendMap == old(rendMap)[req.returnRend := req]
    {
      var seqNum := nextSeq[req.op];
      nextSeq[req.op] := (seqNum + 1) % SEQS;
      req.returnRend := Key(req.op, seqNum);
      req.receivedStop, req.receivedAck := false, false;
      rendMap := rendMap[req.returnRend := req];
    }

    /** Hand a response to the request that waits for it; the caller keeps the response only when nobody does. */
    method CallRendezvous(key: Key, resp: nat) returns (unclaimed: bool)
      requires Valid()
      modifies rendMap.Values`resp, rendMap.Values`receivedResponse
      ensures unclaimed <==> key !in rendMap
      ensures !unclaimed ==> rendMap[key].receivedResponse && rendMap[key].resp == Some(resp)
      ensures forall r :: r in rendMap.Values && (unclaimed || r != rendMap[key]) ==>
                r.receivedResponse == old(r.receivedResponse) && r.resp == old(r.resp)
    {
      if key !in rendMap {
        return true;
      }
      var req := rendMap[key];
      req.resp := Some(resp);
      req.receivedResponse := true;
      return false;
    }

    /** Tell a periodic request to stop, or that it was acknowledged. */
    method CallPeriodic(key: Key, op: Byte)
      requires Valid()
      modifies rendMap.Values`receivedStop, rendMap.Values`receivedAck
      ensures forall r :: r in rendMap.Values ==>
                && r.receivedStop == (old(r.receivedStop) || (key in rendMap && rendMap[key] == r && op == 33))
                && r.receivedAck == (old(r.receivedAck) || (key in rendMap && rendMap[key] == r && op == 34))
    {
      if key in rendMap {
        var req := rendMap[key];
        if op == STOP_PERIODIC {
          req.receivedStop := true;
        } else if op == ACK_PERIODIC {
          req.receivedAck := true;
        }
      }
    }

    method ClearRendezvous(req: Request)
      requires Valid()
      modifies this`rendMap, req`rend
      ensures rendMap == old(rendMap) - {old(req.rend)} && req.rend == Key(0, 0)
    {
      rendMap := rendMap - {req.rend};
      req.rend := DEFAULT_KEY;
    }

    method ClearPeriodicRendezvous(req: Request)
      requires Valid()
      modifies this`rendMap, req`returnRend
      ensures rendMap == old(rendMap) - {old(req.returnRend)} && req.returnRend == Key(0, 0)
    {
      rendMap := rendMap - {req.returnRend};
      req.returnRend := DEFAULT_KEY;
    }
  }

  datatype Arrival = Arrival(key: Key, resp: nat)

  /** Where the first response with one of `keys` is among the arrivals, or their number. */
  ghost function FirstFor(keys: set<Key>, arrivals: seq<Arrival>): (n: nat)
    ensures n <= |arrivals|
    ensures n < |arrivals| ==> arrivals[n].key in keys
    ensures forall k :: 0 <= k < n ==> arrivals[k].key !in keys
  {
    if arrivals == [] || arrivals[0].key in keys then 0 else 1 + FirstFor(keys, arrivals[1..])
  }

  /** The keys under which a request is registered. */
  ghost function KeysOf(m: map<Key, Request>, req: Request): set<Key> {
    set k | k in m && m[k] == req
  }

  /** Send a request and wait for its response, while responses arrive. The request gets the first response that bears
      the new key (or another key it is registered under), and the table afterwards lacks that key and is otherwise
      what it was: nothing else is removed, in particular not its own entry as a periodic request. That the key is not
      in the table before is `DispatcherRuns.NextKeyIsFree`; after the numbers have run out it may be, and then the
      registration it belonged to is lost. */
  method SendAndWait(d: Dispatcher, req: Request, sent: bool, arrivals: seq<Arrival>) returns (got: bool)
    requires d.Valid() && !req.receivedResponse
    modifies d.nextSeq, d`rendMap, req`rend
    modifies req`resp, req`receivedResponse, d.rendMap.Values`resp, d.rendMap.Values`receivedResponse
    ensures d.rendMap == old(d.rendMap) - {Key(req.op, old(d.nextSeq[req.op]))}
    ensures req.rend == Key(0, 0) && !req.receivedResponse
    ensures var own := Key(req.op, old(d.nextSeq[req.op]));
            var n := FirstFor(KeysOf(old(d.rendMap), req) + {own}, arrivals);
            && (got <==> sent && n < |arrivals|)
            && (got ==> req.resp == Some(arrivals[n].resp))
    ensures d.nextSeq[..] == old(d.nextSeq[..])[req.op := Next(old(d.nextSeq[req.op]))]
  {
    d.RegisterRendezvous(req);
    got := false;
    if sent {
      assert KeysOf(d.rendMap, req) == KeysOf(old(d.rendMap), req) + {req.rend};
      assert d.rendMap.Values <= old(d.rendMap.Values) + {req};
      got := WaitForResponse(d, req, arrivals);
      req.receivedResponse := false;
    }
    d.ClearRendezvous(req);
    assert d.rendMap == old(d.rendMap) - {Key(req.op, old(d.nextSeq[req.op]))};
  }

  method WaitForResponse(d: Dispatcher, req: Request, arrivals: seq<Arrival>) returns (got: bool)
    requires d.Valid() && req.rend in d.rendMap && d.rendMap[req.rend] == req && !req.receivedResponse
    modifies d.rendMap.Values`resp, d.rendMap.Values`receivedResponse
    ensures var n := FirstFor(KeysOf(d.rendMap, req), arrivals);
            && (got <==> n < |arrivals|)
            && (got ==> req.resp == Some(arrivals[n].resp))
  {
    ghost var n := FirstFor(KeysOf(d.rendMap, req), arrivals);
    var i := 0;
    while i < |arrivals| && !req.receivedResponse
      invariant 0 <= i <= |arrivals|
      invariant if req.receivedResponse then i == n + 1 && req.resp == Some(arrivals[n].resp) else i <= n
    {
      var _ := d.CallRendezvous(arrivals[i].key, arrivals[i].resp);
      i := i + 1;
    }
    got := req.receivedResponse;
  }
}
