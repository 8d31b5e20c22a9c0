/** The `<<` and `>>` operators on compound values and the `write` and `parse` of the message classes, as sequences
    of operations on one `ByteBuffer` (shared/rendezvous.cc, shared/message.cc, shared/onl_types.cc,
    shared/onl_responses.cc). */
module Streams {
  import opened Wire
  import opened ByteBuffers

  // ------------------------------------------------------------- message headers

  method PutRendezvous(buf: ByteBuffer, r: Rendezvous)
    requires buf.Valid() && buf.curIndex + 28 <= buf.data.Length
    modifies buf`curIndex, buf`numStored, buf.data
    ensures buf.Valid() && buf.numStored == buf.curIndex == old(buf.curIndex) + 28
    ensures forall tail: Bytes :: buf.Written() + tail == old(buf.Written()) + Wire.PutRendezvous(r, tail)
  {
    hide Wire.PutU8, Wire.GetU8, Wire.PutU16, Wire.GetU16, Wire.PutU32, Wire.GetU32;
    buf.PutU8(r.id);
    buf.PutU16(r.unused1);
    buf.PutU8(r.unused2);
    buf.PutU32(r.seqNum);
    buf.PutU32(r.unused3);
    buf.PutU32(r.unused4);
    buf.PutU32(r.unused5);
    buf.PutU32(r.unused6);
    buf.PutU32(r.unused7);
  }

  method GetRendezvous(buf: ByteBuffer) returns (r: Rendezvous)
    requires buf.Valid() && Wire.GetRendezvous(buf.Remaining()).Got?
    modifies buf`curIndex
    ensures buf.Valid() && Wire.GetRendezvous(old(buf.Remaining())) == Got(r, buf.Remaining())
  {
    hide Wire.PutU8, Wire.GetU8, Wire.PutU16, Wire.GetU16, Wire.PutU32, Wire.GetU32;
    var id := buf.GetU8();
    var unused1 := buf.GetU16();
    var unused2 := buf.GetU8();
    var seqNum := buf.GetU32();
    var unused3 := buf.GetU32();
    var unused4 := buf.GetU32();
    var unused5 := buf.GetU32();
    var unused6 := buf.GetU32();
    var unused7 := buf.GetU32();
    r := Rendezvous(id, unused1, unused2, seqNum, unused3, unused4, unused5, unused6, unused7);
  }

  method PutHeader(buf: ByteBuffer, h: Header)
    requires buf.Valid() && buf.curIndex + 34 <= buf.data.Length
    modifies buf`curIndex, buf`numStored, buf.data
    ensures buf.Valid() && buf.numStored == buf.curIndex == old(buf.curIndex) + 34
    ensures forall tail: Bytes :: buf.Written() + tail == old(buf.Written()) + Wire.PutHeader(h, tail)
  {
    hide Wire.PutU16, Wire.GetU16, Wire.PutU8, Wire.GetU8, Wire.PutRendezvous, Wire.GetRendezvous;
    hide Wire.PutBool, Wire.GetBool;
    buf.PutU16(h.mtype);
    buf.PutU8(h.version);
    buf.PutU8(h.op);
    PutRendezvous(buf, h.rend);
    buf.PutBool(h.periodic);
  }

  method GetHeader(buf: ByteBuffer) returns (h: Header)
    requires buf.Valid() && Wire.GetHeader(buf.Remaining()).Got?
    modifies buf`curIndex
    ensures buf.Valid() && Wire.GetHeader(old(buf.Remaining())) == Got(h, buf.Remaining())
  {
    hide Wire.PutU16, Wire.GetU16, Wire.PutU8, Wire.GetU8, Wire.PutRendezvous, Wire.GetRendezvous;
    hide Wire.PutBool, Wire.GetBool;
    var mtype := buf.GetU16();
    var version := buf.GetU8();
    var op := buf.GetU8();
    var rend := GetRendezvous(buf);
    var periodic := buf.GetBool();
    h := Header(mtype, version, op, rend, periodic);
  }

  // ------------------------------------------------------------- requests and responses

  method PutRequest(buf: ByteBuffer, r: Request)
    requires buf.Valid() && buf.curIndex + HeadSize(r.header.periodic) <= buf.data.Length
    modifies buf`curIndex, buf`numStored, buf.data
    ensures buf.Valid() && buf.numStored == buf.curIndex == old(buf.curIndex) + HeadSize(r.header.periodic)
    ensures forall tail: Bytes :: buf.Written() + tail == old(buf.Written()) + Wire.PutRequest(r, tail)
  {
    hide Wire.PutHeader, Wire.GetHeader, Wire.PutU32, Wire.GetU32;
    PutHeader(buf, r.header);
    if r.header.periodic {
      buf.PutU32(r.period.value.sec);
      buf.PutU32(r.period.value.usec);
    }
  }

  method GetRequest(buf: ByteBuffer) returns (r: Request)
    requires buf.Valid() && Wire.GetRequest(buf.Remaining()).Got?
    modifies buf`curIndex
    ensures buf.Valid() && Wire.GetRequest(old(buf.Remaining())) == Got(r, buf.Remaining())
  {
    hide Wire.PutHeader, Wire.GetHeader, Wire.PutU32, Wire.GetU32;
    var header := GetHeader(buf);
    var period := None;
    if header.periodic {
      var sec := buf.GetU32();
      var usec := buf.GetU32();
      period := Some(Period(sec, usec));
    }
    r := RawRequest(header, period);
  }

  method PutResponse(buf: ByteBuffer, r: Response)
    requires buf.Valid() && buf.curIndex + (if r.header.periodic then 64 else 36) <= buf.data.Length
    modifies buf`curIndex, buf`numStored, buf.data
    ensures buf.Valid() && buf.numStored == buf.curIndex == old(buf.curIndex) + if r.header.periodic then 64 else 36
    ensures forall tail: Bytes :: buf.Written() + tail == old(buf.Written()) + Wire.PutResponse(r, tail)
  {
    hide Wire.PutHeader, Wire.GetHeader, Wire.PutRendezvous, Wire.GetRendezvous, Wire.PutBool, Wire.GetBool;
    PutHeader(buf, r.header);
    if r.header.periodic {
      PutRendezvous(buf, r.returnRend.value);
    }
    buf.PutBool(r.endOfMessage);
  }

  method GetResponse(buf: ByteBuffer) returns (r: Response)
    requires buf.Valid() && Wire.GetResponse(buf.Remaining()).Got?
    modifies buf`curIndex
    ensures buf.Valid() && Wire.GetResponse(old(buf.Remaining())) == Got(r, buf.Remaining())
  {
    hide Wire.PutHeader, Wire.GetHeader, Wire.PutRendezvous, Wire.GetRendezvous, Wire.PutBool, Wire.GetBool;
    var header := GetHeader(buf);
    var returnRend := None;
    if header.periodic {
      var rend := GetRendezvous(buf);
      returnRend := Some(rend);
    }
    var endOfMessage := buf.GetBool();
    r := RawResponse(header, returnRend, endOfMessage);
  }

  // ------------------------------------------------------------- parameters

  method PutFlag(buf: ByteBuffer, x: bool)
    requires buf.Valid() && buf.curIndex + 1 <= buf.data.Length
    modifies buf`curIndex, buf`numStored, buf.data
    ensures buf.Valid() && buf.numStored == buf.curIndex == old(buf.curIndex) + 1
    ensures forall tail: Bytes :: buf.Written() + tail == old(buf.Written()) + Wire.PutFlag(x, tail)
  {
    if x {
      buf.PutU8(1);
    } else {
      buf.PutU8(0);
    }
  }

  method GetFlag(buf: ByteBuffer) returns (x: bool)
    requires buf.Valid() && Wire.GetFlag(buf.Remaining()).Got?
    modifies buf`curIndex
    ensures buf.Valid() && Wire.GetFlag(old(buf.Remaining())) == Got(x, buf.Remaining())
  {
    var w := buf.GetU8();
    x := w != 0;
  }

  method PutParam(buf: ByteBuffer, p: Param)
    requires buf.Valid() && buf.curIndex + ParamSize(p) <= buf.data.Length
    modifies buf`curIndex, buf`numStored, buf.data
    ensures buf.Valid() && buf.numStored == buf.curIndex == old(buf.curIndex) + ParamSize(p)
    ensures forall tail: Bytes :: buf.Written() + tail == old(buf.Written()) + Wire.PutParam(p, tail)
  {
    hide Wire.PutU16, Wire.GetU16, Wire.PutU32, Wire.GetU32, Wire.PutStr, Wire.GetStr, Wire.PutFlag, Wire.GetFlag;
    match p {
      case UnknownParam =>
        buf.PutU16(0);
      case IntParam(n) =>
        buf.PutU16(1);
        buf.PutU32(n);
      case DoubleParam(digits) =>
        buf.PutU16(2);
        buf.PutStr(digits);
      case BoolParam(flag) =>
        buf.PutU16(3);
        PutFlag(buf, flag);
      case StringParam(text) =>
        buf.PutU16(4);
        buf.PutStr(text);
    }
  }

  method GetParam(buf: ByteBuffer) returns (p: Param)
    requires buf.Valid() && Wire.GetParam(buf.Remaining()).Got?
    modifies buf`curIndex
    ensures buf.Valid() && Wire.GetParam(old(buf.Remaining())) == Got(p, buf.Remaining())
  {
    hide Wire.PutU16, Wire.GetU16, Wire.PutU32, Wire.GetU32, Wire.PutStr, Wire.GetStr, Wire.PutFlag, Wire.GetFlag;
    var pt := buf.GetU16();
    if pt == 1 {
      var n := buf.GetU32();
      p := IntParam(n);
    } else if pt == 2 {
      var digits := buf.GetStr();
      p := DoubleParam(digits);
    } else if pt == 3 {
      var flag := GetFlag(buf);
      p := BoolParam(flag);
    } else if pt == 4 {
      var text := buf.GetStr();
      p := StringParam(text);
    } else {
      p := UnknownParam;
    }
  }

  method PutParams(buf: ByteBuffer, ps: Params)
    requires buf.Valid() && buf.curIndex + 4 + ParamItemsSize(ps) <= buf.data.Length
    modifies buf`curIndex, buf`numStored, buf.data
    ensures buf.Valid() && buf.numStored == buf.curIndex == old(buf.curIndex) + 4 + ParamItemsSize(ps)
    ensures forall tail: Bytes :: buf.Written() + tail == old(buf.Written()) + Wire.PutParams(ps, tail)
  {
    hide Wire.PutParam, Wire.GetParam, Wire.PutU32, Wire.GetU32, ParamSize;
    buf.PutU32(|ps|);
    ghost var w := buf.Written();
    for i := 0 to |ps|
      invariant buf.Valid() && buf.numStored == buf.curIndex
      invariant buf.curIndex + ParamItemsSize(ps[i..]) == old(buf.curIndex) + 4 + ParamItemsSize(ps)
      invariant forall tail: Bytes ::
                  buf.Written() + Wire.PutParamItems(ps[i..], tail) == w + Wire.PutParamItems(ps, tail)
    {
      assert ps[i..][0] == ps[i] && ps[i..][1..] == ps[i + 1..];
      PutParam(buf, ps[i]);
    }
  }

  /** With `done` already read, the `n` parameters still in the buffer complete the list `whole`. */
  ghost predicate ItemsLeft(n: nat, buf: ByteBuffer, done: seq<Param>, whole: Read<seq<Param>>)
    requires buf.Valid()
    reads buf, buf.data
  {
    var r := Wire.GetParamItems(n, buf.Remaining());
    r.Got? && whole == Got(done + r.value, r.rest)
  }

  method GetParams(buf: ByteBuffer) returns (ps: Params)
    requires buf.Valid() && Wire.GetParams(buf.Remaining()).Got?
    modifies buf`curIndex
    ensures buf.Valid() && Wire.GetParams(old(buf.Remaining())) == Got(ps, buf.Remaining())
  {
    hide Wire.PutParam, Wire.GetParam, Wire.PutU32, Wire.GetU32;
    var n := buf.GetU32();
    ghost var r := Wire.GetParamItems(n, buf.Remaining());
    ps := [];
    assert ps + r.value == r.value;
    for i := 0 to n
      invariant buf.Valid() && |ps| == i
      invariant ItemsLeft(n - i, buf, ps, r)
    {
      ghost var ps0 := ps;
      var p := GetParam(buf);
      ps := ps + [p];
      assert forall more: seq<Param> :: ps + more == ps0 + ([p] + more);
    }
    assert ps + [] == ps;
  }

  // ------------------------------------------------------------- replies that are relayed

  method PutExperimentInfo(buf: ByteBuffer, e: ExperimentInfo)
    requires buf.Valid() && buf.curIndex + ExperimentInfoSize(e) <= buf.data.Length
    modifies buf`curIndex, buf`numStored, buf.data
    ensures buf.Valid() && buf.numStored == buf.curIndex == old(buf.curIndex) + ExperimentInfoSize(e)
    ensures forall tail: Bytes :: buf.Written() + tail == old(buf.Written()) + Wire.PutExperimentInfo(e, tail)
  {
    hide Wire.PutStr, Wire.GetStr;
    buf.PutStr(e.id);
    buf.PutStr(e.expName);
    buf.PutStr(e.userName);
  }

  method GetExperimentInfo(buf: ByteBuffer) returns (e: ExperimentInfo)
    requires buf.Valid() && Wire.GetExperimentInfo(buf.Remaining()).Got?
    modifies buf`curIndex
    ensures buf.Valid() && Wire.GetExperimentInfo(old(buf.Remaining())) == Got(e, buf.Remaining())
  {
    hide Wire.PutStr, Wire.GetStr;
    var id := buf.GetStr();
    var expName := buf.GetStr();
    var userName := buf.GetStr();
    e := ExperimentInfo(id, expName, userName);
  }

  method PutExperiment(buf: ByteBuffer, e: Experiment)
    requires buf.Valid() && buf.curIndex + ExperimentSize(e) <= buf.data.Length
    modifies buf`curIndex, buf`numStored, buf.data
    ensures buf.Valid() && buf.numStored == buf.curIndex == old(buf.curIndex) + ExperimentSize(e)
    ensures forall tail: Bytes :: buf.Written() + tail == old(buf.Written()) + Wire.PutExperiment(e, tail)
  {
    hide Wire.PutStr, Wire.GetStr, Wire.PutU32, Wire.GetU32, Wire.PutExperimentInfo, Wire.GetExperimentInfo;
    buf.PutStr(e.addr);
    buf.PutU32(e.port);
    PutExperimentInfo(buf, e.info);
  }

  method GetExperiment(buf: ByteBuffer) returns (e: Experiment)
    requires buf.Valid() && Wire.GetExperiment(buf.Remaining()).Got?
    modifies buf`curIndex
    ensures buf.Valid() && Wire.GetExperiment(old(buf.Remaining())) == Got(e, buf.Remaining())
  {
    hide Wire.PutStr, Wire.GetStr, Wire.PutU32, Wire.GetU32, Wire.PutExperimentInfo, Wire.GetExperimentInfo;
    var addr := buf.GetStr();
    var port := buf.GetU32();
    var info := GetExperimentInfo(buf);
    e := Experiment(addr, port, info);
  }

  method PutComponent(buf: ByteBuffer, c: Component)
    requires buf.Valid() && buf.curIndex + ComponentSize(c) <= buf.data.Length
    modifies buf`curIndex, buf`numStored, buf.data
    ensures buf.Valid() && buf.numStored == buf.curIndex == old(buf.curIndex) + ComponentSize(c)
    ensures forall tail: Bytes :: buf.Written() + tail == old(buf.Written()) + Wire.PutComponent(c, tail)
  {
    hide Wire.PutStr, Wire.GetStr, Wire.PutU32, Wire.GetU32, Wire.PutFlag, Wire.GetFlag;
    buf.PutStr(c.ctype);
    buf.PutU32(c.id);
    buf.PutU32(c.parent);
    buf.PutStr(c.labelText);
    buf.PutStr(c.cp);
    PutFlag(buf, c.isRouter);
  }

  method GetComponent(buf: ByteBuffer) returns (c: Component)
    requires buf.Valid() && Wire.GetComponent(buf.Remaining()).Got?
    modifies buf`curIndex
    ensures buf.Valid() && Wire.GetComponent(old(buf.Remaining())) == Got(c, buf.Remaining())
  {
    hide Wire.PutStr, Wire.GetStr, Wire.PutU32, Wire.GetU32, Wire.PutFlag, Wire.GetFlag;
    var ctype := buf.GetStr();
    var id := buf.GetU32();
    var parent := buf.GetU32();
    var labelText := buf.GetStr();
    var cp := buf.GetStr();
    var isRouter := GetFlag(buf);
    c := Component(ctype, id, parent, labelText, cp, isRouter);
  }

  method PutCrdResponse(buf: ByteBuffer, r: CrdResponse)
    requires buf.Valid() && buf.curIndex + CrdResponseSize(r) <= buf.data.Length
    modifies buf`curIndex, buf`numStored, buf.data
    ensures buf.Valid() && buf.numStored == buf.curIndex == old(buf.curIndex) + CrdResponseSize(r)
    ensures forall tail: Bytes :: buf.Written() + tail == old(buf.Written()) + Wire.PutCrdResponse(r, tail)
  {
    hide Wire.PutResponse, Wire.GetResponse, Wire.PutU32, Wire.GetU32, Wire.PutExperiment, Wire.GetExperiment;
    hide Wire.PutComponent, Wire.GetComponent;
    PutResponse(buf, r.resp);
    buf.PutU32(r.status);
    PutExperiment(buf, r.exp);
    PutComponent(buf, r.comp);
  }

  method GetCrdResponse(buf: ByteBuffer) returns (r: CrdResponse)
    requires buf.Valid() && Wire.GetCrdResponse(buf.Remaining()).Got?
    modifies buf`curIndex
    ensures buf.Valid() && Wire.GetCrdResponse(old(buf.Remaining())) == Got(r, buf.Remaining())
  {
    hide Wire.PutResponse, Wire.GetResponse, Wire.PutU32, Wire.GetU32, Wire.PutExperiment, Wire.GetExperiment;
    hide Wire.PutComponent, Wire.GetComponent;
    var resp := GetResponse(buf);
    var status := buf.GetU32();
    var exp := GetExperiment(buf);
    var comp := GetComponent(buf);
    r := CrdResponse(resp, status, exp, comp);
  }

  method PutRliResponse(buf: ByteBuffer, r: RliResponse)
    requires buf.Valid() && buf.curIndex + RliResponseSize(r) <= buf.data.Length
    modifies buf`curIndex, buf`numStored, buf.data
    ensures buf.Valid() && buf.numStored == buf.curIndex == old(buf.curIndex) + RliResponseSize(r)
    ensures forall tail: Bytes :: buf.Written() + tail == old(buf.Written()) + Wire.PutRliResponse(r, tail)
  {
    hide Wire.PutResponse, Wire.GetResponse, Wire.PutU32, Wire.GetU32, Wire.PutStr, Wire.GetStr;
    PutResponse(buf, r.resp);
    buf.PutU32(r.status);
    buf.PutU32(r.timeStamp);
    buf.PutU32(r.clockRate);
    buf.PutU32(r.value);
    buf.PutStr(r.statusMsg);
  }

  method GetRliResponse(buf: ByteBuffer) returns (r: RliResponse)
    requires buf.Valid() && Wire.GetRliResponse(buf.Remaining()).Got?
    modifies buf`curIndex
    ensures buf.Valid() && Wire.GetRliResponse(old(buf.Remaining())) == Got(r, buf.Remaining())
  {
    hide Wire.PutResponse, Wire.GetResponse, Wire.PutU32, Wire.GetU32, Wire.PutStr, Wire.GetStr;
    var resp := GetResponse(buf);
    var status := buf.GetU32();
    var timeStamp := buf.GetU32();
    var clockRate := buf.GetU32();
    var value := buf.GetU32();
    var statusMsg := buf.GetStr();
    r := RliResponse(resp, status, timeStamp, clockRate, value, statusMsg);
  }
}
