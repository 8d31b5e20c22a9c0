/** The NCCP wire format of shared/: what the `<<` and `>>` operators write and read, as functions on bytes.
    `PutX(x, tail)` is what writing `x` puts in front of `tail`; `GetX(b)` is what reading one `X` off the front
    of `b` gives. Every `PutX` promises that `GetX` gives back exactly `x` and leaves exactly `tail`. */
module Wire {

  type Byte = x: nat | x < 0x100
  type U16 = x: nat | x < 0x1_0000
  type U32 = x: nat | x < 0x1_0000_0000
  type Bytes = seq<Byte>

  /** `nccp_string`: at most 255 bytes. */
  type Str = s: Bytes | |s| <= 255

  /** The result of reading: `Short` when the buffer ends too early, where the source reads on regardless. */
  datatype Read<+T> = Short | Got(value: T, rest: Bytes) {
    predicate IsFailure() {
      Short?
    }

    function PropagateFailure<U>(): Read<U>
      requires Short?
    {
      Short
    }

    function Extract(): (T, Bytes)
      requires Got?
    {
      (value, rest)
    }
  }

  // ------------------------------------------------------------- byte_buffer

  function PutU8(x: Byte, tail: Bytes): (b: Bytes)
    ensures GetU8(b) == Got(x, tail)
    ensures |b| == 1 + |tail|
  {
    [x] + tail
  }

  function GetU8(b: Bytes): Read<Byte> {
    if |b| < 1 then Short else Got(b[0], b[1..])
  }

  /** Network byte order. */
  function PutU16(x: U16, tail: Bytes): (b: Bytes)
    ensures GetU16(b) == Got(x, tail)
    ensures |b| == 2 + |tail|
  {
    PutU8(x / 0x100, PutU8(x % 0x100, tail))
  }

  function GetU16(b: Bytes): Read<U16> {
    var (hi, b) :- GetU8(b);
    var (lo, b) :- GetU8(b);
    Got(hi * 0x100 + lo, b)
  }

  function PutU32(x: U32, tail: Bytes): (b: Bytes)
    ensures GetU32(b) == Got(x, tail)
    ensures |b| == 4 + |tail|
  {
    PutU16(x / 0x1_0000, PutU16(x % 0x1_0000, tail))
  }

  function GetU32(b: Bytes): Read<U32> {
    var (hi, b) :- GetU16(b);
    var (lo, b) :- GetU16(b);
    Got(hi * 0x1_0000 + lo, b)
  }

  /** A `bool` is two bytes wide. */
  function PutBool(x: bool, tail: Bytes): (b: Bytes)
    ensures GetBool(b) == Got(x, tail)
    ensures |b| == 2 + |tail|
  {
    PutU16(if x then 1 else 0, tail)
  }

  function GetBool(b: Bytes): Read<bool> {
    var (x, b) :- GetU16(b);
    Got(x != 0, b)
  }

  /** The flags of `component` and `param` are one byte wide. */
  function PutFlag(x: bool, tail: Bytes): (b: Bytes)
    ensures GetFlag(b) == Got(x, tail)
    ensures |b| == 1 + |tail|
  {
    PutU8(if x then 1 else 0, tail)
  }

  function GetFlag(b: Bytes): Read<bool> {
    var (x, b) :- GetU8(b);
    Got(x != 0, b)
  }

  // ------------------------------------------------------------- onl_types

  /** A 4-byte length, then the characters. */
  function PutStr(s: Str, tail: Bytes): (b: Bytes)
    ensures GetStr(b) == Got(s, tail)
    ensures |b| == 4 + |s| + |tail|
  {
    hide PutU32, GetU32;
    PutU32(|s|, s + tail)
  }

  /** A length above 255 is read as 255. */
  function GetStr(b: Bytes): Read<Str> {
    var (l, b) :- GetU32(b);
    var n := if l > 255 then 255 else l;
    if |b| < n then Short else Got(b[..n], b[n..])
  }

  datatype ExperimentInfo = ExperimentInfo(id: Str, expName: Str, userName: Str)

  function ExperimentInfoSize(e: ExperimentInfo): nat {
    12 + |e.id| + |e.expName| + |e.userName|
  }

  function PutExperimentInfo(e: ExperimentInfo, tail: Bytes): (b: Bytes)
    ensures GetExperimentInfo(b) == Got(e, tail)
    ensures |b| == ExperimentInfoSize(e) + |tail|
  {
    hide PutStr, GetStr;
    PutStr(e.id, PutStr(e.expName, PutStr(e.userName, tail)))
  }

  function GetExperimentInfo(b: Bytes): Read<ExperimentInfo> {
    var (id, b) :- GetStr(b);
    var (expName, b) :- GetStr(b);
    var (userName, b) :- GetStr(b);
    Got(ExperimentInfo(id, expName, userName), b)
  }

  datatype Component = Component(ctype: Str, id: U32, parent: U32, labelText: Str, cp: Str, isRouter: bool)

  function ComponentSize(c: Component): nat {
    21 + |c.ctype| + |c.labelText| + |c.cp|
  }

  function PutComponent(c: Component, tail: Bytes): (b: Bytes)
    ensures GetComponent(b) == Got(c, tail)
    ensures |b| == ComponentSize(c) + |tail|
  {
    hide PutStr, GetStr, PutU32, GetU32, PutFlag, GetFlag;
    PutStr(c.ctype, PutU32(c.id, PutU32(c.parent, PutStr(c.labelText, PutStr(c.cp, PutFlag(c.isRouter, tail))))))
  }

  function GetComponent(b: Bytes): Read<Component> {
    var (ctype, b) :- GetStr(b);
    var (id, b) :- GetU32(b);
    var (parent, b) :- GetU32(b);
    var (labelText, b) :- GetStr(b);
    var (cp, b) :- GetStr(b);
    var (isRouter, b) :- GetFlag(b);
    Got(Component(ctype, id, parent, labelText, cp, isRouter), b)
  }

  datatype Experiment = Experiment(addr: Str, port: U32, info: ExperimentInfo)

  function ExperimentSize(e: Experiment): nat {
    8 + |e.addr| + ExperimentInfoSize(e.info)
  }

  function PutExperiment(e: Experiment, tail: Bytes): (b: Bytes)
    ensures GetExperiment(b) == Got(e, tail)
    ensures |b| == ExperimentSize(e) + |tail|
  {
    hide PutStr, GetStr, PutU32, GetU32, PutExperimentInfo, GetExperimentInfo;
    PutStr(e.addr, PutU32(e.port, PutExperimentInfo(e.info, tail)))
  }

  function GetExperiment(b: Bytes): Read<Experiment> {
    var (addr, b) :- GetStr(b);
    var (port, b) :- GetU32(b);
    var (info, b) :- GetExperimentInfo(b);
    Got(Experiment(addr, port, info), b)
  }

  /** `param`, by its type tag; a double travels as the string it was written as. */
  datatype Param =
    | UnknownParam
    | IntParam(n: U32)
    | DoubleParam(digits: Str)
    | BoolParam(flag: bool)
    | StringParam(text: Str)

  function ParamSize(p: Param): nat {
    match p
    case UnknownParam => 2
    case IntParam(_) => 6
    case DoubleParam(digits) => 6 + |digits|
    case BoolParam(_) => 3
    case StringParam(text) => 6 + |text|
  }

  function PutParam(p: Param, tail: Bytes): (b: Bytes)
    ensures GetParam(b) == Got(p, tail)
    ensures |b| == ParamSize(p) + |tail|
  {
    hide PutStr, GetStr, PutU32, GetU32, PutFlag, GetFlag, PutU16, GetU16;
    match p
    case UnknownParam => PutU16(0, tail)
    case IntParam(n) => PutU16(1, PutU32(n, tail))
    case DoubleParam(digits) => PutU16(2, PutStr(digits, tail))
    case BoolParam(flag) => PutU16(3, PutFlag(flag, tail))
    case StringParam(text) => PutU16(4, PutStr(text, tail))
  }

  /** A tag above 4 is taken for unknown, and nothing more is read. */
  function GetParam(b: Bytes): Read<Param> {
    var (pt, b) :- GetU16(b);
    match pt
    case 1 => var (n, b) :- GetU32(b); Got(IntParam(n), b)
    case 2 => var (digits, b) :- GetStr(b); Got(DoubleParam(digits), b)
    case 3 => var (flag, b) :- GetFlag(b); Got(BoolParam(flag), b)
    case 4 => var (text, b) :- GetStr(b); Got(StringParam(text), b)
    case _ => Got(UnknownParam, b)
  }

  function ParamItemsSize(ps: seq<Param>): nat {
    if ps == [] then 0 else ParamSize(ps[0]) + ParamItemsSize(ps[1..])
  }

  function PutParamItems(ps: seq<Param>, tail: Bytes): (b: Bytes)
    ensures GetParamItems(|ps|, b) == Got(ps, tail)
    ensures |b| == ParamItemsSize(ps) + |tail|
  {
    if ps == [] then tail
    else
      assert [ps[0]] + ps[1..] == ps;
      PutParam(ps[0], PutParamItems(ps[1..], tail))
  }

  function GetParamItems(n: nat, b: Bytes): (r: Read<seq<Param>>)
    ensures r.Got? ==> |r.value| == n
  {
    if n == 0 then Got([], b)
    else
      var (p, b) :- GetParam(b);
      var (ps, b) :- GetParamItems(n - 1, b);
      Got([p] + ps, b)
  }

  type Params = ps: seq<Param> | |ps| < 0x1_0000_0000

  /** A parameter list: the number of parameters, then each. */
  function PutParams(ps: Params, tail: Bytes): (b: Bytes)
    ensures GetParams(b) == Got(ps, tail)
    ensures |b| == 4 + ParamItemsSize(ps) + |tail|
  {
    PutU32(|ps|, PutParamItems(ps, tail))
  }

  function GetParams(b: Bytes): Read<Params> {
    var (n, b) :- GetU32(b);
    var (ps, b) :- GetParamItems(n, b);
    Got(ps, b)
  }

  datatype NextHop = NextHop(ipaddr: Str, ntype: Str, isRouter: bool, macAddr: Str, devIpaddr: Str)

  function PutNextHop(h: NextHop, tail: Bytes): (b: Bytes)
    ensures GetNextHop(b) == Got(h, tail)
  {
    hide PutStr, GetStr, PutBool, GetBool;
    PutStr(h.ipaddr, PutStr(h.ntype, PutBool(h.isRouter, PutStr(h.macAddr, PutStr(h.devIpaddr, tail)))))
  }

  function GetNextHop(b: Bytes): Read<NextHop> {
    var (ipaddr, b) :- GetStr(b);
    var (ntype, b) :- GetStr(b);
    var (isRouter, b) :- GetBool(b);
    var (macAddr, b) :- GetStr(b);
    var (devIpaddr, b) :- GetStr(b);
    Got(NextHop(ipaddr, ntype, isRouter, macAddr, devIpaddr), b)
  }

  datatype NodeInfo = NodeInfo(ipaddr: Str, subnet: Str, port: U32, nexthop: NextHop, realPort: U32, vlanid: U32,
                               bandwidth: U32, devIpaddr: Str)

  function PutNodeInfo(n: NodeInfo, tail: Bytes): (b: Bytes)
    ensures GetNodeInfo(b) == Got(n, tail)
  {
    hide PutStr, GetStr, PutU32, GetU32, PutNextHop, GetNextHop;
    PutStr(n.ipaddr, PutStr(n.subnet, PutU32(n.port, PutNextHop(n.nexthop,
      PutU32(n.realPort, PutU32(n.vlanid, PutU32(n.bandwidth, PutStr(n.devIpaddr, tail))))))))
  }

  function GetNodeInfo(b: Bytes): Read<NodeInfo> {
    var (ipaddr, b) :- GetStr(b);
    var (subnet, b) :- GetStr(b);
    var (port, b) :- GetU32(b);
    var (nexthop, b) :- GetNextHop(b);
    var (realPort, b) :- GetU32(b);
    var (vlanid, b) :- GetU32(b);
    var (bandwidth, b) :- GetU32(b);
    var (devIpaddr, b) :- GetStr(b);
    Got(NodeInfo(ipaddr, subnet, port, nexthop, realPort, vlanid, bandwidth, devIpaddr), b)
  }

  // ------------------------------------------------------------- switch_types

  datatype PortRef = PortRef(switchid: Str, port: U32, interSwitch: bool, passTag: bool)

  function PutPortRef(p: PortRef, tail: Bytes): (b: Bytes)
    ensures GetPortRef(b) == Got(p, tail)
  {
    PutStr(p.switchid, PutU32(p.port, PutBool(p.interSwitch, PutBool(p.passTag, tail))))
  }

  function GetPortRef(b: Bytes): Read<PortRef> {
    var (switchid, b) :- GetStr(b);
    var (port, b) :- GetU32(b);
    var (interSwitch, b) :- GetBool(b);
    var (passTag, b) :- GetBool(b);
    Got(PortRef(switchid, port, interSwitch, passTag), b)
  }

  datatype SwitchRef = SwitchRef(switchid: Str, ports: U32, managementPort: U32)

  function PutSwitchRef(s: SwitchRef, tail: Bytes): (b: Bytes)
    ensures GetSwitchRef(b) == Got(s, tail)
  {
    PutStr(s.switchid, PutU32(s.ports, PutU32(s.managementPort, tail)))
  }

  function GetSwitchRef(b: Bytes): Read<SwitchRef> {
    var (switchid, b) :- GetStr(b);
    var (ports, b) :- GetU32(b);
    var (managementPort, b) :- GetU32(b);
    Got(SwitchRef(switchid, ports, managementPort), b)
  }

  function PutSwitchItems(ss: seq<SwitchRef>, tail: Bytes): (b: Bytes)
    ensures GetSwitchItems(|ss|, b) == Got(ss, tail)
  {
    if ss == [] then tail
    else
      assert [ss[0]] + ss[1..] == ss;
      PutSwitchRef(ss[0], PutSwitchItems(ss[1..], tail))
  }

  function GetSwitchItems(n: nat, b: Bytes): (r: Read<seq<SwitchRef>>)
    ensures r.Got? ==> |r.value| == n
  {
    if n == 0 then Got([], b)
    else
      var (s, b) :- GetSwitchRef(b);
      var (ss, b) :- GetSwitchItems(n - 1, b);
      Got([s] + ss, b)
  }

  // ------------------------------------------------------------- rendezvous and message headers

  /** `rendezvous`: 28 bytes, of which the requester's are the operation and a sequence number. */
  datatype Rendezvous = Rendezvous(id: Byte, unused1: U16, unused2: Byte, seqNum: U32,
                                   unused3: U32, unused4: U32, unused5: U32, unused6: U32, unused7: U32)

  function PutRendezvous(r: Rendezvous, tail: Bytes): (b: Bytes)
    ensures GetRendezvous(b) == Got(r, tail)
    ensures |b| == 28 + |tail|
  {
    hide PutU8, GetU8, PutU16, GetU16, PutU32, GetU32;
    PutU8(r.id, PutU16(r.unused1, PutU8(r.unused2, PutU32(r.seqNum,
      PutU32(r.unused3, PutU32(r.unused4, PutU32(r.unused5, PutU32(r.unused6, PutU32(r.unused7, tail)))))))))
  }

  function GetRendezvous(b: Bytes): Read<Rendezvous> {
    var (id, b) :- GetU8(b);
    var (unused1, b) :- GetU16(b);
    var (unused2, b) :- GetU8(b);
    var (seqNum, b) :- GetU32(b);
    var (unused3, b) :- GetU32(b);
    var (unused4, b) :- GetU32(b);
    var (unused5, b) :- GetU32(b);
    var (unused6, b) :- GetU32(b);
    var (unused7, b) :- GetU32(b);
    Got(Rendezvous(id, unused1, unused2, seqNum, unused3, unused4, unused5, unused6, unused7), b)
  }

  /** `message`. */
  datatype Header = Header(mtype: U16, version: Byte, op: Byte, rend: Rendezvous, periodic: bool)

  function PutHeader(h: Header, tail: Bytes): (b: Bytes)
    ensures GetHeader(b) == Got(h, tail)
    ensures |b| == 34 + |tail|
  {
    hide PutU16, GetU16, PutU8, GetU8, PutRendezvous, GetRendezvous, PutBool, GetBool;
    PutU16(h.mtype, PutU8(h.version, PutU8(h.op, PutRendezvous(h.rend, PutBool(h.periodic, tail)))))
  }

  function GetHeader(b: Bytes): Read<Header> {
    var (mtype, b) :- GetU16(b);
    var (version, b) :- GetU8(b);
    var (op, b) :- GetU8(b);
    var (rend, b) :- GetRendezvous(b);
    var (periodic, b) :- GetBool(b);
    Got(Header(mtype, version, op, rend, periodic), b)
  }

  datatype Option<+T> = None | Some(value: T)

  datatype Period = Period(sec: U32, usec: U32)

  function PutPeriod(p: Option<Period>, tail: Bytes): (b: Bytes)
    ensures GetPeriod(p.Some?, b) == Got(p, tail)
    ensures |b| == (if p.Some? then 8 else 0) + |tail|
  {
    if p.Some? then PutU32(p.value.sec, PutU32(p.value.usec, tail)) else tail
  }

  function GetPeriod(present: bool, b: Bytes): (r: Read<Option<Period>>)
    ensures r.Got? ==> r.value.Some? == present
  {
    if present then
      var (sec, b) :- GetU32(b);
      var (usec, b) :- GetU32(b);
      Got(Some(Period(sec, usec)), b)
    else Got(None, b)
  }

  /** `request`: the period is on the wire exactly when the periodic flag is set. */
  datatype RawRequest = RawRequest(header: Header, period: Option<Period>)

  type Request = r: RawRequest | r.period.Some? <==> r.header.periodic
    witness RawRequest(Header(1, 0, 0, Rendezvous(0, 0, 0, 0, 0, 0, 0, 0, 0), false), None)

  function PutRequest(r: Request, tail: Bytes): (b: Bytes)
    ensures GetRequest(b) == Got(r, tail)
    ensures |b| == HeadSize(r.header.periodic) + |tail|
  {
    hide PutHeader, GetHeader, PutPeriod, GetPeriod;
    PutHeader(r.header, PutPeriod(r.period, tail))
  }

  function HeadSize(periodic: bool): nat {
    if periodic then 42 else 34
  }

  function GetRequest(b: Bytes): Read<Request> {
    var (header, b) :- GetHeader(b);
    var (period, b) :- GetPeriod(header.periodic, b);
    Got(RawRequest(header, period), b)
  }

  function PutReturnRend(p: Option<Rendezvous>, tail: Bytes): (b: Bytes)
    ensures GetReturnRend(p.Some?, b) == Got(p, tail)
    ensures |b| == (if p.Some? then 28 else 0) + |tail|
  {
    if p.Some? then PutRendezvous(p.value, tail) else tail
  }

  function GetReturnRend(present: bool, b: Bytes): (r: Read<Option<Rendezvous>>)
    ensures r.Got? ==> r.value.Some? == present
  {
    if present then
      var (rend, b) :- GetRendezvous(b);
      Got(Some(rend), b)
    else Got(None, b)
  }

  /** `response`: a periodic one carries the rendezvous to use for stopping it. */
  datatype RawResponse = RawResponse(header: Header, returnRend: Option<Rendezvous>, endOfMessage: bool)

  type Response = r: RawResponse | r.returnRend.Some? <==> r.header.periodic
    witness RawResponse(Header(2, 0, 0, Rendezvous(0, 0, 0, 0, 0, 0, 0, 0, 0), false), None, true)

  function PutResponse(r: Response, tail: Bytes): (b: Bytes)
    ensures GetResponse(b) == Got(r, tail)
    ensures |b| == (if r.header.periodic then 64 else 36) + |tail|
  {
    hide PutHeader, GetHeader, PutReturnRend, GetReturnRend, PutBool, GetBool;
    PutHeader(r.header, PutReturnRend(r.returnRend, PutBool(r.endOfMessage, tail)))
  }

  function GetResponse(b: Bytes): Read<Response> {
    var (header, b) :- GetHeader(b);
    var (returnRend, b) :- GetReturnRend(header.periodic, b);
    var (endOfMessage, b) :- GetBool(b);
    Got(RawResponse(header, returnRend, endOfMessage), b)
  }

  /** `periodic`: the messages that stop or acknowledge a periodic request. */
  datatype Periodic = Periodic(mtype: U16, version: Byte, op: Byte, rend: Rendezvous, returnRend: Rendezvous)

  function PutPeriodic(p: Periodic, tail: Bytes): (b: Bytes)
    ensures GetPeriodic(b) == Got(p, tail)
  {
    hide PutU16, GetU16, PutU8, GetU8, PutRendezvous, GetRendezvous;
    PutU16(p.mtype, PutU8(p.version, PutU8(p.op, PutRendezvous(p.rend, PutRendezvous(p.returnRend, tail)))))
  }

  function GetPeriodic(b: Bytes): Read<Periodic> {
    var (mtype, b) :- GetU16(b);
    var (version, b) :- GetU8(b);
    var (op, b) :- GetU8(b);
    var (rend, b) :- GetRendezvous(b);
    var (returnRend, b) :- GetRendezvous(b);
    Got(Periodic(mtype, version, op, rend, returnRend), b)
  }

  /** Where `dispatcher::create_message` looks before it knows what the message is. */
  function PeekType(b: Bytes): U16
    requires |b| >= 4
  {
    var hi: nat, lo: nat := b[0], b[1];
    hi * 0x100 + lo
  }

  function PeekOp(b: Bytes): Byte
    requires |b| >= 4
  {
    b[3]
  }

  /** Any message the dispatcher accepts parses to the type and operation it was dispatched on. */
  lemma PeekAgrees(b: Bytes)
    requires |b| >= 4
    ensures GetHeader(b).Got? ==> GetHeader(b).value.mtype == PeekType(b) && GetHeader(b).value.op == PeekOp(b)
    ensures GetPeriodic(b).Got? ==> GetPeriodic(b).value.mtype == PeekType(b) && GetPeriodic(b).value.op == PeekOp(b)
  {
    assert b[1..][1..] == b[2..] && b[2..][1..] == b[3..];
    assert GetU16(b) == Got(PeekType(b), b[2..]);
    assert GetU8(b[2..]) == Got(b[2], b[3..]);
    assert GetU8(b[3..]) == Got(b[3], b[3..][1..]);
  }

  // ------------------------------------------------------------- where a message's body starts

  /** `rest` is `b` without its first `n` bytes. */
  predicate Skips(b: Bytes, n: nat, rest: Bytes) {
    |b| >= n && rest == b[n..]
  }

  lemma SkipsOn(b: Bytes, m: nat, c: Bytes, n: nat, rest: Bytes)
    requires Skips(b, m, c) && Skips(c, n, rest)
    ensures Skips(b, m + n, rest)
  {
    assert b[m..][n..] == b[m + n..];
  }

  lemma U8Skips(b: Bytes)
    ensures GetU8(b).Got? ==> Skips(b, 1, GetU8(b).rest)
  {
  }

  lemma U16Skips(b: Bytes)
    ensures GetU16(b).Got? ==> Skips(b, 2, GetU16(b).rest)
  {
    if GetU16(b).Got? {
      assert b[1..][1..] == b[2..];
    }
  }

  lemma U32Skips(b: Bytes)
    ensures GetU32(b).Got? ==> Skips(b, 4, GetU32(b).rest)
  {
    hide GetU16, Skips;
    if GetU32(b).Got? {
      var c := GetU16(b).rest;
      U16Skips(b);
      U16Skips(c);
      SkipsOn(b, 2, c, 2, GetU16(c).rest);
    }
  }

  /** One more word after `n` bytes. */
  lemma U32SkipsOn(b: Bytes, n: nat, c: Bytes)
    requires Skips(b, n, c)
    ensures GetU32(c).Got? ==> Skips(b, n + 4, GetU32(c).rest)
  {
    hide GetU32, Skips;
    if GetU32(c).Got? {
      U32Skips(c);
      SkipsOn(b, n, c, 4, GetU32(c).rest);
    }
  }

  lemma RendezvousSkips(b: Bytes)
    ensures GetRendezvous(b).Got? ==> Skips(b, 28, GetRendezvous(b).rest)
  {
    hide GetU8, GetU16, GetU32, Skips;
    if GetRendezvous(b).Got? {
      var b1 := GetU8(b).rest;
      var b3 := GetU16(b1).rest;
      var b4 := GetU8(b3).rest;
      var b8 := GetU32(b4).rest;
      var b12 := GetU32(b8).rest;
      var b16 := GetU32(b12).rest;
      var b20 := GetU32(b16).rest;
      var b24 := GetU32(b20).rest;
      U8Skips(b); U16Skips(b1); U8Skips(b3);
      SkipsOn(b, 1, b1, 2, b3);
      SkipsOn(b, 3, b3, 1, b4);
      U32SkipsOn(b, 4, b4);
      U32SkipsOn(b, 8, b8);
      U32SkipsOn(b, 12, b12);
      U32SkipsOn(b, 16, b16);
      U32SkipsOn(b, 20, b20);
      U32SkipsOn(b, 24, b24);
    }
  }

  lemma HeaderSkips(b: Bytes)
    ensures GetHeader(b).Got? ==> Skips(b, 34, GetHeader(b).rest)
  {
    hide GetU8, GetU16, GetRendezvous, Skips;
    if GetHeader(b).Got? {
      var b2 := GetU16(b).rest;
      var b3 := GetU8(b2).rest;
      var b4 := GetU8(b3).rest;
      var b32 := GetRendezvous(b4).rest;
      U16Skips(b); U8Skips(b2); U8Skips(b3); RendezvousSkips(b4); U16Skips(b32);
      SkipsOn(b, 2, b2, 1, b3);
      SkipsOn(b, 3, b3, 1, b4);
      SkipsOn(b, 4, b4, 28, b32);
      SkipsOn(b, 32, b32, 2, GetU16(b32).rest);
    }
  }

  /** The body of a request is everything after its header, and after its period if it has one. */
  lemma RequestSkips(b: Bytes)
    ensures GetRequest(b).Got? ==> Skips(b, HeadSize(GetRequest(b).value.header.periodic), GetRequest(b).rest)
  {
    hide GetHeader, GetU32, Skips;
    if GetRequest(b).Got? {
      var b34 := GetHeader(b).rest;
      HeaderSkips(b);
      if GetHeader(b).value.periodic {
        U32SkipsOn(b, 34, b34);
        U32SkipsOn(b, 38, GetU32(b34).rest);
      }
    }
  }

  // ------------------------------------------------------------- requests and responses

  datatype CrdRequest = CrdRequest(req: Request, exp: Experiment, comp: Component)

  function PutCrdRequest(r: CrdRequest, tail: Bytes): (b: Bytes)
    ensures GetCrdRequest(b) == Got(r, tail)
  {
    hide PutRequest, GetRequest, PutExperiment, GetExperiment, PutComponent, GetComponent;
    PutRequest(r.req, PutExperiment(r.exp, PutComponent(r.comp, tail)))
  }

  function GetCrdRequest(b: Bytes): Read<CrdRequest> {
    var (req, b) :- GetRequest(b);
    var (exp, b) :- GetExperiment(b);
    var (comp, b) :- GetComponent(b);
    Got(CrdRequest(req, exp, comp), b)
  }

  datatype StartExperiment = StartExperiment(crd: CrdRequest, ipaddr: Str, initParams: Params, cores: U32, memory: U32)

  function PutStartExperiment(r: StartExperiment, tail: Bytes): (b: Bytes)
    ensures GetStartExperiment(b) == Got(r, tail)
  {
    hide PutCrdRequest, GetCrdRequest, PutStr, GetStr, PutParams, GetParams, PutU32, GetU32;
    PutCrdRequest(r.crd, PutStr(r.ipaddr, PutParams(r.initParams, PutU32(r.cores, PutU32(r.memory, tail)))))
  }

  function GetStartExperiment(b: Bytes): Read<StartExperiment> {
    var (crd, b) :- GetCrdRequest(b);
    var (ipaddr, b) :- GetStr(b);
    var (initParams, b) :- GetParams(b);
    var (cores, b) :- GetU32(b);
    var (memory, b) :- GetU32(b);
    Got(StartExperiment(crd, ipaddr, initParams, cores, memory), b)
  }

  datatype Refresh = Refresh(crd: CrdRequest, rebootParams: Params)

  function PutRefresh(r: Refresh, tail: Bytes): (b: Bytes)
    ensures GetRefresh(b) == Got(r, tail)
  {
    hide PutCrdRequest, GetCrdRequest, PutParams, GetParams;
    PutCrdRequest(r.crd, PutParams(r.rebootParams, tail))
  }

  function GetRefresh(b: Bytes): Read<Refresh> {
    var (crd, b) :- GetCrdRequest(b);
    var (rebootParams, b) :- GetParams(b);
    Got(Refresh(crd, rebootParams), b)
  }

  datatype ConfigureNode = ConfigureNode(crd: CrdRequest, nodeConf: NodeInfo)

  function PutConfigureNode(r: ConfigureNode, tail: Bytes): (b: Bytes)
    ensures GetConfigureNode(b) == Got(r, tail)
  {
    hide PutCrdRequest, GetCrdRequest, PutNodeInfo, GetNodeInfo;
    PutCrdRequest(r.crd, PutNodeInfo(r.nodeConf, tail))
  }

  function GetConfigureNode(b: Bytes): Read<ConfigureNode> {
    var (crd, b) :- GetCrdRequest(b);
    var (nodeConf, b) :- GetNodeInfo(b);
    Got(ConfigureNode(crd, nodeConf), b)
  }

  /** `switch_request` and its kinds, by what follows the session id. */
  datatype SwitchRequest = SwitchRequest(req: Request, sessionId: Str)

  function PutSwitchRequest(r: SwitchRequest, tail: Bytes): (b: Bytes)
    ensures GetSwitchRequest(b) == Got(r, tail)
  {
    hide PutRequest, GetRequest, PutStr, GetStr;
    PutRequest(r.req, PutStr(r.sessionId, tail))
  }

  function GetSwitchRequest(b: Bytes): Read<SwitchRequest> {
    var (req, b) :- GetRequest(b);
    var (sessionId, b) :- GetStr(b);
    Got(SwitchRequest(req, sessionId), b)
  }

  datatype DeleteVlan = DeleteVlan(sw: SwitchRequest, vlanid: U32)

  function PutDeleteVlan(r: DeleteVlan, tail: Bytes): (b: Bytes)
    ensures GetDeleteVlan(b) == Got(r, tail)
  {
    hide PutSwitchRequest, GetSwitchRequest, PutU32, GetU32;
    PutSwitchRequest(r.sw, PutU32(r.vlanid, tail))
  }

  function GetDeleteVlan(b: Bytes): Read<DeleteVlan> {
    var (sw, b) :- GetSwitchRequest(b);
    var (vlanid, b) :- GetU32(b);
    Got(DeleteVlan(sw, vlanid), b)
  }

  datatype AddToVlan = AddToVlan(sw: SwitchRequest, vlanid: U32, port: PortRef)

  function PutAddToVlan(r: AddToVlan, tail: Bytes): (b: Bytes)
    ensures GetAddToVlan(b) == Got(r, tail)
  {
    hide PutSwitchRequest, GetSwitchRequest, PutU32, GetU32, PutPortRef, GetPortRef;
    PutSwitchRequest(r.sw, PutU32(r.vlanid, PutPortRef(r.port, tail)))
  }

  function GetAddToVlan(b: Bytes): Read<AddToVlan> {
    var (sw, b) :- GetSwitchRequest(b);
    var (vlanid, b) :- GetU32(b);
    var (port, b) :- GetPortRef(b);
    Got(AddToVlan(sw, vlanid, port), b)
  }

  type Switches = ss: seq<SwitchRef> | |ss| < 0x1_0000_0000

  datatype Initialize = Initialize(req: Request, switches: Switches)

  function PutInitialize(r: Initialize, tail: Bytes): (b: Bytes)
    ensures GetInitialize(b) == Got(r, tail)
  {
    hide PutRequest, GetRequest, PutU32, GetU32, PutSwitchItems, GetSwitchItems;
    PutRequest(r.req, PutU32(|r.switches|, PutSwitchItems(r.switches, tail)))
  }

  function GetInitialize(b: Bytes): Read<Initialize> {
    var (req, b) :- GetRequest(b);
    var (n, b) :- GetU32(b);
    var (switches, b) :- GetSwitchItems(n, b);
    Got(Initialize(req, switches), b)
  }

  datatype CrdResponse = CrdResponse(resp: Response, status: U32, exp: Experiment, comp: Component)

  function CrdResponseSize(r: CrdResponse): nat {
    (if r.resp.header.periodic then 64 else 36) + 4 + ExperimentSize(r.exp) + ComponentSize(r.comp)
  }

  function PutCrdResponse(r: CrdResponse, tail: Bytes): (b: Bytes)
    ensures GetCrdResponse(b) == Got(r, tail)
    ensures |b| == CrdResponseSize(r) + |tail|
  {
    hide PutResponse, GetResponse, PutU32, GetU32, PutExperiment, GetExperiment, PutComponent, GetComponent;
    PutResponse(r.resp, PutU32(r.status, PutExperiment(r.exp, PutComponent(r.comp, tail))))
  }

  function GetCrdResponse(b: Bytes): Read<CrdResponse> {
    var (resp, b) :- GetResponse(b);
    var (status, b) :- GetU32(b);
    var (exp, b) :- GetExperiment(b);
    var (comp, b) :- GetComponent(b);
    Got(CrdResponse(resp, status, exp, comp), b)
  }

  datatype EndConfigResponse = EndConfigResponse(crd: CrdResponse, vmname: Str)

  function PutEndConfigResponse(r: EndConfigResponse, tail: Bytes): (b: Bytes)
    ensures GetEndConfigResponse(b) == Got(r, tail)
  {
    hide PutCrdResponse, GetCrdResponse, PutStr, GetStr;
    PutCrdResponse(r.crd, PutStr(r.vmname, tail))
  }

  function GetEndConfigResponse(b: Bytes): Read<EndConfigResponse> {
    var (crd, b) :- GetCrdResponse(b);
    var (vmname, b) :- GetStr(b);
    Got(EndConfigResponse(crd, vmname), b)
  }

  datatype RliResponse = RliResponse(resp: Response, status: U32, timeStamp: U32, clockRate: U32, value: U32,
                                     statusMsg: Str)

  function RliResponseSize(r: RliResponse): nat {
    (if r.resp.header.periodic then 64 else 36) + 20 + |r.statusMsg|
  }

  function PutRliResponse(r: RliResponse, tail: Bytes): (b: Bytes)
    ensures GetRliResponse(b) == Got(r, tail)
    ensures |b| == RliResponseSize(r) + |tail|
  {
    hide PutResponse, GetResponse, PutU32, GetU32, PutStr, GetStr;
    PutResponse(r.resp,
      PutU32(r.status, PutU32(r.timeStamp, PutU32(r.clockRate, PutU32(r.value, PutStr(r.statusMsg, tail))))))
  }

  function GetRliResponse(b: Bytes): Read<RliResponse> {
    var (resp, b) :- GetResponse(b);
    var (status, b) :- GetU32(b);
    var (timeStamp, b) :- GetU32(b);
    var (clockRate, b) :- GetU32(b);
    var (value, b) :- GetU32(b);
    var (statusMsg, b) :- GetStr(b);
    Got(RliResponse(resp, status, timeStamp, clockRate, value, statusMsg), b)
  }
}
