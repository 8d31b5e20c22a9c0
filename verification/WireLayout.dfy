/** The layout of the NCCP messages, byte by byte: each `PutX` writes its fields in this order, numbers in network byte
    order, a string as its length and its characters, and a flag as one byte or two. */
module WireLayout {
  import opened Wire

  function Be16(n: U16): Bytes {
    [n / 0x100, n % 0x100]
  }

  function Be32(n: U32): Bytes {
    [n / 0x100_0000, n / 0x1_0000 % 0x100, n / 0x100 % 0x100, n % 0x100]
  }

  function Text(s: Str): Bytes {
    Be32(|s|) + s
  }

  function Bit8(x: bool): Bytes {
    if x then [1] else [0]
  }

  function Bit16(x: bool): Bytes {
    if x then [0, 1] else [0, 0]
  }

  lemma U16Layout(x: U16, tail: Bytes)
    ensures PutU16(x, tail) == Be16(x) + tail
  {
    assert [x / 0x100] + ([x % 0x100] + tail) == Be16(x) + tail;
  }

  lemma FourBytes(x: U32)
    ensures x / 0x1_0000 / 0x100 == x / 0x100_0000
    ensures x % 0x1_0000 / 0x100 == x / 0x100 % 0x100 && x % 0x1_0000 % 0x100 == x % 0x100
  {
    var y, d := x / 0x100, x % 0x100;
    var z, c := y / 0x100, y % 0x100;
    assert x == 0x1_0000 * z + (0x100 * c + d) && 0 <= 0x100 * c + d < 0x1_0000;
    assert x / 0x1_0000 == z && x % 0x1_0000 == 0x100 * c + d;
    assert x == 0x100_0000 * (z / 0x100) + (0x1_0000 * (z % 0x100) + 0x100 * c + d);
  }

  lemma U32Layout(x: U32, tail: Bytes)
    ensures PutU32(x, tail) == Be32(x) + tail
  {
    var hi, lo := x / 0x1_0000, x % 0x1_0000;
    assert PutU32(x, tail) == Be16(hi) + (Be16(lo) + tail) by {
      U16Layout(lo, tail);
      U16Layout(hi, Be16(lo) + tail);
      hide PutU16, Be16;
    }
    assert Be16(hi) + Be16(lo) == Be32(x) by {
      FourBytes(x);
    }
    hide Be16, Be32, PutU32;
    assert Be16(hi) + (Be16(lo) + tail) == Be16(hi) + Be16(lo) + tail;
  }

  lemma StrLayout(s: Str, tail: Bytes)
    ensures PutStr(s, tail) == Text(s) + tail
  {
    U32Layout(|s|, s + tail);
    hide PutU32, Be32;
    assert Be32(|s|) + (s + tail) == Text(s) + tail;
  }

  lemma BoolLayout(x: bool, tail: Bytes)
    ensures PutBool(x, tail) == Bit16(x) + tail
  {
    U16Layout(if x then 1 else 0, tail);
  }

  /** All the basic types. */
  lemma Basics()
    ensures forall x: Byte, tail :: PutU8(x, tail) == [x] + tail
    ensures forall x, tail :: PutU16(x, tail) == Be16(x) + tail
    ensures forall x, tail :: PutU32(x, tail) == Be32(x) + tail
    ensures forall s, tail :: PutStr(s, tail) == Text(s) + tail
    ensures forall x, tail :: PutBool(x, tail) == Bit16(x) + tail
    ensures forall x, tail :: PutFlag(x, tail) == Bit8(x) + tail
  {
    forall x, tail ensures PutU16(x, tail) == Be16(x) + tail {
      U16Layout(x, tail);
    }
    forall x, tail ensures PutU32(x, tail) == Be32(x) + tail {
      U32Layout(x, tail);
    }
    forall s, tail ensures PutStr(s, tail) == Text(s) + tail {
      StrLayout(s, tail);
    }
  }

  lemma ExperimentInfoLayout(e: ExperimentInfo, tail: Bytes)
    ensures PutExperimentInfo(e, tail) == Text(e.id) + (Text(e.expName) + (Text(e.userName) + tail))
  {
    Basics();
    hide PutU8, PutU16, PutU32, PutStr, PutBool, PutFlag;
  }

  lemma ComponentLayout(c: Component, tail: Bytes)
    ensures PutComponent(c, tail) == Text(c.ctype) + (Be32(c.id) + (Be32(c.parent) + (Text(c.labelText) +
            (Text(c.cp) + (Bit8(c.isRouter) + tail)))))
  {
    Basics();
    hide PutU8, PutU16, PutU32, PutStr, PutBool, PutFlag;
  }

  lemma ExperimentLayout(e: Experiment, tail: Bytes)
    ensures PutExperiment(e, tail) == Text(e.addr) + (Be32(e.port) + PutExperimentInfo(e.info, tail))
  {
    Basics();
    hide PutU8, PutU16, PutU32, PutStr, PutBool, PutFlag, PutExperimentInfo;
  }

  /** A parameter is its type, as two bytes, and its value. */
  lemma ParamLayout(p: Param, tail: Bytes)
    ensures match p
            case UnknownParam => PutParam(p, tail) == [0, 0] + tail
            case IntParam(n) => PutParam(p, tail) == [0, 1] + (Be32(n) + tail)
            case DoubleParam(digits) => PutParam(p, tail) == [0, 2] + (Text(digits) + tail)
            case BoolParam(flag) => PutParam(p, tail) == [0, 3] + (Bit8(flag) + tail)
            case StringParam(text) => PutParam(p, tail) == [0, 4] + (Text(text) + tail)
  {
    Basics();
    hide PutU8, PutU16, PutU32, PutStr, PutBool, PutFlag;
  }

  /** The parameters of a list follow each other in order, after their number. */
  lemma {:induction false} ParamsInOrder(a: seq<Param>, b: seq<Param>, tail: Bytes)
    ensures PutParamItems(a + b, tail) == PutParamItems(a, PutParamItems(b, tail))
  {
    if a == [] {
      assert a + b == b;
    } else {
      assert (a + b)[1..] == a[1..] + b;
      ParamsInOrder(a[1..], b, tail);
    }
  }

  lemma ParamsLayout(ps: Params, tail: Bytes)
    ensures PutParams(ps, tail) == Be32(|ps|) + PutParamItems(ps, tail)
    ensures PutParamItems([], tail) == tail
    ensures forall p :: PutParamItems([p], tail) == PutParam(p, tail)
  {
    Basics();
    hide PutU8, PutU16, PutU32, PutStr, PutBool, PutFlag;
    forall p ensures PutParamItems([p], tail) == PutParam(p, tail) {
      assert [p][1..] == [];
    }
  }

  lemma NextHopLayout(h: NextHop, tail: Bytes)
    ensures PutNextHop(h, tail) == Text(h.ipaddr) + (Text(h.ntype) + (Bit16(h.isRouter) + (Text(h.macAddr) +
            (Text(h.devIpaddr) + tail))))
  {
    Basics();
    hide PutU8, PutU16, PutU32, PutStr, PutBool, PutFlag;
  }

  lemma NodeInfoEnd(n: NodeInfo, tail: Bytes)
    ensures PutU32(n.realPort, PutU32(n.vlanid, PutU32(n.bandwidth, PutStr(n.devIpaddr, tail)))) ==
            Be32(n.realPort) + (Be32(n.vlanid) + (Be32(n.bandwidth) + (Text(n.devIpaddr) + tail)))
  {
    Basics();
    hide PutU32, PutStr, Be32, Text;
  }

  lemma NodeInfoLayout(n: NodeInfo, tail: Bytes)
    ensures PutNodeInfo(n, tail) ==
            Text(n.ipaddr) + (Text(n.subnet) + (Be32(n.port) + PutNextHop(n.nexthop,
              Be32(n.realPort) + (Be32(n.vlanid) + (Be32(n.bandwidth) + (Text(n.devIpaddr) + tail))))))
  {
    NodeInfoEnd(n, tail);
    var after := PutU32(n.realPort, PutU32(n.vlanid, PutU32(n.bandwidth, PutStr(n.devIpaddr, tail))));
    hide PutU32, PutStr, PutNextHop, Be32, Text;
    StrLayout(n.ipaddr, PutStr(n.subnet, PutU32(n.port, PutNextHop(n.nexthop, after))));
    StrLayout(n.subnet, PutU32(n.port, PutNextHop(n.nexthop, after)));
    U32Layout(n.port, PutNextHop(n.nexthop, after));
  }

  lemma PortRefLayout(p: PortRef, tail: Bytes)
    ensures PutPortRef(p, tail) == Text(p.switchid) + (Be32(p.port) + (Bit16(p.interSwitch) + (Bit16(p.passTag) +
            tail)))
  {
    Basics();
    hide PutU8, PutU16, PutU32, PutStr, PutBool, PutFlag;
  }

  lemma SwitchRefLayout(s: SwitchRef, tail: Bytes)
    ensures PutSwitchRef(s, tail) == Text(s.switchid) + (Be32(s.ports) + (Be32(s.managementPort) + tail))
  {
    Basics();
    hide PutU8, PutU16, PutU32, PutStr, PutBool, PutFlag;
  }

  lemma {:induction false} SwitchesInOrder(a: seq<SwitchRef>, b: seq<SwitchRef>, tail: Bytes)
    ensures PutSwitchItems(a + b, tail) == PutSwitchItems(a, PutSwitchItems(b, tail))
  {
    if a == [] {
      assert a + b == b;
    } else {
      assert (a + b)[1..] == a[1..] + b;
      SwitchesInOrder(a[1..], b, tail);
    }
  }

  /** The operation is the first of the 28 bytes, and the sequence number the fifth to the eighth. */
  lemma RendezvousLayout(r: Rendezvous, tail: Bytes)
    ensures PutRendezvous(r, tail) == [r.id] + (Be16(r.unused1) + ([r.unused2] + (Be32(r.seqNum) + (Be32(r.unused3) +
            (Be32(r.unused4) + (Be32(r.unused5) + (Be32(r.unused6) + (Be32(r.unused7) + tail))))))))
  {
    Basics();
    hide PutU8, PutU16, PutU32, PutStr, PutBool, PutFlag;
  }

  lemma HeaderLayout(h: Header, tail: Bytes)
    ensures PutHeader(h, tail) == Be16(h.mtype) + ([h.version] + ([h.op] + ([h.rend.id] + (Be16(h.rend.unused1) +
            ([h.rend.unused2] + (Be32(h.rend.seqNum) + (Be32(h.rend.unused3) + (Be32(h.rend.unused4) +
            (Be32(h.rend.unused5) + (Be32(h.rend.unused6) + (Be32(h.rend.unused7) + (Bit16(h.periodic) +
            tail))))))))))))
  {
    RendezvousLayout(h.rend, PutBool(h.periodic, tail));
    U16Layout(h.mtype, PutU8(h.version, PutU8(h.op, PutRendezvous(h.rend, PutBool(h.periodic, tail)))));
    BoolLayout(h.periodic, tail);
    hide PutU16, PutBool, PutRendezvous, Be16, Be32, Bit16;
  }

  /** Only a periodic request has its period after the header. */
  lemma RequestLayout(r: Request, tail: Bytes)
    ensures PutRequest(r, tail) ==
            PutHeader(r.header, if r.header.periodic then Be32(r.period.value.sec) + (Be32(r.period.value.usec) + tail) else tail)
  {
    var p := r.period;
    assert p.Some? <==> r.header.periodic;
    if p.Some? {
      U32Layout(p.value.usec, tail);
      U32Layout(p.value.sec, PutU32(p.value.usec, tail));
    }
    hide PutU32, PutHeader, Be32;
  }

  /** Only a periodic response has the return rendezvous after the header. */
  lemma ResponseLayout(r: Response, tail: Bytes)
    ensures PutResponse(r, tail) ==
            PutHeader(r.header, if r.header.periodic then PutRendezvous(r.returnRend.value, Bit16(r.endOfMessage) + tail)
                                else Bit16(r.endOfMessage) + tail)
  {
    Basics();
    hide PutU8, PutU16, PutU32, PutStr, PutBool, PutFlag, PutHeader, PutRendezvous;
  }

  lemma PeriodicLayout(p: Periodic, tail: Bytes)
    ensures PutPeriodic(p, tail) ==
            Be16(p.mtype) + ([p.version] + ([p.op] + PutRendezvous(p.rend, PutRendezvous(p.returnRend, tail))))
  {
    U16Layout(p.mtype, PutU8(p.version, PutU8(p.op, PutRendezvous(p.rend, PutRendezvous(p.returnRend, tail)))));
    hide PutU16, PutRendezvous;
  }

  /** A request about a component names its experiment, then the component; so does the response, after the status. */
  lemma CrdRequestLayout(r: CrdRequest, tail: Bytes)
    ensures PutCrdRequest(r, tail) == PutRequest(r.req, PutExperiment(r.exp, PutComponent(r.comp, tail)))
  {
    hide PutRequest, PutExperiment, PutComponent;
  }

  lemma CrdResponseLayout(r: CrdResponse, tail: Bytes)
    ensures PutCrdResponse(r, tail) ==
            PutResponse(r.resp, Be32(r.status) + PutExperiment(r.exp, PutComponent(r.comp, tail)))
  {
    U32Layout(r.status, PutExperiment(r.exp, PutComponent(r.comp, tail)));
    hide PutU32, PutResponse, PutExperiment, PutComponent;
  }

  lemma StartExperimentLayout(r: StartExperiment, tail: Bytes)
    ensures PutStartExperiment(r, tail) ==
            PutCrdRequest(r.crd, Text(r.ipaddr) + PutParams(r.initParams, Be32(r.cores) + (Be32(r.memory) + tail)))
  {
    Basics();
    hide PutU8, PutU16, PutU32, PutStr, PutBool, PutFlag, PutCrdRequest, PutParams;
  }

  lemma NodeRequestsLayout(c: ConfigureNode, r: Refresh, tail: Bytes)
    ensures PutConfigureNode(c, tail) == PutCrdRequest(c.crd, PutNodeInfo(c.nodeConf, tail))
    ensures PutRefresh(r, tail) == PutCrdRequest(r.crd, PutParams(r.rebootParams, tail))
  {
    hide PutCrdRequest, PutNodeInfo, PutParams;
  }

  lemma SwitchRequestLayout(r: SwitchRequest, tail: Bytes)
    ensures PutSwitchRequest(r, tail) == PutRequest(r.req, Text(r.sessionId) + tail)
  {
    Basics();
    hide PutU8, PutU16, PutU32, PutStr, PutBool, PutFlag, PutRequest;
  }

  lemma DeleteVlanLayout(r: DeleteVlan, tail: Bytes)
    ensures PutDeleteVlan(r, tail) == PutRequest(r.sw.req, Text(r.sw.sessionId) + (Be32(r.vlanid) + tail))
  {
    U32Layout(r.vlanid, tail);
    StrLayout(r.sw.sessionId, PutU32(r.vlanid, tail));
    hide PutU32, PutStr, PutRequest, Be32, Text;
  }

  lemma AddToVlanLayout(r: AddToVlan, tail: Bytes)
    ensures PutAddToVlan(r, tail) ==
            PutRequest(r.sw.req, Text(r.sw.sessionId) + (Be32(r.vlanid) + PutPortRef(r.port, tail)))
  {
    var after := PutPortRef(r.port, tail);
    U32Layout(r.vlanid, after);
    StrLayout(r.sw.sessionId, PutU32(r.vlanid, after));
    hide PutU32, PutStr, PutRequest, PutPortRef, Be32, Text;
  }

  lemma InitializeLayout(r: Initialize, tail: Bytes)
    ensures PutInitialize(r, tail) == PutRequest(r.req, Be32(|r.switches|) + PutSwitchItems(r.switches, tail))
    ensures PutSwitchItems([], tail) == tail
    ensures forall s :: PutSwitchItems([s], tail) == PutSwitchRef(s, tail)
  {
    Basics();
    hide PutU8, PutU16, PutU32, PutStr, PutBool, PutFlag, PutRequest, PutSwitchRef;
    forall s ensures PutSwitchItems([s], tail) == PutSwitchRef(s, tail) {
      assert [s][1..] == [];
    }
  }

  lemma EndConfigResponseLayout(r: EndConfigResponse, tail: Bytes)
    ensures PutEndConfigResponse(r, tail) == PutCrdResponse(r.crd, Text(r.vmname) + tail)
  {
    Basics();
    hide PutU8, PutU16, PutU32, PutStr, PutBool, PutFlag, PutCrdResponse;
  }

  lemma RliResponseLayout(r: RliResponse, tail: Bytes)
    ensures PutRliResponse(r, tail) == PutResponse(r.resp, Be32(r.status) + (Be32(r.timeStamp) + (Be32(r.clockRate) +
            (Be32(r.value) + (Text(r.statusMsg) + tail)))))
  {
    Basics();
    hide PutU8, PutU16, PutU32, PutStr, PutBool, PutFlag, PutResponse;
  }

  // ------------------------------------------------------------- what is read from any bytes

  lemma U16Read(b: Bytes)
    ensures GetU16(b) == if |b| < 2 then Short else Got(0x100 * b[0] as nat + b[1] as nat, b[2..])
  {
    if |b| >= 2 {
      assert b[1..][1..] == b[2..];
    }
  }

  lemma U32Read(b: Bytes)
    ensures GetU32(b) ==
            if |b| < 4 then Short else Got(0x100_0000 * b[0] as nat + 0x1_0000 * b[1] as nat + 0x100 * b[2] as nat + b[3] as nat, b[4..])
  {
    U16Read(b);
    if |b| >= 2 {
      U16Read(b[2..]);
      assert |b| >= 4 ==> b[2..][2..] == b[4..];
    }
    hide GetU16;
  }

  /** Whatever is not zero is true. */
  lemma BoolRead(b: Bytes)
    ensures GetBool(b) == if |b| < 2 then Short else Got(b[0] != 0 || b[1] != 0, b[2..])
    ensures GetFlag(b) == if |b| < 1 then Short else Got(b[0] != 0, b[1..])
  {
    U16Read(b);
    hide GetU16;
  }

  /** A string's length is taken to be 255 if it says more, and the rest is what follows so many characters. */
  lemma StrRead(b: Bytes, n: nat)
    requires |b| >= 4 && n == 0x100_0000 * b[0] as nat + 0x1_0000 * b[1] as nat + 0x100 * b[2] as nat + b[3] as nat
    ensures var m := if n <= 255 then n else 255;
            GetStr(b) == if |b| < 4 + m then Short else Got(b[4..4 + m], b[4 + m..])
  {
    U32Read(b);
    hide GetU32;
    var m := if n <= 255 then n else 255;
    if |b| >= 4 + m {
      assert b[4..][..m] == b[4..4 + m] && b[4..][m..] == b[4 + m..];
    }
  }

  /** A parameter of a type that is none of the four is read as unknown, and nothing more of it. */
  lemma UnknownTypeRead(b: Bytes)
    requires |b| >= 2 && (b[0] != 0 || b[1] == 0 || b[1] > 4)
    ensures GetParam(b) == Got(UnknownParam, b[2..])
  {
    U16Read(b);
    hide GetU16, GetU32, GetStr, GetFlag;
  }
}
