/** Bandwidth admission of the software router (swrouter/swrd_router.cc): every port takes a share of one interface. */
module RouterNics {
  import opened Wire

  const MAX_NIC := 10
  const MAX_PORT := 32

  datatype PortInfo = PortInfo(configured: bool, nicIndex: nat, vlan: U16, rate: U32, maxRate: U32)

  datatype Error = NotEnoughBandwidth | ScriptFailed | InvalidPort | UnconfiguredPort | InvalidLinkRate
  datatype Outcome = Done | Failed(error: Error)

  /** What is left of each interface, and the ports. */
  datatype Tables = Tables(nics: seq<U32>, ports: seq<PortInfo>)

  predicate Shaped(t: Tables) {
    |t.nics| == MAX_NIC && |t.ports| == MAX_PORT
  }

  /** What a port takes of an interface. */
  function Share(p: PortInfo, nic: nat): nat {
    if p.configured && p.nicIndex == nic then p.maxRate else 0
  }

  /** What the ports together take of an interface. */
  function UsedBy(ports: seq<PortInfo>, nic: nat): nat {
    if ports == [] then 0 else UsedBy(ports[..|ports| - 1], nic) + Share(ports[|ports| - 1], nic)
  }

  lemma {:induction false} ShareOf(ports: seq<PortInfo>, i: nat, p: PortInfo, nic: nat)
    requires i < |ports|
    ensures UsedBy(ports[i := p], nic) == UsedBy(ports, nic) - Share(ports[i], nic) + Share(p, nic)
  {
    var n := |ports| - 1;
    if i == n {
      assert ports[i := p][..n] == ports[..n];
    } else {
      assert ports[i := p][..n] == ports[..n][i := p];
      ShareOf(ports[..n], i, p, nic);
    }
  }

  // ------------------------------------------------------------- the router

  function Configured(t: Tables, port: nat, realPort: nat, vlan: U16, rate: U32): Tables
    requires Shaped(t) && port < MAX_PORT && realPort < MAX_NIC && rate <= t.nics[realPort]
  {
    Tables(t.nics[realPort := t.nics[realPort] - rate], t.ports[port := PortInfo(true, realPort, vlan, rate, rate)])
  }

  class Router {
    const nicTable: array<U32>
    const portTable: array<PortInfo>
    var numConfiguredPorts: nat

    ghost predicate Valid()
    {
      nicTable.Length == MAX_NIC && portTable.Length == MAX_PORT
    }

    ghost function View(): Tables
      reads nicTable, portTable
    {
      Tables(nicTable[..], portTable[..])
    }

    /** Every interface starts with the rate of the router's kind. */
    constructor (tenGig: bool)
      ensures Valid() && nicTable.Length == 10 && portTable.Length == 32
      ensures fresh(nicTable) && fresh(portTable) && View() == Start(tenGig) && numConfiguredPorts == 0
      ensures forall i :: 0 <= i < MAX_NIC ==> nicTable[i] == if tenGig then 10_000_000 else 1_000_000
      ensures forall i :: 0 <= i < MAX_PORT ==> !portTable[i].configured
    {
      nicTable := new U32[MAX_NIC](_ => InitialRate(tenGig));
      portTable := new PortInfo[MAX_PORT](_ => PortInfo(false, 0, 0, 0, 0));
      numConfiguredPorts := 0;
    }

    /** The share is taken before anything else is done, and a later failure does not give it back; nor does giving
        the port a new share. The scripts run only when the port is configured for the first time. */
    method ConfigurePort(port: nat, realPort: nat, vlan: U16, rate: U32, scriptsRun: bool) returns (r: Outcome)
      requires Valid() && port < MAX_PORT && realPort < MAX_NIC
      modifies nicTable, portTable, this`numConfiguredPorts
      ensures r == Failed(NotEnoughBandwidth) <==> rate > old(nicTable[realPort])
      ensures View() == Step(old(View()), Configure(port, realPort, vlan, rate))
      ensures r != Failed(NotEnoughBandwidth) ==>
                && portTable[port] == PortInfo(true, realPort, vlan, rate, rate)
                && nicTable[realPort] == old(nicTable[realPort]) - rate
      ensures r == Failed(ScriptFailed) <==>
                rate <= old(nicTable[realPort]) && !old(portTable[port].configured) && !scriptsRun
      ensures r in {Done, Failed(NotEnoughBandwidth), Failed(ScriptFailed)}
      ensures numConfiguredPorts == old(numConfiguredPorts) +
                if rate <= old(nicTable[realPort]) && !old(portTable[port].configured) then 1 else 0
    {
      if rate > nicTable[realPort] {
        return Failed(NotEnoughBandwidth);
      }
      nicTable[realPort] := nicTable[realPort] - rate;
      var was := portTable[port];
      portTable[port] := was.(vlan := vlan, nicIndex := realPort, rate := rate, maxRate := rate);
      if !was.configured {
        portTable[port] := portTable[port].(configured := true);
        numConfiguredPorts := numConfiguredPorts + 1;
        if !scriptsRun {
          return Failed(ScriptFailed);
        }
      }
      return Done;
    }

    /** The rate is changed before `tc` runs, so a failure of `tc` leaves it changed. Index 32 is let through by the
        test but is no port. */
    method SetPortRate(port: nat, rate: U32, scriptsRun: bool) returns (r: Outcome)
      requires Valid() && port != MAX_PORT
      modifies portTable
      ensures r == Failed(InvalidPort) <==> port > MAX_PORT
      ensures r == Failed(UnconfiguredPort) <==> port < MAX_PORT && !old(portTable[port].configured)
      ensures r == Failed(InvalidLinkRate) <==>
                port < MAX_PORT && old(portTable[port].configured) && rate > old(portTable[port].maxRate)
      ensures View() == Step(old(View()), SetRate(port, rate))
      ensures r == Done ==> scriptsRun && portTable[port] == old(portTable[port]).(rate := rate)
    {
      if port > MAX_PORT {
        return Failed(InvalidPort);
      }
      if !portTable[port].configured {
        return Failed(UnconfiguredPort);
      }
      if rate > portTable[port].maxRate {
        return Failed(InvalidLinkRate);
      }
      portTable[port] := portTable[port].(rate := rate);
      if !scriptsRun {
        return Failed(ScriptFailed);
      }
      return Done;
    }
  }

  function Rated(t: Tables, port: nat, rate: U32): Tables
    requires Shaped(t)
  {
    if port < MAX_PORT then t.(ports := t.ports[port := t.ports[port].(rate := rate)]) else t
  }

  function InitialRate(tenGig: bool): U32 {
    if tenGig then 10_000_000 else 1_000_000
  }

  function Start(tenGig: bool): Tables {
    Tables(seq(MAX_NIC, _ => InitialRate(tenGig)), seq(MAX_PORT, _ => PortInfo(false, 0, 0, 0, 0)))
  }

  // ------------------------------------------------------------- runs

  datatype Op =
    | Configure(port: nat, realPort: nat, vlan: U16, rate: U32)
    | SetRate(port: nat, rate: U32)

  predicate InRange(op: Op) {
    match op
    case Configure(port, realPort, _, _) => port < MAX_PORT && realPort < MAX_NIC
    case SetRate(port, _) => port != MAX_PORT
  }

  /** What one request leaves behind, whether or not its scripts run. */
  function Step(t: Tables, op: Op): Tables
    requires Shaped(t) && InRange(op)
  {
    match op
    case Configure(port, realPort, vlan, rate) =>
      if rate > t.nics[realPort] then t else Configured(t, port, realPort, vlan, rate)
    case SetRate(port, rate) =>
      if port < MAX_PORT && t.ports[port].configured && rate <= t.ports[port].maxRate then Rated(t, port, rate) else t
  }

  function Run(tenGig: bool, ops: seq<Op>): (t: Tables)
    requires forall op :: op in ops ==> InRange(op)
    ensures Shaped(t)
  {
    if ops == [] then Start(tenGig) else Step(Run(tenGig, ops[..|ops| - 1]), ops[|ops| - 1])
  }

  /** Rate that was taken by a share since replaced by another. */
  function LostBy(op: Op, before: Tables, nic: nat): nat
    requires Shaped(before) && InRange(op)
  {
    match op
    case Configure(port, realPort, _, rate) =>
      if rate <= before.nics[realPort] then Share(before.ports[port], nic) else 0
    case SetRate(_, _) => 0
  }

  function Lost(tenGig: bool, ops: seq<Op>, nic: nat): nat
    requires forall op :: op in ops ==> InRange(op)
  {
    if ops == [] then 0
    else
      var before := ops[..|ops| - 1];
      Lost(tenGig, before, nic) + LostBy(ops[|ops| - 1], Run(tenGig, before), nic)
  }

  lemma StepAccounts(t: Tables, op: Op, nic: nat)
    requires Shaped(t) && InRange(op) && nic < MAX_NIC
    ensures Step(t, op).nics[nic] + UsedBy(Step(t, op).ports, nic) + LostBy(op, t, nic) ==
            t.nics[nic] + UsedBy(t.ports, nic)
  {
    match op {
      case Configure(port, realPort, vlan, rate) =>
        ShareOf(t.ports, port, PortInfo(true, realPort, vlan, rate, rate), nic);
      case SetRate(port, rate) =>
        if port < MAX_PORT {
          ShareOf(t.ports, port, t.ports[port].(rate := rate), nic);
        }
    }
  }

  lemma {:induction false} NothingUsed(ports: seq<PortInfo>, nic: nat)
    requires forall p :: p in ports ==> !p.configured
    ensures UsedBy(ports, nic) == 0
  {
    if ports != [] {
      assert ports[|ports| - 1] in ports;
      NothingUsed(ports[..|ports| - 1], nic);
    }
  }

  /** After any run, what is left of an interface, what its ports may use, and what replaced shares took make up
      exactly its rate. So no interface is ever oversubscribed; and reconfiguring a port loses its old share for good. */
  lemma {:induction false} RateIsAccountedFor(tenGig: bool, ops: seq<Op>, nic: nat)
    requires (forall op :: op in ops ==> InRange(op)) && nic < MAX_NIC
    ensures var t := Run(tenGig, ops);
            var whole := if tenGig then 10_000_000 else 1_000_000;
            && t.nics[nic] + UsedBy(t.ports, nic) + Lost(tenGig, ops, nic) == whole
            && UsedBy(t.ports, nic) <= whole
  {
    if ops == [] {
      NothingUsed(Start(tenGig).ports, nic);
    } else {
      var before := ops[..|ops| - 1];
      RateIsAccountedFor(tenGig, before, nic);
      assert ops[|ops| - 1] in ops;
      StepAccounts(Run(tenGig, before), ops[|ops| - 1], nic);
    }
  }

  /** No port is ever given more than it was configured for. */
  lemma {:induction false} RateWithinMax(tenGig: bool, ops: seq<Op>, port: nat)
    requires (forall op :: op in ops ==> InRange(op)) && port < MAX_PORT
    ensures Run(tenGig, ops).ports[port].rate <= Run(tenGig, ops).ports[port].maxRate
  {
    if ops != [] {
      assert ops[|ops| - 1] in ops;
      RateWithinMax(tenGig, ops[..|ops| - 1], port);
    }
  }

  /** A bandwidth in Mbit/s becomes a rate in kbit/s in 32 bits. */
  function RequestedRate(bandwidth: U32): U32 {
    bandwidth * 1000 % 0x1_0000_0000
  }

  /** Exactly the bandwidths below 4294968 Mbit/s are asked for as they are; a larger one is admitted as less. */
  lemma RequestedAsIsIff(bandwidth: U32)
    ensures RequestedRate(bandwidth) == bandwidth * 1000 <==> bandwidth < 4_294_968
    ensures RequestedRate(bandwidth) <= bandwidth * 1000
  {
  }
}
