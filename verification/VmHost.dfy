/** The bookkeeping of a VM host (vmbase/onlvmbased_session.cc, vmbase/onlvmbased_session_manager.cc) as values: the
    sessions with their virtual machines and VLAN records, and the pool of names. Each request is one step.

    An interface is given by its machine's component, its port and its VLAN, which tell apart all that are there. */
module VmHost {
  import opened Lists

  const NAMES := 24

  datatype Iface = Iface(comp: nat, port: nat, vlan: nat)

  datatype Vm = Vm(comp: nat, name: nat, ifaces: seq<Iface>)

  datatype VlanRec = VlanRec(id: nat, ifaces: seq<Iface>)

  datatype SessionRec = SessionRec(exp: nat, vms: seq<Vm>, vlans: seq<VlanRec>)

  datatype Host = Host(inUse: seq<bool>, sessions: seq<SessionRec>)

  // ------------------------------------------------------------- lists

  /** The index of the machine of a component, or the number of machines. */
  function FindVm(vms: seq<Vm>, comp: nat): (i: nat)
    ensures i <= |vms|
    ensures i < |vms| ==> vms[i].comp == comp
    ensures forall j :: 0 <= j < i ==> vms[j].comp != comp
  {
    if vms == [] || vms[0].comp == comp then 0 else 1 + FindVm(vms[1..], comp)
  }

  function FindVlan(vlans: seq<VlanRec>, id: nat): (i: nat)
    ensures i <= |vlans|
    ensures i < |vlans| ==> vlans[i].id == id
    ensures forall j :: 0 <= j < i ==> vlans[j].id != id
  {
    if vlans == [] || vlans[0].id == id then 0 else 1 + FindVlan(vlans[1..], id)
  }

  function FindSession(sessions: seq<SessionRec>, exp: nat): (i: nat)
    ensures i <= |sessions|
    ensures i < |sessions| ==> sessions[i].exp == exp
    ensures forall j :: 0 <= j < i ==> sessions[j].exp != exp
  {
    if sessions == [] || sessions[0].exp == exp then 0 else 1 + FindSession(sessions[1..], exp)
  }

  predicate HasPort(ifaces: seq<Iface>, port: nat) {
    exists i :: 0 <= i < |ifaces| && ifaces[i].port == port
  }

  /** The first name that is free, or the number of names. */
  function FirstFree(inUse: seq<bool>): (i: nat)
    ensures i <= |inUse|
    ensures i < |inUse| ==> !inUse[i]
    ensures forall j :: 0 <= j < i ==> inUse[j]
  {
    if inUse == [] || !inUse[0] then 0 else 1 + FirstFree(inUse[1..])
  }

  // ------------------------------------------------------------- VLAN records

  /** `getVLan`: the record of a VLAN, made if there is none. */
  function WithVlan(vlans: seq<VlanRec>, id: nat): (r: seq<VlanRec>)
    ensures FindVlan(vlans, id) < |r| && r[FindVlan(vlans, id)].id == id
    ensures vlans <= r
  {
    if FindVlan(vlans, id) < |vlans| then vlans else vlans + [VlanRec(id, [])]
  }

  /** Put an interface on its VLAN's record. */
  function Join(vlans: seq<VlanRec>, x: Iface): seq<VlanRec> {
    var vs, k := WithVlan(vlans, x.vlan), FindVlan(vlans, x.vlan);
    vs[k := vs[k].(ifaces := vs[k].ifaces + [x])]
  }

  /** Take an interface off its VLAN's record, and the record away when nothing is left on it. */
  function Leave(vlans: seq<VlanRec>, x: Iface): seq<VlanRec> {
    var vs, k := WithVlan(vlans, x.vlan), FindVlan(vlans, x.vlan);
    var left := Without(vs[k].ifaces, x);
    if left == [] then RemoveAt(vs, k) else vs[k := vs[k].(ifaces := left)]
  }

  function JoinAll(vlans: seq<VlanRec>, xs: seq<Iface>): seq<VlanRec> {
    if xs == [] then vlans else Join(JoinAll(vlans, xs[..|xs| - 1]), xs[|xs| - 1])
  }

  function LeaveAll(vlans: seq<VlanRec>, xs: seq<Iface>): seq<VlanRec> {
    if xs == [] then vlans else Leave(LeaveAll(vlans, xs[..|xs| - 1]), xs[|xs| - 1])
  }

  // ------------------------------------------------------------- requests

  datatype Request =
    | StartExperiment(exp: nat, comp: nat)
    | ConfigureNode(exp: nat, comp: nat, port: nat, vlan: nat)
    | EndConfigure(exp: nat, comp: nat)
    | Refresh(exp: nat, comp: nat, undefined: bool)

  /** `addSession`. */
  function WithSession(sessions: seq<SessionRec>, exp: nat): (r: seq<SessionRec>)
    ensures FindSession(sessions, exp) < |r| && r[FindSession(sessions, exp)].exp == exp
    ensures sessions <= r
  {
    if FindSession(sessions, exp) < |sessions| then sessions else sessions + [SessionRec(exp, [], [])]
  }

  /** A machine is added unless its component has one or no name is left. */
  function AddVm(h: Host, k: nat, comp: nat): Host
    requires k < |h.sessions|
  {
    var s, n := h.sessions[k], FirstFree(h.inUse);
    if FindVm(s.vms, comp) < |s.vms| || n == |h.inUse| then h
    else Host(h.inUse[n := true], h.sessions[k := s.(vms := s.vms + [Vm(comp, n, [])])])
  }

  function ConfigureVm(s: SessionRec, comp: nat, port: nat, vlan: nat): SessionRec {
    var j := FindVm(s.vms, comp);
    if j == |s.vms| || HasPort(s.vms[j].ifaces, port) then s
    else s.(vms := s.vms[j := s.vms[j].(ifaces := s.vms[j].ifaces + [Iface(comp, port, vlan)])])
  }

  function StartVm(s: SessionRec, comp: nat): SessionRec {
    var j := FindVm(s.vms, comp);
    if j == |s.vms| then s else s.(vlans := JoinAll(s.vlans, s.vms[j].ifaces))
  }

  /** The machine's interfaces are taken off first; when its script then fails it stays, and keeps its name. */
  function RemoveVm(h: Host, k: nat, comp: nat, undefined: bool): (t: Host)
    requires k < |h.sessions|
    ensures |t.sessions| == |h.sessions|
  {
    var s := h.sessions[k];
    var j := FindVm(s.vms, comp);
    if j == |s.vms| then h
    else
      var vm, vlans := s.vms[j], LeaveAll(s.vlans, s.vms[j].ifaces);
      if !undefined then h.(sessions := h.sessions[k := s.(vlans := vlans)])
      else Host(if vm.name < |h.inUse| then h.inUse[vm.name := false] else h.inUse,
                h.sessions[k := s.(vms := RemoveAt(s.vms, j), vlans := vlans)])
  }

  /** A session goes when the removal leaves it without machines. */
  function DeleteVm(h: Host, exp: nat, comp: nat, undefined: bool): Host {
    var k := FindSession(h.sessions, exp);
    if k == |h.sessions| then h
    else
      var t := RemoveVm(h, k, comp, undefined);
      if t.sessions[k].vms == [] then t.(sessions := RemoveAt(t.sessions, k)) else t
  }

  function Step(h: Host, r: Request): Host {
    match r
    case StartExperiment(exp, comp) =>
      AddVm(h.(sessions := WithSession(h.sessions, exp)), FindSession(h.sessions, exp), comp)
    case ConfigureNode(exp, comp, port, vlan) =>
      var k := FindSession(h.sessions, exp);
      if k == |h.sessions| then h
      else h.(sessions := h.sessions[k := ConfigureVm(h.sessions[k], comp, port, vlan)])
    case EndConfigure(exp, comp) =>
      var k := FindSession(h.sessions, exp);
      if k == |h.sessions| then h else h.(sessions := h.sessions[k := StartVm(h.sessions[k], comp)])
    case Refresh(exp, comp, undefined) => DeleteVm(h, exp, comp, undefined)
  }

  /** The component has a machine in the experiment's session. */
  predicate HasMachine(h: Host, exp: nat, comp: nat) {
    var k := FindSession(h.sessions, exp);
    k < |h.sessions| && FindVm(h.sessions[k].vms, comp) < |h.sessions[k].vms|
  }

  function Start(): Host {
    Host(seq(NAMES, _ => false), [])
  }

  function Run(rs: seq<Request>): Host {
    if rs == [] then Start() else Step(Run(rs[..|rs| - 1]), rs[|rs| - 1])
  }
}
