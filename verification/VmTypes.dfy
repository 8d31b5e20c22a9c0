/** `session` and `session_manager` of the VM host, updating their lists in place (vmbase/onlvmbased_session.cc,
    vmbase/onlvmbased_session_manager.cc), proved against the steps of `VmHost`. The outcome of a script is a
    parameter. */
module VmTypes {
  import opened Lists
  import opened VmHost
  import opened VmHostTheorems

  // ------------------------------------------------------------- session

  class Session {
    const exp: nat
    var vms: seq<Vm>
    var vlans: seq<VlanRec>

    ghost function Rec(): SessionRec
      reads this
    {
      SessionRec(exp, vms, vlans)
    }

    constructor (exp: nat)
      ensures Rec() == SessionRec(exp, [], [])
    {
      this.exp := exp;
      vms, vlans := [], [];
    }

    method GetVM(comp: nat) returns (j: nat)
      ensures j == FindVm(vms, comp)
    {
      for i := 0 to |vms|
        invariant forall j :: 0 <= j < i ==> vms[j].comp != comp
      {
        if vms[i].comp == comp {
          return i;
        }
      }
      return |vms|;
    }

    method GetVLan(id: nat) returns (k: nat)
      modifies this`vlans
      ensures k == FindVlan(old(vlans), id) && vlans == WithVlan(old(vlans), id)
    {
      for i := 0 to |vlans|
        invariant vlans == old(vlans) && forall j :: 0 <= j < i ==> vlans[j].id != id
      {
        if vlans[i].id == id {
          return i;
        }
      }
      k := |vlans|;
      vlans := vlans + [VlanRec(id, [])];
    }

    method HasInterface(j: nat, port: nat) returns (found: bool)
      requires j < |vms|
      ensures found == HasPort(vms[j].ifaces, port)
    {
      for i := 0 to |vms[j].ifaces|
        invariant forall k :: 0 <= k < i ==> vms[j].ifaces[k].port != port
      {
        if vms[j].ifaces[i].port == port {
          return true;
        }
      }
      return false;
    }

    method ConfigureVM(comp: nat, port: nat, vlan: nat) returns (ok: bool)
      modifies this`vms
      ensures ok <==> FindVm(old(vms), comp) < |old(vms)|
      ensures Rec() == ConfigureVm(old(Rec()), comp, port, vlan)
    {
      var j := GetVM(comp);
      if j == |vms| {
        return false;
      }
      var found := HasInterface(j, port);
      if !found {
        vms := vms[j := vms[j].(ifaces := vms[j].ifaces + [Iface(comp, port, vlan)])];
      }
      return true;
    }

    /** The part of `startVM` that records the machine's interfaces on their VLANs. */
    method ListInterfaces(j: nat)
      requires j < |vms|
      modifies this`vlans
      ensures vlans == JoinAll(old(vlans), vms[j].ifaces)
    {
      var xs := vms[j].ifaces;
      for i := 0 to |xs|
        invariant vlans == JoinAll(old(vlans), xs[..i])
      {
        assert xs[..i + 1][..i] == xs[..i];
        var k := GetVLan(xs[i].vlan);
        vlans := vlans[k := vlans[k].(ifaces := vlans[k].ifaces + [xs[i]])];
      }
      assert xs[..|xs|] == xs;
    }

    method UnlistInterfaces(j: nat)
      requires j < |vms|
      modifies this`vlans
      ensures vlans == LeaveAll(old(vlans), vms[j].ifaces)
    {
      var xs := vms[j].ifaces;
      for i := 0 to |xs|
        invariant vlans == LeaveAll(old(vlans), xs[..i])
      {
        assert xs[..i + 1][..i] == xs[..i];
        var k := GetVLan(xs[i].vlan);
        vlans := vlans[k := vlans[k].(ifaces := Without(vlans[k].ifaces, xs[i]))];
        if vlans[k].ifaces == [] {
          vlans := RemoveAt(vlans, k);
        }
      }
      assert xs[..|xs|] == xs;
    }
  }

  ghost function Recs(ss: seq<Session>): (r: seq<SessionRec>)
    reads ss
    ensures |r| == |ss| && forall i :: 0 <= i < |ss| ==> r[i] == ss[i].Rec()
  {
    seq(|ss|, i requires 0 <= i < |ss| reads ss => ss[i].Rec())
  }

  // ------------------------------------------------------------- session_manager

  class SessionManager {
    const inUse: array<bool>
    var active: seq<Session>

    ghost predicate Shape()
      reads this
    {
      inUse.Length == NAMES && forall i, j :: 0 <= i < j < |active| ==> active[i] != active[j]
    }

    /** The host is in a state that every run of requests keeps to. */
    ghost predicate Valid()
      reads this, inUse, active
    {
      Shape() && HostOk(View())
    }

    ghost function View(): Host
      reads this, inUse, active
    {
      Host(inUse[..], Recs(active))
    }

    constructor ()
      ensures Valid() && fresh(inUse) && View() == Start() && active == []
    {
      inUse := new bool[NAMES](_ => false);
      active := [];
      new;
      assert View() == Start();
      RunKeeps([]);
    }

    method GetSession(exp: nat) returns (k: nat)
      ensures k == FindSession(Recs(active), exp)
    {
      ghost var recs := Recs(active);
      for i := 0 to |active|
        invariant forall j :: 0 <= j < i ==> recs[j].exp != exp
      {
        if active[i].exp == exp {
          return i;
        }
      }
      return |active|;
    }

    method AddSession(exp: nat) returns (k: nat)
      requires Shape()
      modifies this`active
      ensures Shape() && k == FindSession(old(Recs(active)), exp) < |active|
      ensures Recs(active) == WithSession(old(Recs(active)), exp)
      ensures forall s :: s in active ==> s in old(active) || fresh(s)
    {
      k := GetSession(exp);
      if k == |active| {
        var s := new Session(exp);
        active := active + [s];
        assert Recs(active) == old(Recs(active)) + [s.Rec()];
      }
    }

    /** Give out the first name that is not in use. */
    method AssignVM() returns (ok: bool, name: nat)
      requires Shape()
      modifies inUse
      ensures ok <==> FirstFree(old(inUse[..])) < NAMES
      ensures ok ==> name == FirstFree(old(inUse[..])) && inUse[..] == old(inUse[..])[name := true]
      ensures !ok ==> inUse[..] == old(inUse[..])
    {
      name := 0;
      while name < NAMES
        invariant 0 <= name <= NAMES && inUse[..] == old(inUse[..])
        invariant forall j :: 0 <= j < name ==> inUse[j]
      {
        if !inUse[name] {
          inUse[name] := true;
          return true, name;
        }
        name := name + 1;
      }
      return false, 0;
    }

    method ReleaseVMname(name: nat)
      requires Shape() && name < NAMES
      modifies inUse
      ensures inUse[..] == old(inUse[..])[name := false]
    {
      inUse[name] := false;
    }

    /** `addVM`, which fails only when no name is left. */
    method AddVM(k: nat, comp: nat) returns (ok: bool)
      requires Shape() && k < |active|
      modifies inUse, active[k]
      ensures Shape() && View() == AddVm(old(View()), k, comp)
      ensures ok <==> FindVm(old(active[k].vms), comp) < |old(active[k].vms)| || FirstFree(old(inUse[..])) < NAMES
    {
      ghost var recs := Recs(active);
      var s := active[k];
      var j := s.GetVM(comp);
      if j < |s.vms| {
        return true;
      }
      var name;
      ok, name := AssignVM();
      if ok {
        s.vms := s.vms + [Vm(comp, name, [])];
        assert forall i :: 0 <= i < |active| && i != k ==> active[i].Rec() == recs[i];
        assert Recs(active) == recs[k := s.Rec()];
      }
    }

    /** `removeVM`; a component without a machine counts as removed. */
    method RemoveVM(k: nat, comp: nat, undefined: bool) returns (ok: bool)
      requires Shape() && k < |active|
      requires forall vm :: vm in active[k].vms ==> vm.name < NAMES
      modifies inUse, active[k]
      ensures Shape() && View() == RemoveVm(old(View()), k, comp, undefined)
      ensures ok <==> undefined || FindVm(old(active[k].vms), comp) == |old(active[k].vms)|
    {
      ghost var recs := Recs(active);
      var s := active[k];
      var j := s.GetVM(comp);
      if j == |s.vms| {
        return true;
      }
      s.UnlistInterfaces(j);
      if undefined {
        ReleaseVMname(s.vms[j].name);
        s.vms := RemoveAt(s.vms, j);
      }
      assert forall i :: 0 <= i < |active| && i != k ==> active[i].Rec() == recs[i];
      assert Recs(active) == recs[k := s.Rec()];
      return undefined;
    }

    /** `startVM`: the interfaces are recorded whether or not the machine then starts. */
    method StartVM(k: nat, comp: nat, started: bool) returns (ok: bool)
      requires Shape() && k < |active| && FindVm(active[k].vms, comp) < |active[k].vms|
      modifies active[k]
      ensures Shape() && ok == started
      ensures View() == old(View()).(sessions := old(View()).sessions[k := StartVm(old(active[k].Rec()), comp)])
    {
      ghost var recs := Recs(active);
      var j := active[k].GetVM(comp);
      active[k].ListInterfaces(j);
      assert forall i :: 0 <= i < |active| && i != k ==> active[i].Rec() == recs[i];
      assert Recs(active) == recs[k := active[k].Rec()];
      return started;
    }

    method ConfigureVMOf(k: nat, comp: nat, port: nat, vlan: nat) returns (ok: bool)
      requires Shape() && k < |active|
      modifies active[k]
      ensures Shape() && (ok <==> FindVm(old(active[k].vms), comp) < |old(active[k].vms)|)
      ensures View() ==
              old(View()).(sessions := old(View()).sessions[k := ConfigureVm(old(active[k].Rec()), comp, port, vlan)])
    {
      ghost var recs := Recs(active);
      ok := active[k].ConfigureVM(comp, port, vlan);
      assert forall i :: 0 <= i < |active| && i != k ==> active[i].Rec() == recs[i];
      assert Recs(active) == recs[k := active[k].Rec()];
    }

    method DropSession(k: nat)
      requires Shape() && k < |active|
      modifies this`active
      ensures Shape() && active == RemoveAt(old(active), k)
      ensures View() == old(View()).(sessions := RemoveAt(old(View()).sessions, k))
    {
      ghost var recs := Recs(active);
      active := RemoveAt(active, k);
      assert Recs(active) == RemoveAt(recs, k);
    }

    // ----------------------------------------------------------- the requests

    method StartExperiment(exp: nat, comp: nat) returns (ok: bool)
      requires Valid()
      modifies this`active, inUse, active
      ensures Valid() && View() == Step(old(View()), Request.StartExperiment(exp, comp))
      ensures ok <==> HasMachine(old(View()), exp, comp) || FirstFree(old(inUse[..])) < NAMES
    {
      StepKeeps(View(), Request.StartExperiment(exp, comp));
      hide HostOk;
      var k := AddSession(exp);
      assert active[k] in active;
      ok := AddVM(k, comp);
    }

    method ConfigureNode(exp: nat, comp: nat, port: nat, vlan: nat) returns (ok: bool)
      requires Valid()
      modifies active
      ensures Valid() && View() == Step(old(View()), Request.ConfigureNode(exp, comp, port, vlan))
      ensures ok <==> HasMachine(old(View()), exp, comp)
    {
      StepKeeps(View(), Request.ConfigureNode(exp, comp, port, vlan));
      hide HostOk;
      var k := GetSession(exp);
      if k == |active| {
        return false;
      }
      ok := ConfigureVMOf(k, comp, port, vlan);
    }

    /** The requester must have started the experiment and the machine: the code does not check that it finds them. */
    method EndConfigure(exp: nat, comp: nat, started: bool) returns (ok: bool)
      requires Valid()
      requires HasMachine(View(), exp, comp)
      modifies active
      ensures Valid() && View() == Step(old(View()), Request.EndConfigure(exp, comp)) && ok == started
    {
      StepKeeps(View(), Request.EndConfigure(exp, comp));
      hide HostOk;
      var k := GetSession(exp);
      ok := StartVM(k, comp, started);
    }

    method DeleteVM(exp: nat, comp: nat, undefined: bool) returns (ok: bool)
      requires Valid()
      modifies this`active, inUse, active
      ensures Valid() && View() == Step(old(View()), Refresh(exp, comp, undefined))
      ensures ok <==> undefined || !HasMachine(old(View()), exp, comp)
    {
      ghost var h := View();
      StepKeeps(h, Refresh(exp, comp, undefined));
      var k := GetSession(exp);
      if k == |active| {
        return true;
      }
      LiveNamesInRange(h, k);
      assert h.sessions[k] == active[k].Rec();
      hide HostOk, VmHost.RemoveVm;
      ok := RemoveVM(k, comp, undefined);
      RemovedFails(h, k, comp, undefined);
      assert View().sessions[k] == active[k].Rec();
      if ok && active[k].vms == [] {
        DropSession(k);
      }
    }
  }

  /** When the removal fails there is still a machine, so that the session stays whatever is asked. */
  lemma RemovedFails(h: Host, k: nat, comp: nat, undefined: bool)
    requires k < |h.sessions|
    ensures !undefined && FindVm(h.sessions[k].vms, comp) < |h.sessions[k].vms| ==>
              VmHost.RemoveVm(h, k, comp, undefined).sessions[k].vms != []
  {
  }

  lemma LiveNamesInRange(h: Host, k: nat)
    requires HostOk(h) && k < |h.sessions|
    ensures forall vm :: vm in h.sessions[k].vms ==> vm.name < NAMES
  {
    forall j | 0 <= j < |h.sessions[k].vms| ensures h.sessions[k].vms[j].name < NAMES {
      var n := h.sessions[k].vms[j].name;
      BearersSplit(h.sessions, k, n);
      SomeBearing(h.sessions[k].vms, n);
      assert NameOk(h, n);
    }
  }
}
