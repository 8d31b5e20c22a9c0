/** What each request does to a VM host, in terms of its sessions, machines, names and records alone. */
module VmHostEffects {
  import opened Lists
  import opened VmHost
  import opened VmHostTheorems

  /** Machine `j` of session `k` is the one the requests for `comp` in `exp` are about. */
  predicate IsMachineOf(h: Host, k: int, j: int, exp: nat, comp: nat) {
    IsMachine(h, k, j) && h.sessions[k].exp == exp && h.sessions[k].vms[j].comp == comp
  }

  /** There is one such machine at most, and the searches find it. */
  lemma FindsMachine(h: Host, k: nat, j: nat, exp: nat, comp: nat)
    requires HostOk(h) && IsMachineOf(h, k, j, exp, comp)
    ensures FindSession(h.sessions, exp) == k && FindVm(h.sessions[k].vms, comp) == j
    ensures SessionOk(h.sessions[k])
  {
    assert SessionOk(h.sessions[k]);
    hide SessionOk, NamesOk;
    FindsSession(h, k);
    assert MachinesOk(h.sessions[k].vms) by {
      SessionMachines(h.sessions[k]);
    }
  }

  lemma SessionMachines(s: SessionRec)
    requires SessionOk(s)
    ensures MachinesOk(s.vms)
  {
  }

  lemma FindsSession(h: Host, k: nat)
    requires SessionsDiffer(h.sessions) && k < |h.sessions|
    ensures FindSession(h.sessions, h.sessions[k].exp) == k
  {
    var i := FindSession(h.sessions, h.sessions[k].exp);
    assert i <= k;
  }

  /** Everything but one session is as it was. */
  predicate OnlySession(h: Host, t: Host, k: int) {
    && |t.sessions| == |h.sessions|
    && forall i :: 0 <= i < |h.sessions| && i != k ==> t.sessions[i] == h.sessions[i]
  }

  lemma ConfigureIs(h: Host, exp: nat, comp: nat, port: nat, vlan: nat)
    ensures var f := FindSession(h.sessions, exp);
            Step(h, ConfigureNode(exp, comp, port, vlan)) ==
            if f == |h.sessions| then h
            else
              var s := h.sessions[f];
              var i := FindVm(s.vms, comp);
              if i == |s.vms| || HasPort(s.vms[i].ifaces, port) then h
              else
                var m := s.vms[i].(ifaces := s.vms[i].ifaces + [Iface(comp, port, vlan)]);
                h.(sessions := h.sessions[f := s.(vms := s.vms[i := m])])
  {
    hide FindSession, FindVm, HasPort;
  }

  /** A configuration adds one interface, with the port and the VLAN asked for, to the component's machine if the machine
      has none on that port; every other machine and every session, record and name stays what it was. */
  lemma ConfigureMeans(h: Host, exp: nat, comp: nat, port: nat, vlan: nat, k: nat, j: nat)
    requires HostOk(h) && IsMachine(h, k, j)
    ensures var t := Step(h, ConfigureNode(exp, comp, port, vlan));
            && t.inUse == h.inUse && |t.sessions| == |h.sessions|
            && (forall i :: 0 <= i < |h.sessions| ==>
                  && t.sessions[i].exp == h.sessions[i].exp && t.sessions[i].vlans == h.sessions[i].vlans
                  && |t.sessions[i].vms| == |h.sessions[i].vms|)
            && var m := h.sessions[k].vms[j];
               t.sessions[k].vms[j] ==
               if h.sessions[k].exp == exp && m.comp == comp && forall x :: x in m.ifaces ==> x.port != port
               then Vm(m.comp, m.name, m.ifaces + [Iface(comp, port, vlan)]) else m
  {
    PortTaken(h.sessions[k].vms[j].ifaces, port);
    if IsMachineOf(h, k, j, exp, comp) {
      FindsMachine(h, k, j, exp, comp);
    } else if h.sessions[k].exp == exp {
      FindsSession(h, k);
    }
    ConfigureIs(h, exp, comp, port, vlan);
    hide HostOk, HasPort, IsMachineOf, Step, ConfigureVm;
  }

  lemma PortTaken(ifaces: seq<Iface>, port: nat)
    ensures HasPort(ifaces, port) <==> exists x :: x in ifaces && x.port == port
  {
    if x :| x in ifaces && x.port == port {
      var i :| 0 <= i < |ifaces| && ifaces[i] == x;
    }
  }

  /** Without such a machine a configuration changes nothing. */
  lemma ConfigureNobody(h: Host, exp: nat, comp: nat, port: nat, vlan: nat)
    requires forall k, j :: !IsMachineOf(h, k, j, exp, comp)
    ensures Step(h, ConfigureNode(exp, comp, port, vlan)) == h
  {
    var k := FindSession(h.sessions, exp);
    if k < |h.sessions| {
      assert !IsMachineOf(h, k, FindVm(h.sessions[k].vms, comp), exp, comp);
    }
  }

  /** An interface configured and then ended is on the record of the VLAN that was asked for, and on no other. */
  lemma ConfigureThenEnd(h: Host, exp: nat, comp: nat, port: nat, vlan: nat, k: nat, j: nat)
    requires HostOk(h) && IsMachineOf(h, k, j, exp, comp)
    requires forall x :: x in h.sessions[k].vms[j].ifaces ==> x.port != port
    ensures var t := Step(Step(h, ConfigureNode(exp, comp, port, vlan)), EndConfigure(exp, comp));
            && k < |t.sessions|
            && (exists i :: OnRecord(t.sessions[k].vlans, i, Iface(comp, port, vlan)))
            && forall i :: OnRecord(t.sessions[k].vlans, i, Iface(comp, port, vlan)) ==> t.sessions[k].vlans[i].id == vlan
  {
    var g := Step(h, ConfigureNode(exp, comp, port, vlan));
    var x := Iface(comp, port, vlan);
    ConfigureMeans(h, exp, comp, port, vlan, k, j);
    StepKeeps(h, ConfigureNode(exp, comp, port, vlan));
    StepKeeps(g, EndConfigure(exp, comp));
    hide HostOk, Step;
    assert x in g.sessions[k].vms[j].ifaces;
    FindsMachine(g, k, j, exp, comp);
    EndConfigureLists(g, exp, comp, x);
    var t := Step(g, EndConfigure(exp, comp));
    EndsOne(g, exp, comp, k, j);
    RecordsTidy(t, k);
    var i :| 0 <= i < |t.sessions[k].vlans| && x in t.sessions[k].vlans[i].ifaces;
    assert OnRecord(t.sessions[k].vlans, i, x);
    forall i | OnRecord(t.sessions[k].vlans, i, x) ensures t.sessions[k].vlans[i].id == vlan {
      assert RecordOk(t.sessions[k].vlans[i]);
    }
  }

  predicate OnRecord(vlans: seq<VlanRec>, i: int, x: Iface) {
    0 <= i < |vlans| && x in vlans[i].ifaces
  }

  lemma RecordsTidy(h: Host, k: nat)
    requires HostOk(h) && k < |h.sessions|
    ensures RecordsOk(h.sessions[k].vlans)
  {
    assert SessionOk(h.sessions[k]);
  }

  /** Ending a configuration changes nothing but the records of one session. */
  lemma EndsOne(h: Host, exp: nat, comp: nat, k: nat, j: nat)
    requires HostOk(h) && IsMachineOf(h, k, j, exp, comp)
    ensures var t := Step(h, EndConfigure(exp, comp));
            && t.inUse == h.inUse && OnlySession(h, t, k)
            && t.sessions[k].exp == exp && t.sessions[k].vms == h.sessions[k].vms
            && forall x :: Listed(t.sessions[k].vlans, x) <==>
                 Listed(h.sessions[k].vlans, x) || x in h.sessions[k].vms[j].ifaces
  {
    FindsMachine(h, k, j, exp, comp);
    RecordsTidy(h, k);
    hide HostOk, RecordsOk;
    JoinAllKeeps(h.sessions[k].vlans, h.sessions[k].vms[j].ifaces);
  }

  // ------------------------------------------------------------- starting

  /** The name is the lowest that is free. */
  predicate LowestFree(inUse: seq<bool>, n: int) {
    0 <= n < |inUse| && !inUse[n] && forall i :: 0 <= i < n ==> inUse[i]
  }

  /** A start for a component that has no machine gives it one, with the lowest free name and no interface, in the
      experiment's session, which is made if there is none. Nothing else changes. */
  lemma StartAdds(h: Host, exp: nat, comp: nat, n: nat)
    requires HostOk(h) && LowestFree(h.inUse, n)
    requires forall k, j :: !IsMachineOf(h, k, j, exp, comp)
    ensures var t, vm := Step(h, StartExperiment(exp, comp)), Vm(comp, n, []);
            && t.inUse == h.inUse[n := true]
            && |h.sessions| <= |t.sessions|
            && (forall k :: 0 <= k < |h.sessions| ==>
                  t.sessions[k] == if h.sessions[k].exp == exp then h.sessions[k].(vms := h.sessions[k].vms + [vm])
                                   else h.sessions[k])
            && t.sessions[|h.sessions|..] ==
               if exists k :: 0 <= k < |h.sessions| && h.sessions[k].exp == exp then []
               else [SessionRec(exp, [vm], [])]
  {
    var k := FindSession(h.sessions, exp);
    assert FirstFree(h.inUse) == n;
    if k < |h.sessions| {
      assert !IsMachineOf(h, k, FindVm(h.sessions[k].vms, comp), exp, comp);
      assert FindVm(h.sessions[k].vms, comp) == |h.sessions[k].vms|;
      assert forall i :: 0 <= i < |h.sessions| && h.sessions[i].exp == exp ==> i == k;
      assert h.sessions[k].exp == exp && Step(h, StartExperiment(exp, comp)).sessions[|h.sessions|..] == [];
    } else {
      var vm := Vm(comp, n, []);
      assert [] + [vm] == [vm];
      assert Step(h, StartExperiment(exp, comp)).sessions == h.sessions + [SessionRec(exp, [vm], [])];
    }
  }

  /** When it has one, or no name is free, only an empty session may be made. */
  lemma StartAddsNothing(h: Host, exp: nat, comp: nat)
    requires (exists k, j :: IsMachineOf(h, k, j, exp, comp)) || forall n :: 0 <= n < |h.inUse| ==> h.inUse[n]
    requires HostOk(h)
    ensures var t := Step(h, StartExperiment(exp, comp));
            && t.inUse == h.inUse
            && t.sessions == h.sessions + if exists k :: 0 <= k < |h.sessions| && h.sessions[k].exp == exp then []
                                          else [SessionRec(exp, [], [])]
  {
    if k, j :| IsMachineOf(h, k, j, exp, comp) {
      FindsMachine(h, k, j, exp, comp);
      assert h.sessions + [] == h.sessions;
    } else {
      assert h.sessions + [] == h.sessions;
    }
  }

  // ------------------------------------------------------------- removing

  lemma RefreshIs(h: Host, exp: nat, comp: nat, undefined: bool, k: nat, j: nat)
    requires IsMachine(h, k, j) && FindSession(h.sessions, exp) == k && FindVm(h.sessions[k].vms, comp) == j
    requires h.sessions[k].vms[j].name < |h.inUse|
    ensures var s := h.sessions[k];
            var left := LeaveAll(s.vlans, s.vms[j].ifaces);
            Step(h, Refresh(exp, comp, undefined)) ==
            if !undefined then h.(sessions := h.sessions[k := s.(vlans := left)])
            else
              Host(h.inUse[s.vms[j].name := false],
                   if RemoveAt(s.vms, j) == [] then RemoveAt(h.sessions, k)
                   else h.sessions[k := s.(vms := RemoveAt(s.vms, j), vlans := left)])
  {
    hide LeaveAll, FindVm, FindSession;
    var s := h.sessions[k];
    var t := s.(vms := RemoveAt(s.vms, j), vlans := LeaveAll(s.vlans, s.vms[j].ifaces));
    assert RemoveAt(h.sessions[k := t], k) == RemoveAt(h.sessions, k);
  }

  /** A refresh takes the machine's interfaces off the records of its session, whatever the script does. If the script
      does not fail, the machine goes and its name is free again, and with the last machine the session goes too. */
  lemma RefreshMeans(h: Host, exp: nat, comp: nat, undefined: bool, k: nat, j: nat)
    requires HostOk(h) && IsMachineOf(h, k, j, exp, comp)
    ensures var t, s := Step(h, Refresh(exp, comp, undefined)), h.sessions[k];
            && |t.inUse| == |h.inUse|
            && (forall n :: 0 <= n < |h.inUse| ==> (t.inUse[n] <==> h.inUse[n] && !(undefined && n == s.vms[j].name)))
            && if undefined && |s.vms| == 1 then t.sessions == h.sessions[..k] + h.sessions[k + 1..]
               else
                 && OnlySession(h, t, k) && t.sessions[k].exp == exp
                 && t.sessions[k].vms == (if undefined then s.vms[..j] + s.vms[j + 1..] else s.vms)
                 && forall x :: Listed(t.sessions[k].vlans, x) <==> Listed(s.vlans, x) && x !in s.vms[j].ifaces
  {
    FindsMachine(h, k, j, exp, comp);
    RecordsTidy(h, k);
    NameIsInUse(h, k, j);
    hide HostOk, RecordsOk, FindVm, FindSession;
    var s := h.sessions[k];
    LeaveAllKeeps(s.vlans, s.vms[j].ifaces);
    RefreshIs(h, exp, comp, undefined, k, j);
    hide LeaveAll, Listed, Step;
    assert |RemoveAt(s.vms, j)| == |s.vms| - 1;
  }

  /** Without such a machine nothing changes, except that the experiment's session goes if it has no machine at all. */
  lemma RefreshNobody(h: Host, exp: nat, comp: nat, undefined: bool)
    requires HostOk(h) && forall k, j :: !IsMachineOf(h, k, j, exp, comp)
    ensures var t := Step(h, Refresh(exp, comp, undefined));
            && t.inUse == h.inUse
            && (forall k :: 0 <= k < |h.sessions| && h.sessions[k].exp == exp && h.sessions[k].vms == [] ==>
                  t.sessions == h.sessions[..k] + h.sessions[k + 1..])
            && ((forall k :: 0 <= k < |h.sessions| && h.sessions[k].exp == exp ==> h.sessions[k].vms != []) ==> t == h)
  {
    var k := FindSession(h.sessions, exp);
    if k < |h.sessions| {
      assert !IsMachineOf(h, k, FindVm(h.sessions[k].vms, comp), exp, comp);
    }
    hide LeaveAll;
  }

  lemma NameIsInUse(h: Host, k: nat, j: nat)
    requires HostOk(h) && IsMachine(h, k, j)
    ensures h.sessions[k].vms[j].name < |h.inUse|
  {
    var n := h.sessions[k].vms[j].name;
    BearersSplit(h.sessions, k, n);
    SomeBearing(h.sessions[k].vms, n);
    assert NameOk(h, n);
  }
}
