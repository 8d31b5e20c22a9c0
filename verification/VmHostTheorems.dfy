/** What holds of a VM host after every run of requests, whatever its scripts do. */
module VmHostTheorems {
  import opened Lists
  import opened VmHost

  // ------------------------------------------------------------- VLAN records

  /** Every record is of a VLAN of its own, is not empty, and lists only interfaces on its VLAN. */
  ghost predicate RecordsOk(vlans: seq<VlanRec>) {
    && (forall k :: 0 <= k < |vlans| ==> RecordOk(vlans[k]))
    && (forall i, j :: 0 <= i < j < |vlans| ==> vlans[i].id != vlans[j].id)
  }

  predicate RecordOk(r: VlanRec) {
    r.ifaces != [] && forall x :: x in r.ifaces ==> x.vlan == r.id
  }

  ghost predicate Listed(vlans: seq<VlanRec>, x: Iface) {
    exists k :: 0 <= k < |vlans| && x in vlans[k].ifaces
  }

  /** In a tidy list an interface can only be on the record of its VLAN. */
  lemma ListedAt(vlans: seq<VlanRec>, x: Iface)
    requires RecordsOk(vlans)
    ensures var k := FindVlan(vlans, x.vlan); Listed(vlans, x) <==> k < |vlans| && x in vlans[k].ifaces
  {
    hide FindVlan;
    if Listed(vlans, x) {
      var i :| 0 <= i < |vlans| && x in vlans[i].ifaces;
      assert RecordOk(vlans[i]);
    }
  }

  lemma JoinKeeps(vlans: seq<VlanRec>, x: Iface)
    requires RecordsOk(vlans)
    ensures RecordsOk(Join(vlans, x))
    ensures forall y :: Listed(Join(vlans, x), y) <==> Listed(vlans, y) || y == x
  {
    var vs, k := WithVlan(vlans, x.vlan), FindVlan(vlans, x.vlan);
    var after := Join(vlans, x);
    forall i | 0 <= i < |after| ensures RecordOk(after[i]) {
      if i < |vlans| {
        assert RecordOk(vlans[i]);
      }
    }
    forall y ensures Listed(after, y) <==> Listed(vlans, y) || y == x {
      if Listed(after, y) {
        var i :| 0 <= i < |after| && y in after[i].ifaces;
        if y != x {
          assert i < |vlans| && y in vlans[i].ifaces;
        }
      }
      if Listed(vlans, y) {
        var i :| 0 <= i < |vlans| && y in vlans[i].ifaces;
        assert y in after[i].ifaces;
      }
      assert x in after[k].ifaces;
    }
  }

  lemma LeaveKeeps(vlans: seq<VlanRec>, x: Iface)
    requires RecordsOk(vlans)
    ensures RecordsOk(Leave(vlans, x))
    ensures forall y :: Listed(Leave(vlans, x), y) <==> Listed(vlans, y) && y != x
  {
    var k := FindVlan(vlans, x.vlan);
    var after := Leave(vlans, x);
    if k == |vlans| {
      assert after == vlans;
      ListedAt(vlans, x);
    } else if Without(vlans[k].ifaces, x) == [] {
      LeaveDrops(vlans, x);
    } else {
      forall i | 0 <= i < |after| ensures RecordOk(after[i]) {
        assert RecordOk(vlans[i]);
      }
      forall y ensures Listed(after, y) <==> Listed(vlans, y) && y != x {
        ListedAt(vlans, x);
        ListedAt(vlans, y);
        ListedAt(after, y);
        assert forall i :: 0 <= i < |vlans| ==> after[i].id == vlans[i].id;
        SameIds(vlans, after, y.vlan);
      }
    }
  }

  lemma {:induction false} SameIds(a: seq<VlanRec>, b: seq<VlanRec>, id: nat)
    requires |a| == |b| && forall i :: 0 <= i < |a| ==> a[i].id == b[i].id
    ensures FindVlan(a, id) == FindVlan(b, id)
  {
    if a != [] && a[0].id != id {
      SameIds(a[1..], b[1..], id);
    }
  }

  /** The record that would be left empty goes. */
  lemma LeaveDrops(vlans: seq<VlanRec>, x: Iface)
    requires RecordsOk(vlans)
    requires FindVlan(vlans, x.vlan) < |vlans| && Without(vlans[FindVlan(vlans, x.vlan)].ifaces, x) == []
    ensures RecordsOk(Leave(vlans, x))
    ensures forall y :: Listed(Leave(vlans, x), y) <==> Listed(vlans, y) && y != x
  {
    var k := FindVlan(vlans, x.vlan);
    assert vlans[k].ifaces[0] in vlans[k].ifaces && forall y :: y in vlans[k].ifaces ==> y == x by {
      assert RecordOk(vlans[k]);
      assert forall y :: y in Without(vlans[k].ifaces, x) <==> y in vlans[k].ifaces && y != x;
    }
    assert Leave(vlans, x) == RemoveAt(vlans, k);
    hide Without, Leave;
    DropKeepsRecords(vlans, k);
    forall y ensures Listed(RemoveAt(vlans, k), y) <==> Listed(vlans, y) && y != x {
      DropUnlists(vlans, k, x, y);
    }
  }

  lemma DropKeepsRecords(vlans: seq<VlanRec>, k: nat)
    requires RecordsOk(vlans) && k < |vlans|
    ensures RecordsOk(RemoveAt(vlans, k))
  {
    var after := RemoveAt(vlans, k);
    forall i | 0 <= i < |after| ensures RecordOk(after[i]) {
      assert RecordOk(vlans[if i < k then i else i + 1]);
    }
  }

  lemma ListedJoin(a: seq<VlanRec>, b: seq<VlanRec>, x: Iface)
    ensures Listed(a + b, x) <==> Listed(a, x) || Listed(b, x)
  {
    if i :| 0 <= i < |a| && x in a[i].ifaces {
      assert (a + b)[i] == a[i];
    }
    if i :| 0 <= i < |b| && x in b[i].ifaces {
      assert (a + b)[|a| + i] == b[i];
    }
  }

  lemma DropUnlists(vlans: seq<VlanRec>, k: nat, x: Iface, y: Iface)
    requires RecordsOk(vlans) && k < |vlans| && x in vlans[k].ifaces && forall z :: z in vlans[k].ifaces ==> z == x
    ensures Listed(RemoveAt(vlans, k), y) <==> Listed(vlans, y) && y != x
  {
    var a, r, b := vlans[..k], vlans[k], vlans[k + 1..];
    assert !Listed(a, x) && !Listed(b, x) by {
      ElsewhereUnlisted(vlans, k, x);
    }
    assert r == [r][0] && (Listed([r], y) <==> y == x);
    hide Listed, RecordsOk;
    assert vlans == a + ([r] + b) && RemoveAt(vlans, k) == a + b;
    ListedJoin(a, [r] + b, y);
    ListedJoin([r], b, y);
    ListedJoin(a, b, y);
  }

  lemma ElsewhereUnlisted(vlans: seq<VlanRec>, k: nat, x: Iface)
    requires RecordsOk(vlans) && k < |vlans| && x in vlans[k].ifaces
    ensures !Listed(vlans[..k], x) && !Listed(vlans[k + 1..], x)
  {
    assert RecordOk(vlans[k]) && forall i :: 0 <= i < |vlans| ==> RecordOk(vlans[i]);
  }

  lemma {:induction false} JoinAllKeeps(vlans: seq<VlanRec>, xs: seq<Iface>)
    requires RecordsOk(vlans)
    ensures RecordsOk(JoinAll(vlans, xs))
    ensures forall y :: Listed(JoinAll(vlans, xs), y) <==> Listed(vlans, y) || y in xs
  {
    if xs != [] {
      JoinAllKeeps(vlans, xs[..|xs| - 1]);
      JoinKeeps(JoinAll(vlans, xs[..|xs| - 1]), xs[|xs| - 1]);
      assert xs == xs[..|xs| - 1] + [xs[|xs| - 1]];
    }
  }

  lemma {:induction false} LeaveAllKeeps(vlans: seq<VlanRec>, xs: seq<Iface>)
    requires RecordsOk(vlans)
    ensures RecordsOk(LeaveAll(vlans, xs))
    ensures forall y :: Listed(LeaveAll(vlans, xs), y) <==> Listed(vlans, y) && y !in xs
  {
    if xs != [] {
      LeaveAllKeeps(vlans, xs[..|xs| - 1]);
      LeaveKeeps(LeaveAll(vlans, xs[..|xs| - 1]), xs[|xs| - 1]);
      assert xs == xs[..|xs| - 1] + [xs[|xs| - 1]];
    }
  }

  // ------------------------------------------------------------- sessions

  /** One machine per component, and its interfaces are its own, one per port. */
  ghost predicate MachinesOk(vms: seq<Vm>) {
    && (forall j :: 0 <= j < |vms| ==> MachineOk(vms[j]))
    && (forall i, j :: 0 <= i < j < |vms| ==> vms[i].comp != vms[j].comp)
  }

  predicate MachineOk(vm: Vm) {
    && (forall x :: x in vm.ifaces ==> x.comp == vm.comp)
    && (forall i, j :: 0 <= i < j < |vm.ifaces| ==> vm.ifaces[i].port != vm.ifaces[j].port)
  }

  /** The interface belongs to one of the machines. */
  ghost predicate Owned(vms: seq<Vm>, x: Iface) {
    exists j :: 0 <= j < |vms| && x in vms[j].ifaces
  }

  ghost predicate SessionOk(s: SessionRec) {
    MachinesOk(s.vms) && RecordsOk(s.vlans) && forall x :: Listed(s.vlans, x) ==> Owned(s.vms, x)
  }

  lemma ConfigureKeeps(s: SessionRec, comp: nat, port: nat, vlan: nat)
    requires SessionOk(s)
    ensures SessionOk(ConfigureVm(s, comp, port, vlan))
  {
    var j := FindVm(s.vms, comp);
    if j < |s.vms| && !HasPort(s.vms[j].ifaces, port) {
      var t := ConfigureVm(s, comp, port, vlan);
      forall i | 0 <= i < |t.vms| ensures MachineOk(t.vms[i]) {
        assert MachineOk(s.vms[i]);
      }
      forall x | Listed(t.vlans, x) ensures Owned(t.vms, x) {
        var i :| 0 <= i < |s.vms| && x in s.vms[i].ifaces;
        assert x in t.vms[i].ifaces;
      }
    }
  }

  lemma StartKeeps(s: SessionRec, comp: nat)
    requires SessionOk(s)
    ensures SessionOk(StartVm(s, comp))
  {
    var j := FindVm(s.vms, comp);
    if j < |s.vms| {
      JoinAllKeeps(s.vlans, s.vms[j].ifaces);
      assert forall x :: x in s.vms[j].ifaces ==> Owned(s.vms, x);
    }
  }

  /** Taking a machine's interfaces off leaves only those of the other machines. */
  lemma TakeOffKeeps(s: SessionRec, j: nat)
    requires SessionOk(s) && j < |s.vms|
    ensures SessionOk(s.(vlans := LeaveAll(s.vlans, s.vms[j].ifaces)))
    ensures SessionOk(s.(vms := RemoveAt(s.vms, j), vlans := LeaveAll(s.vlans, s.vms[j].ifaces)))
  {
    hide LeaveAll, RecordsOk;
    var vlans, vms := LeaveAll(s.vlans, s.vms[j].ifaces), RemoveAt(s.vms, j);
    LeaveAllKeeps(s.vlans, s.vms[j].ifaces);
    forall i | 0 <= i < |vms| ensures MachineOk(vms[i]) {
      assert MachineOk(s.vms[if i < j then i else i + 1]);
    }
    forall x | Listed(vlans, x) ensures Owned(vms, x) {
      assert Owned(s.vms, x) && x !in s.vms[j].ifaces;
      var i :| 0 <= i < |s.vms| && x in s.vms[i].ifaces;
      assert x in vms[if i < j then i else i - 1].ifaces;
    }
  }

  lemma AddKeeps(s: SessionRec, comp: nat, name: nat)
    requires SessionOk(s) && FindVm(s.vms, comp) == |s.vms|
    ensures SessionOk(s.(vms := s.vms + [Vm(comp, name, [])]))
  {
    var t := s.(vms := s.vms + [Vm(comp, name, [])]);
    forall i | 0 <= i < |t.vms| ensures MachineOk(t.vms[i]) {
      if i < |s.vms| {
        assert MachineOk(s.vms[i]);
      }
    }
    forall x | Listed(t.vlans, x) ensures Owned(t.vms, x) {
      var i :| 0 <= i < |s.vms| && x in s.vms[i].ifaces;
      assert x in t.vms[i].ifaces;
    }
  }

  // ------------------------------------------------------------- names

  /** How many of the machines have a name. */
  function Bearing(vms: seq<Vm>, n: nat): nat {
    if vms == [] then 0 else Bearing(vms[..|vms| - 1], n) + if vms[|vms| - 1].name == n then 1 else 0
  }

  /** How many machines of the whole host have a name. */
  function Bearers(sessions: seq<SessionRec>, n: nat): nat {
    if sessions == [] then 0 else Bearers(sessions[..|sessions| - 1], n) + Bearing(sessions[|sessions| - 1].vms, n)
  }

  lemma {:induction false} BearingOf(a: seq<Vm>, b: seq<Vm>, n: nat)
    ensures Bearing(a + b, n) == Bearing(a, n) + Bearing(b, n)
  {
    if b == [] {
      assert a + b == a;
    } else {
      assert (a + b)[..|a + b| - 1] == a + b[..|b| - 1];
      BearingOf(a, b[..|b| - 1], n);
    }
  }

  lemma {:induction false} BearersOf(a: seq<SessionRec>, b: seq<SessionRec>, n: nat)
    ensures Bearers(a + b, n) == Bearers(a, n) + Bearers(b, n)
  {
    if b == [] {
      assert a + b == a;
    } else {
      assert (a + b)[..|a + b| - 1] == a + b[..|b| - 1];
      BearersOf(a, b[..|b| - 1], n);
    }
  }

  lemma BearingOne(vm: Vm, n: nat)
    ensures Bearing([vm], n) == if vm.name == n then 1 else 0
  {
    assert Bearing([vm][..0], n) == 0;
  }

  lemma BearersOne(s: SessionRec, n: nat)
    ensures Bearers([s], n) == Bearing(s.vms, n)
  {
    assert Bearers([s][..0], n) == 0;
  }

  lemma BearersSplit(sessions: seq<SessionRec>, k: nat, n: nat)
    requires k < |sessions|
    ensures Bearers(sessions, n) == Bearers(sessions[..k], n) + Bearing(sessions[k].vms, n) + Bearers(sessions[k + 1..], n)
  {
    assert sessions == sessions[..k] + ([sessions[k]] + sessions[k + 1..]);
    BearersOf(sessions[..k], [sessions[k]] + sessions[k + 1..], n);
    BearersOf([sessions[k]], sessions[k + 1..], n);
    BearersOne(sessions[k], n);
  }

  lemma BearingSplit(vms: seq<Vm>, j: nat, n: nat)
    requires j < |vms|
    ensures Bearing(vms, n) == Bearing(RemoveAt(vms, j), n) + if vms[j].name == n then 1 else 0
  {
    assert vms == vms[..j] + ([vms[j]] + vms[j + 1..]);
    BearingOf(vms[..j], [vms[j]] + vms[j + 1..], n);
    BearingOf([vms[j]], vms[j + 1..], n);
    BearingOne(vms[j], n);
    BearingOf(vms[..j], vms[j + 1..], n);
  }

  /** Changing one session changes the count by what changes in it. */
  lemma BearersUpdate(sessions: seq<SessionRec>, k: nat, s: SessionRec, n: nat)
    requires k < |sessions|
    ensures Bearers(sessions[k := s], n) == Bearers(sessions, n) - Bearing(sessions[k].vms, n) + Bearing(s.vms, n)
  {
    BearersSplit(sessions, k, n);
    BearersSplit(sessions[k := s], k, n);
    assert sessions[k := s][..k] == sessions[..k] && sessions[k := s][k + 1..] == sessions[k + 1..];
  }

  /** A name is borne by one machine if it is in use and by none if it is not. */
  ghost predicate NamesOk(h: Host) {
    |h.inUse| == NAMES && forall n: nat :: NameOk(h, n)
  }

  predicate NameOk(h: Host, n: nat)
    requires |h.inUse| == NAMES
  {
    Bearers(h.sessions, n) == if n < NAMES && h.inUse[n] then 1 else 0
  }

  // ------------------------------------------------------------- the invariant

  ghost predicate HostOk(h: Host) {
    && NamesOk(h)
    && (forall k :: 0 <= k < |h.sessions| ==> SessionOk(h.sessions[k]))
    && SessionsDiffer(h.sessions)
  }

  predicate SessionsDiffer(sessions: seq<SessionRec>) {
    forall i, j :: 0 <= i < j < |sessions| ==> sessions[i].exp != sessions[j].exp
  }

  /** A change of one session that keeps its machines' names. */
  lemma ChangeKeeps(h: Host, k: nat, s: SessionRec)
    requires HostOk(h) && k < |h.sessions| && SessionOk(s) && s.exp == h.sessions[k].exp
    requires forall n: nat :: Bearing(s.vms, n) == Bearing(h.sessions[k].vms, n)
    ensures HostOk(h.(sessions := h.sessions[k := s]))
  {
    hide SessionOk, Bearers, Bearing;
    var g := h.(sessions := h.sessions[k := s]);
    forall n: nat ensures NameOk(g, n) {
      assert NameOk(h, n);
      BearersUpdate(h.sessions, k, s, n);
    }
  }

  lemma {:induction false} SameNames(a: seq<Vm>, b: seq<Vm>, n: nat)
    requires |a| == |b| && forall j :: 0 <= j < |a| ==> a[j].name == b[j].name
    ensures Bearing(a, n) == Bearing(b, n)
  {
    if a != [] {
      SameNames(a[..|a| - 1], b[..|b| - 1], n);
    }
  }

  lemma WithSessionKeeps(h: Host, exp: nat)
    requires HostOk(h)
    ensures HostOk(h.(sessions := WithSession(h.sessions, exp)))
  {
    if FindSession(h.sessions, exp) == |h.sessions| {
      var s := SessionRec(exp, [], []);
      var g := h.(sessions := h.sessions + [s]);
      forall n: nat ensures NameOk(g, n) {
        assert NameOk(h, n);
        BearersOf(h.sessions, [s], n);
        BearersOne(s, n);
      }
      assert SessionOk(s);
    }
  }

  lemma AddVmKeeps(h: Host, k: nat, comp: nat)
    requires HostOk(h) && k < |h.sessions|
    ensures HostOk(AddVm(h, k, comp))
  {
    var s, m := h.sessions[k], FirstFree(h.inUse);
    if FindVm(s.vms, comp) == |s.vms| && m < |h.inUse| {
      var t := s.(vms := s.vms + [Vm(comp, m, [])]);
      hide SessionOk, Bearers, Bearing, FindVm, FirstFree;
      AddKeeps(s, comp, m);
      var g := AddVm(h, k, comp);
      forall n: nat ensures NameOk(g, n) {
        NameTaken(h, k, comp, m, n);
      }
    }
  }

  /** A machine with a free name makes that name's count one. */
  lemma NameTaken(h: Host, k: nat, comp: nat, m: nat, n: nat)
    requires NamesOk(h) && k < |h.sessions| && m < NAMES && !h.inUse[m]
    ensures var s := h.sessions[k];
            NameOk(Host(h.inUse[m := true], h.sessions[k := s.(vms := s.vms + [Vm(comp, m, [])])]), n)
  {
    hide Bearers, Bearing;
    var s, vm := h.sessions[k], Vm(comp, m, []);
    assert NameOk(h, n);
    BearersUpdate(h.sessions, k, s.(vms := s.vms + [vm]), n);
    BearingOf(s.vms, [vm], n);
    BearingOne(vm, n);
  }

  lemma RemoveVmKeeps(h: Host, k: nat, comp: nat, undefined: bool)
    requires HostOk(h) && k < |h.sessions|
    ensures HostOk(RemoveVm(h, k, comp, undefined))
  {
    var s := h.sessions[k];
    var j := FindVm(s.vms, comp);
    if j < |s.vms| {
      TakeOffKeeps(s, j);
      var vlans := LeaveAll(s.vlans, s.vms[j].ifaces);
      if !undefined {
        ChangeKeeps(h, k, s.(vlans := vlans));
      } else {
        RemovalFreesName(h, k, j, s.(vms := RemoveAt(s.vms, j), vlans := vlans));
      }
    }
  }

  lemma RemovalFreesName(h: Host, k: nat, j: nat, t: SessionRec)
    requires HostOk(h) && k < |h.sessions| && j < |h.sessions[k].vms|
    requires t.vms == RemoveAt(h.sessions[k].vms, j) && t.exp == h.sessions[k].exp && SessionOk(t)
    ensures var name := h.sessions[k].vms[j].name;
            name < NAMES && HostOk(Host(h.inUse[name := false], h.sessions[k := t]))
  {
    hide SessionOk, Bearers, Bearing;
    var s := h.sessions[k];
    var name := s.vms[j].name;
    BearersSplit(h.sessions, k, name);
    BearingSplit(s.vms, j, name);
    assert NameOk(h, name);
    var g := Host(h.inUse[name := false], h.sessions[k := t]);
    forall n: nat ensures NameOk(g, n) {
      assert NameOk(h, n);
      BearersUpdate(h.sessions, k, t, n);
      BearingSplit(s.vms, j, n);
    }
  }

  /** With no machines there is nothing to list. */
  lemma RecordsNeedMachines(s: SessionRec)
    requires SessionOk(s) && s.vlans != []
    ensures s.vms != []
  {
    assert RecordOk(s.vlans[0]);
    assert s.vlans[0].ifaces[0] in s.vlans[0].ifaces;
    assert Listed(s.vlans, s.vlans[0].ifaces[0]);
  }

  lemma SessionGoes(h: Host, k: nat)
    requires HostOk(h) && k < |h.sessions| && h.sessions[k].vms == []
    ensures HostOk(h.(sessions := RemoveAt(h.sessions, k)))
  {
    hide SessionOk, Bearers;
    var g := h.(sessions := RemoveAt(h.sessions, k));
    forall n: nat ensures NameOk(g, n) {
      assert NameOk(h, n);
      BearersSplit(h.sessions, k, n);
      BearersOf(h.sessions[..k], h.sessions[k + 1..], n);
    }
    forall i | 0 <= i < |g.sessions| ensures SessionOk(g.sessions[i]) {
      assert SessionOk(h.sessions[if i < k then i else i + 1]);
    }
  }

  lemma DeleteVmKeeps(h: Host, exp: nat, comp: nat, undefined: bool)
    requires HostOk(h)
    ensures HostOk(DeleteVm(h, exp, comp, undefined))
  {
    hide HostOk, RemoveVm;
    var k := FindSession(h.sessions, exp);
    if k < |h.sessions| {
      RemoveVmKeeps(h, k, comp, undefined);
      var t := RemoveVm(h, k, comp, undefined);
      if t.sessions[k].vms == [] {
        SessionGoes(t, k);
      }
    }
  }

  lemma StepKeeps(h: Host, r: Request)
    requires HostOk(h)
    ensures HostOk(Step(h, r))
  {
    match r {
      case StartExperiment(exp, comp) =>
        WithSessionKeeps(h, exp);
        AddVmKeeps(h.(sessions := WithSession(h.sessions, exp)), FindSession(h.sessions, exp), comp);
      case ConfigureNode(exp, comp, port, vlan) =>
        var k := FindSession(h.sessions, exp);
        if k < |h.sessions| {
          var s, t := h.sessions[k], ConfigureVm(h.sessions[k], comp, port, vlan);
          ConfigureKeeps(s, comp, port, vlan);
          forall n: nat ensures Bearing(t.vms, n) == Bearing(s.vms, n) {
            SameNames(t.vms, s.vms, n);
          }
          ChangeKeeps(h, k, t);
        }
      case EndConfigure(exp, comp) =>
        var k := FindSession(h.sessions, exp);
        if k < |h.sessions| {
          StartKeeps(h.sessions[k], comp);
          ChangeKeeps(h, k, StartVm(h.sessions[k], comp));
        }
      case Refresh(exp, comp, undefined) =>
        DeleteVmKeeps(h, exp, comp, undefined);
    }
  }

  lemma {:induction false} RunKeeps(rs: seq<Request>)
    ensures HostOk(Run(rs))
  {
    if rs != [] {
      RunKeeps(rs[..|rs| - 1]);
      StepKeeps(Run(rs[..|rs| - 1]), rs[|rs| - 1]);
    }
  }

  // ------------------------------------------------------------- theorems

  /** A machine of the host: the `j`th of the `k`th session. */
  predicate IsMachine(h: Host, k: int, j: int) {
    0 <= k < |h.sessions| && 0 <= j < |h.sessions[k].vms|
  }

  lemma {:induction false} SomeBearing(vms: seq<Vm>, n: nat)
    ensures Bearing(vms, n) > 0 <==> exists j :: 0 <= j < |vms| && vms[j].name == n
  {
    if vms != [] {
      var m := |vms| - 1;
      SomeBearing(vms[..m], n);
      if vms[m].name != n && exists j :: 0 <= j < |vms| && vms[j].name == n {
        var j :| 0 <= j < |vms| && vms[j].name == n;
        assert vms[..m][j].name == n;
      }
    }
  }

  lemma {:induction false} SomeBearer(sessions: seq<SessionRec>, n: nat)
    requires Bearers(sessions, n) > 0
    ensures exists k, j :: 0 <= k < |sessions| && 0 <= j < |sessions[k].vms| && sessions[k].vms[j].name == n
  {
    var m := |sessions| - 1;
    if Bearing(sessions[m].vms, n) > 0 {
      SomeBearing(sessions[m].vms, n);
      var j :| 0 <= j < |sessions[m].vms| && sessions[m].vms[j].name == n;
    } else {
      SomeBearer(sessions[..m], n);
      var k, j :| 0 <= k < m && 0 <= j < |sessions[..m][k].vms| && sessions[..m][k].vms[j].name == n;
      assert sessions[k].vms[j].name == n;
    }
  }

  /** Two machines with one name would be counted twice. */
  lemma TwoBearers(sessions: seq<SessionRec>, k: nat, j: nat, k': nat, j': nat)
    requires k < |sessions| && j < |sessions[k].vms| && k' < |sessions| && j' < |sessions[k'].vms|
    requires (k, j) != (k', j') && sessions[k].vms[j].name == sessions[k'].vms[j'].name
    ensures Bearers(sessions, sessions[k].vms[j].name) >= 2
  {
    var n := sessions[k].vms[j].name;
    BearingSplit(sessions[k].vms, j, n);
    if k == k' {
      var rest := RemoveAt(sessions[k].vms, j);
      var i := if j' < j then j' else j' - 1;
      assert rest[i].name == n;
      SomeBearing(rest, n);
      BearersSplit(sessions, k, n);
    } else {
      BearingSplit(sessions[k'].vms, j', n);
      BearersSplit(sessions, k, n);
      if k' < k {
        BearersSplit(sessions[..k], k', n);
      } else {
        BearersSplit(sessions[k + 1..], k' - k - 1, n);
      }
    }
  }

  /** After any run the names in use are exactly the names of the machines there are, and no two machines of the host
      have the same one. */
  lemma NamesInUseAreLive(rs: seq<Request>)
    ensures var h := Run(rs);
            && |h.inUse| == 24
            && (forall n :: 0 <= n < 24 ==>
                  (h.inUse[n] <==> exists k, j :: IsMachine(h, k, j) && h.sessions[k].vms[j].name == n))
            && (forall k, j :: IsMachine(h, k, j) ==> h.sessions[k].vms[j].name < 24)
            && (forall k, j, k', j' :: IsMachine(h, k, j) && IsMachine(h, k', j') && (k, j) != (k', j') ==>
                  h.sessions[k].vms[j].name != h.sessions[k'].vms[j'].name)
  {
    var h := Run(rs);
    RunKeeps(rs);
    forall k, j | IsMachine(h, k, j) ensures var n := h.sessions[k].vms[j].name; n < NAMES && h.inUse[n] {
      assert NameOk(h, h.sessions[k].vms[j].name);
      BearersSplit(h.sessions, k, h.sessions[k].vms[j].name);
      SomeBearing(h.sessions[k].vms, h.sessions[k].vms[j].name);
    }
    forall n | 0 <= n < NAMES && h.inUse[n] ensures exists k, j :: IsMachine(h, k, j) && h.sessions[k].vms[j].name == n {
      assert NameOk(h, n);
      SomeBearer(h.sessions, n);
      var k, j :| 0 <= k < |h.sessions| && 0 <= j < |h.sessions[k].vms| && h.sessions[k].vms[j].name == n;
      assert IsMachine(h, k, j);
    }
    forall k, j, k', j' | IsMachine(h, k, j) && IsMachine(h, k', j') && (k, j) != (k', j')
      ensures h.sessions[k].vms[j].name != h.sessions[k'].vms[j'].name
    {
      assert NameOk(h, h.sessions[k].vms[j].name);
      if h.sessions[k].vms[j].name == h.sessions[k'].vms[j'].name {
        TwoBearers(h.sessions, k, j, k', j');
      }
    }
  }

  /** After any run every session has one record at most for a VLAN, none of them is empty, and what a record lists are
      interfaces on its VLAN of machines that the session has. */
  lemma RecordsListLiveInterfaces(rs: seq<Request>, k: nat)
    requires k < |Run(rs).sessions|
    ensures var s := Run(rs).sessions[k];
            && (forall i, j :: 0 <= i < j < |s.vlans| ==> s.vlans[i].id != s.vlans[j].id)
            && (forall i :: 0 <= i < |s.vlans| ==> s.vlans[i].ifaces != [])
            && (forall i, x :: 0 <= i < |s.vlans| && x in s.vlans[i].ifaces ==>
                  x.vlan == s.vlans[i].id && Owned(s.vms, x))
  {
    RunKeeps(rs);
    var s := Run(rs).sessions[k];
    assert SessionOk(s);
    forall i | 0 <= i < |s.vlans| ensures s.vlans[i].ifaces != [] {
      assert RecordOk(s.vlans[i]);
    }
    forall i, x | 0 <= i < |s.vlans| && x in s.vlans[i].ifaces ensures x.vlan == s.vlans[i].id && Owned(s.vms, x) {
      assert RecordOk(s.vlans[i]);
      assert Listed(s.vlans, x);
    }
  }

  /** A session that a request removes takes no VLAN record with it: all had been cleaned up. */
  lemma RemovedSessionsWereClean(rs: seq<Request>, exp: nat, comp: nat, undefined: bool)
    requires var h := Run(rs); FindSession(h.sessions, exp) < |h.sessions|
    ensures var h := Run(rs);
            var t := RemoveVm(h, FindSession(h.sessions, exp), comp, undefined);
            var last := t.sessions[FindSession(h.sessions, exp)];
            last.vms == [] ==> last.vlans == []
  {
    RunKeeps(rs);
    var h := Run(rs);
    var k := FindSession(h.sessions, exp);
    RemoveVmKeeps(h, k, comp, undefined);
    var last := RemoveVm(h, k, comp, undefined).sessions[k];
    if last.vlans != [] {
      RecordsNeedMachines(last);
    }
  }

  // ------------------------------------------------------------- what one request does

  predicate Hosts(s: SessionRec, exp: nat, comp: nat) {
    s.exp == exp && FindVm(s.vms, comp) < |s.vms|
  }

  ghost predicate SomeHosts(sessions: seq<SessionRec>, exp: nat, comp: nat) {
    exists k :: 0 <= k < |sessions| && Hosts(sessions[k], exp, comp)
  }

  lemma SomeHostsJoin(a: seq<SessionRec>, b: seq<SessionRec>, exp: nat, comp: nat)
    ensures SomeHosts(a + b, exp, comp) <==> SomeHosts(a, exp, comp) || SomeHosts(b, exp, comp)
  {
    hide Hosts;
    if i :| 0 <= i < |a| && Hosts(a[i], exp, comp) {
      assert (a + b)[i] == a[i];
    }
    if i :| 0 <= i < |b| && Hosts(b[i], exp, comp) {
      assert (a + b)[|a| + i] == b[i];
    }
  }

  lemma SomeHostsSplit(sessions: seq<SessionRec>, k: nat, exp: nat, comp: nat)
    requires k < |sessions|
    ensures SomeHosts(sessions, exp, comp) <==>
            SomeHosts(sessions[..k], exp, comp) || Hosts(sessions[k], exp, comp) || SomeHosts(sessions[k + 1..], exp, comp)
  {
    assert [sessions[k]][0] == sessions[k];
    assert SomeHosts([sessions[k]], exp, comp) <==> Hosts(sessions[k], exp, comp);
    hide Hosts, SomeHosts;
    assert sessions == sessions[..k] + ([sessions[k]] + sessions[k + 1..]);
    SomeHostsJoin(sessions[..k], [sessions[k]] + sessions[k + 1..], exp, comp);
    SomeHostsJoin([sessions[k]], sessions[k + 1..], exp, comp);
  }

  /** As sessions are of different experiments, the search finds a machine if there is one. */
  lemma HasMachineIff(h: Host, exp: nat, comp: nat)
    requires SessionsDiffer(h.sessions)
    ensures HasMachine(h, exp, comp) <==> SomeHosts(h.sessions, exp, comp)
  {
    if k :| 0 <= k < |h.sessions| && Hosts(h.sessions[k], exp, comp) {
      assert k == FindSession(h.sessions, exp);
    }
  }

  lemma AfterAdding(vms: seq<Vm>, vm: Vm, comp: nat)
    ensures FindVm(vms + [vm], comp) < |vms| + 1 <==> FindVm(vms, comp) < |vms| || comp == vm.comp
  {
    var k := FindVm(vms + [vm], comp);
    assert (vms + [vm])[|vms|] == vm;
    if FindVm(vms, comp) < |vms| {
      assert (vms + [vm])[FindVm(vms, comp)].comp == comp;
    }
  }

  lemma AfterRemoving(vms: seq<Vm>, j: nat, comp: nat)
    requires MachinesOk(vms) && j < |vms|
    ensures FindVm(RemoveAt(vms, j), comp) < |vms| - 1 <==> FindVm(vms, comp) < |vms| && comp != vms[j].comp
  {
    var rest := RemoveAt(vms, j);
    var k, i := FindVm(rest, comp), FindVm(vms, comp);
    if k < |rest| {
      assert vms[if k < j then k else k + 1].comp == comp;
    }
    if i < |vms| && i != j {
      assert rest[if i < j then i else i - 1].comp == comp;
    }
  }

  /** Starting gives the component a machine unless no name is left, and changes nobody else's. */
  lemma StartGivesMachine(h: Host, exp: nat, comp: nat, e: nat, c: nat)
    requires HostOk(h)
    ensures HasMachine(Step(h, StartExperiment(exp, comp)), e, c) <==>
            HasMachine(h, e, c) || ((e, c) == (exp, comp) && FirstFree(h.inUse) < NAMES)
  {
    var g := h.(sessions := WithSession(h.sessions, exp));
    var k := FindSession(h.sessions, exp);
    WithSessionKeeps(h, exp);
    AddVmKeeps(g, k, comp);
    AddGivesMachine(g, k, comp, e, c);
    HasMachineIff(h, e, c);
    HasMachineIff(g, e, c);
    assert forall i :: 0 <= i < |h.sessions| ==> g.sessions[i] == h.sessions[i];
  }

  lemma AddGivesMachine(g: Host, k: nat, comp: nat, e: nat, c: nat)
    requires |g.inUse| == NAMES && k < |g.sessions|
    requires SessionsDiffer(g.sessions) && SessionsDiffer(AddVm(g, k, comp).sessions)
    ensures HasMachine(AddVm(g, k, comp), e, c) <==>
            HasMachine(g, e, c) || ((e, c) == (g.sessions[k].exp, comp) && FirstFree(g.inUse) < NAMES)
  {
    var t, s := AddVm(g, k, comp), g.sessions[k];
    HasMachineIff(g, e, c);
    HasMachineIff(t, e, c);
    AfterAdding(s.vms, Vm(comp, FirstFree(g.inUse), []), c);
    assert Hosts(t.sessions[k], e, c) <==>
           Hosts(s, e, c) || ((e, c) == (s.exp, comp) && FirstFree(g.inUse) < NAMES);
    assert forall i :: 0 <= i < |g.sessions| && i != k ==> t.sessions[i] == g.sessions[i];
  }

  /** Refreshing takes the component's machine away if its script does not fail, and nobody else's. */
  lemma RefreshTakesMachine(h: Host, exp: nat, comp: nat, undefined: bool, e: nat, c: nat)
    requires HostOk(h)
    ensures HasMachine(Step(h, Refresh(exp, comp, undefined)), e, c) <==>
            HasMachine(h, e, c) && !((e, c) == (exp, comp) && undefined)
  {
    var k := FindSession(h.sessions, exp);
    if k < |h.sessions| {
      RemoveVmKeeps(h, k, comp, undefined);
      assert SessionOk(h.sessions[k]);
      RemoveTakesMachine(h, k, comp, undefined, e, c);
      var u := RemoveVm(h, k, comp, undefined);
      if u.sessions[k].vms == [] {
        SessionGoes(u, k);
        SameMachinesWithout(u, k, e, c);
      }
    }
  }

  lemma RemoveTakesMachine(h: Host, k: nat, comp: nat, undefined: bool, e: nat, c: nat)
    requires k < |h.sessions| && MachinesOk(h.sessions[k].vms)
    requires SessionsDiffer(h.sessions) && SessionsDiffer(RemoveVm(h, k, comp, undefined).sessions)
    ensures HasMachine(RemoveVm(h, k, comp, undefined), e, c) <==>
            HasMachine(h, e, c) && !((e, c) == (h.sessions[k].exp, comp) && undefined)
  {
    var u, s := RemoveVm(h, k, comp, undefined), h.sessions[k];
    HasMachineIff(h, e, c);
    HasMachineIff(u, e, c);
    assert s.exp == e ==> !SomeHosts(h.sessions[..k], e, c) && !SomeHosts(h.sessions[k + 1..], e, c) by {
      if s.exp == e {
        OneSession(h.sessions, k, e, c);
      }
    }
    hide HasMachine, SomeHosts, SessionsDiffer;
    RemoveFromSession(h, k, comp, undefined, e, c);
    hide RemoveVm, Hosts, MachinesOk;
    SomeHostsSplit(h.sessions, k, e, c);
    SomeHostsSplit(u.sessions, k, e, c);
  }

  lemma OneSession(sessions: seq<SessionRec>, k: nat, e: nat, c: nat)
    requires SessionsDiffer(sessions) && k < |sessions| && sessions[k].exp == e
    ensures !SomeHosts(sessions[..k], e, c) && !SomeHosts(sessions[k + 1..], e, c)
  {
  }

  /** In the session itself. */
  lemma RemoveFromSession(h: Host, k: nat, comp: nat, undefined: bool, e: nat, c: nat)
    requires k < |h.sessions| && MachinesOk(h.sessions[k].vms)
    ensures var u, s := RemoveVm(h, k, comp, undefined), h.sessions[k];
            && (Hosts(u.sessions[k], e, c) <==> Hosts(s, e, c) && !((e, c) == (s.exp, comp) && undefined))
            && (e != s.exp ==> !Hosts(u.sessions[k], e, c))
            && u.sessions[..k] == h.sessions[..k] && u.sessions[k + 1..] == h.sessions[k + 1..]
  {
    hide LeaveAll;
    var m := FindVm(h.sessions[k].vms, comp);
    if m < |h.sessions[k].vms| {
      AfterRemoving(h.sessions[k].vms, m, c);
    }
  }

  /** A session without machines can go without any machine going. */
  lemma SameMachinesWithout(u: Host, k: nat, e: nat, c: nat)
    requires k < |u.sessions| && u.sessions[k].vms == []
    requires SessionsDiffer(u.sessions) && SessionsDiffer(RemoveAt(u.sessions, k))
    ensures HasMachine(u.(sessions := RemoveAt(u.sessions, k)), e, c) <==> HasMachine(u, e, c)
  {
    HasMachineIff(u, e, c);
    HasMachineIff(u.(sessions := RemoveAt(u.sessions, k)), e, c);
    assert !Hosts(u.sessions[k], e, c);
    hide SessionsDiffer, HasMachine, SomeHosts, Hosts;
    SomeHostsSplit(u.sessions, k, e, c);
    SomeHostsJoin(u.sessions[..k], u.sessions[k + 1..], e, c);
  }

  /** Ending the configuration of a machine puts all its interfaces on record, and takes nothing off. */
  lemma EndConfigureLists(h: Host, exp: nat, comp: nat, x: Iface)
    requires HostOk(h) && HasMachine(h, exp, comp)
    ensures var k := FindSession(h.sessions, exp);
            var s, t := h.sessions[k], Step(h, EndConfigure(exp, comp)).sessions[k];
            && t.vms == s.vms
            && (Listed(t.vlans, x) <==> Listed(s.vlans, x) || x in s.vms[FindVm(s.vms, comp)].ifaces)
  {
    var k := FindSession(h.sessions, exp);
    assert SessionOk(h.sessions[k]);
    JoinAllKeeps(h.sessions[k].vlans, h.sessions[k].vms[FindVm(h.sessions[k].vms, comp)].ifaces);
  }
}
