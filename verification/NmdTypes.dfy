/** The classes of nmd/nmd_types.cc, which update their lists in place, proved against `VlanTable`. */
module NmdTypes {
  import opened Lists
  import opened SwitchCommands
  import opened VlanTable
  import opened VlanClearing
  import opened VlanInvariant
  import opened VlanCompile
  import opened ThreadedFanout

  // ------------------------------------------------------------- list::remove on ports

  /** The ports that `list::remove` leaves after one call for each of `gone`. */
  function Unlike(ports: seq<SwitchPort>, gone: seq<SwitchPort>): seq<SwitchPort> {
    if ports == [] then []
    else
      var init, p := ports[..|ports| - 1], ports[|ports| - 1];
      if exists g :: g in gone && SamePort(g, p) then Unlike(init, gone) else Unlike(init, gone) + [p]
  }

  lemma {:induction false} UnlikeTwice(ports: seq<SwitchPort>, gone: seq<SwitchPort>, g: SwitchPort)
    ensures Unlike(Unlike(ports, gone), [g]) == Unlike(ports, gone + [g])
  {
    if ports != [] {
      var init, p := ports[..|ports| - 1], ports[|ports| - 1];
      UnlikeTwice(init, gone, g);
      var rest := Unlike(init, gone);
      assert (rest + [p])[..|rest|] == rest;
      assert (exists x :: x in gone + [g] && SamePort(x, p)) <==>
             (exists x :: x in gone && SamePort(x, p)) || SamePort(g, p) by {
        assert g in gone + [g];
        assert forall x :: x in gone ==> x in gone + [g];
      }
      assert (exists x :: x in [g] && SamePort(x, p)) <==> SamePort(g, p) by {
        assert g in [g];
      }
    }
  }

  lemma {:induction false} UnlikeNone(ports: seq<SwitchPort>)
    ensures Unlike(ports, []) == ports
  {
    if ports != [] {
      UnlikeNone(ports[..|ports| - 1]);
    }
  }

  /** Removing each port of a switch leaves the ports of the other switches. */
  lemma {:induction false} UnlikeIsOff(ports: seq<SwitchPort>, gone: seq<SwitchPort>, s: SwitchId)
    requires forall g :: g in gone ==> g.switchId == s
    requires forall p :: p in ports && p.switchId == s ==> p in gone
    ensures Unlike(ports, gone) == PortsOff(ports, s)
  {
    if ports != [] {
      var init, p := ports[..|ports| - 1], ports[|ports| - 1];
      assert ports == init + [p];
      UnlikeIsOff(init, gone, s);
      assert p in gone ==> SamePort(p, p);
    }
  }

  // ------------------------------------------------------------- vlan

  class Vlan {
    const vlanId: VlanId
    var inUse: bool
    var sessionId: string
    var ports: seq<SwitchPort>

    function Rec(): VlanRec
      reads this
    {
      VlanRec(inUse, sessionId, ports)
    }

    constructor (id: VlanId)
      ensures vlanId == id && Rec() == BLANK
    {
      vlanId := id;
      inUse := false;
      sessionId := "";
      ports := [];
    }

    method SetInUse(use: bool, sid: string) returns (ok: bool)
      modifies this
      ensures ok == !(use && old(inUse))
      ensures Rec() == if ok then old(Rec()).(inUse := use, sid := sid) else old(Rec())
    {
      if use && inUse {
        return false;
      }
      inUse := use;
      sessionId := sid;
      return true;
    }

    method AddPort(p: SwitchPort)
      modifies this
      ensures Rec() == old(Rec()).(ports := old(ports) + [p])
    {
      ports := ports + [p];
    }

    method GetSwitchPorts(s: SwitchId) returns (on: seq<SwitchPort>)
      ensures on == PortsOn(ports, s)
    {
      on := [];
      for i := 0 to |ports|
        invariant on == PortsOn(ports[..i], s)
      {
        assert ports[..i + 1][..i] == ports[..i];
        if ports[i].switchId == s {
          on := on + [ports[i]];
        }
      }
      assert ports[..|ports|] == ports;
    }

    method GetAddPortsCmd(infos: seq<SwitchInfo>, s: SwitchId, cmd: seq<Command>) returns (cmd': seq<Command>)
      ensures cmd' == cmd + AddPortsCommands(infos, ports, s, vlanId)
    {
      var on := GetSwitchPorts(s);
      cmd' := cmd + SetMembership(infos, s, on, vlanId);
      cmd' := AppendPvids(infos, s, on, cmd');
      Assoc(cmd, SetMembership(infos, s, on, vlanId), AddPvids(infos, s, on, vlanId));
    }

    /** The loop of `get_add_ports_cmd` over the ports. */
    method AppendPvids(infos: seq<SwitchInfo>, s: SwitchId, on: seq<SwitchPort>, cmd: seq<Command>)
      returns (cmd': seq<Command>)
      ensures cmd' == cmd + AddPvids(infos, s, on, vlanId)
    {
      cmd' := cmd;
      for i := 0 to |on|
        invariant cmd' == cmd + AddPvids(infos, s, on[..i], vlanId)
      {
        assert on[..i + 1][..i] == on[..i];
        var more := if on[i].passTag then [] else SetPvids(infos, s, [on[i]], vlanId);
        Assoc(cmd, AddPvids(infos, s, on[..i], vlanId), more);
        cmd' := cmd' + more;
      }
      assert on[..|on|] == on;
    }

    /** `list::remove`. */
    method RemovePort(g: SwitchPort)
      modifies this`ports
      ensures ports == Unlike(old(ports), [g])
    {
      var rest := [];
      for i := 0 to |ports|
        invariant ports == old(ports)
        invariant rest == Unlike(ports[..i], [g])
      {
        assert ports[..i + 1][..i] == ports[..i];
        assert (exists x :: x in [g] && SamePort(x, ports[i])) <==> SamePort(g, ports[i]) by {
          assert g in [g];
        }
        if !SamePort(g, ports[i]) {
          rest := rest + [ports[i]];
        }
      }
      assert ports[..|ports|] == ports;
      ports := rest;
    }

    method RemovePorts(removals: seq<SwitchPort>)
      modifies this`ports
      ensures ports == Unlike(old(ports), removals)
    {
      UnlikeNone(ports);
      for i := 0 to |removals|
        invariant ports == Unlike(old(ports), removals[..i])
      {
        UnlikeTwice(old(ports), removals[..i], removals[i]);
        assert removals[..i + 1] == removals[..i] + [removals[i]];
        RemovePort(removals[i]);
      }
      assert removals[..|removals|] == removals;
    }

    method GetClearVlanCmd(infos: seq<SwitchInfo>, s: SwitchId, cmd: seq<Command>, all: VlanSet)
      returns (cmd': seq<Command>, removed: nat)
      requires all.Sound() && this in all.vlans
      modifies this, all`freeVlans
      ensures cmd' == cmd + ClearVlanCommands(infos, old(ports), s, vlanId)
      ensures removed == |PortsOn(old(ports), s)|
      ensures all.GetPool() == ClearOn(old(all.GetPool()), vlanId, s)
    {
      all.RecordOf(this);
      var removals := GetSwitchPorts(s);
      if removals == [] {
        return cmd, 0;
      }
      cmd' := cmd + SetPvids(infos, s, removals, DEFAULT_VLAN) + SetMembership(infos, s, [], vlanId);
      Assoc(cmd, SetPvids(infos, s, removals, DEFAULT_VLAN), SetMembership(infos, s, [], vlanId));
      removed := |removals|;
      RemovePorts(removals);
      UnlikeIsOff(old(ports), removals, s);
      if ports == [] {
        inUse := false;
        sessionId := "";
        all.FreeVlan(vlanId);
      }
      all.OnlyChanged(this);
    }

    method ClearIfEmpty(all: VlanSet)
      requires all.Sound() && this in all.vlans
      modifies this, all`freeVlans
      ensures all.GetPool() == VlanTable.ClearIfEmpty(old(all.GetPool()), vlanId)
    {
      all.RecordOf(this);
      if inUse && ports == [] {
        inUse := false;
        sessionId := "";
        all.FreeVlan(vlanId);
      }
      all.OnlyChanged(this);
    }
  }

  ghost function Recs(ss: seq<Session>): (r: seq<SessionRec>)
    reads ss
    ensures |r| == |ss| && forall i :: 0 <= i < |ss| ==> r[i] == ss[i].Rec()
  {
    seq(|ss|, i requires 0 <= i < |ss| reads ss => ss[i].Rec())
  }

  lemma CreateSnoc(infos: seq<SwitchInfo>, pool: Pool, vs: seq<VlanId>, j: nat, s: SwitchId)
    requires j < |vs|
    ensures CreateCommands(infos, pool, vs[..j + 1], s) ==
            CreateCommands(infos, pool, vs[..j], s) + AddPortsCommands(infos, PortsOf(pool, vs[j]), s, vs[j])
  {
    assert vs[..j + 1][..j] == vs[..j];
  }

  lemma CreateJobsSnoc(infos: seq<SwitchInfo>, pool: Pool, vs: seq<VlanId>, sws: seq<SwitchId>, k: nat)
    requires k < |sws|
    ensures CreateJobs(infos, pool, vs, sws[..k + 1]) ==
            CreateJobs(infos, pool, vs, sws[..k]) + [Job(sws[k], CreateCommands(infos, pool, vs, sws[k]), true)]
  {
    assert CreateJob(infos, pool, vs, sws[k]) == Job(sws[k], CreateCommands(infos, pool, vs, sws[k]), true);
    hide CreateJobs, CreateJob, CreateCommands;
  }

  lemma ClearNone(infos: seq<SwitchInfo>, p: Pool, s: SwitchId)
    ensures ClearVlansOn(p, [], s) == p && ClearCommands(infos, p, [], s) == [] && NumRemoved(p, [], s) == 0
  {
  }

  lemma ClearVlanSnoc(infos: seq<SwitchInfo>, p: Pool, vs: seq<VlanId>, j: nat, s: SwitchId)
    requires j < |vs|
    ensures var q := ClearVlansOn(p, vs[..j], s);
            && ClearVlansOn(p, vs[..j + 1], s) == ClearOn(q, vs[j], s)
            && ClearCommands(infos, p, vs[..j + 1], s) ==
                 ClearCommands(infos, p, vs[..j], s) + ClearVlanCommands(infos, PortsOf(q, vs[j]), s, vs[j])
            && NumRemoved(p, vs[..j + 1], s) == NumRemoved(p, vs[..j], s) + |PortsOn(PortsOf(q, vs[j]), s)|
  {
    assert vs[..j + 1][..j] == vs[..j];
  }

  lemma ClearSnoc(infos: seq<SwitchInfo>, pool: Pool, vs: seq<VlanId>, sws: seq<SwitchId>, k: nat)
    requires k < |sws|
    ensures var p := ClearSwitches(pool, vs, sws[..k]);
            && ClearSwitches(pool, vs, sws[..k + 1]) == ClearVlansOn(p, vs, sws[k])
            && ClearJobs(infos, pool, vs, sws[..k + 1]) == ClearJobs(infos, pool, vs, sws[..k]) +
                 [Job(sws[k], ClearCommands(infos, p, vs, sws[k]), NumRemoved(p, vs, sws[k]) > 0)]
  {
    assert sws[..k + 1][..k] == sws[..k];
    ClearJobsPrefix(infos, pool, vs, sws[..k + 1], k);
  }

  lemma Assoc<T>(a: seq<T>, b: seq<T>, c: seq<T>)
    ensures (a + b) + c == a + (b + c)
  {
  }

  // ------------------------------------------------------------- session

  class Session {
    const sessionId: string
    var switches: seq<SwitchId>
    var activeVlans: seq<VlanId>
    var removedVlans: seq<VlanId>
    var cleared: bool

    function Rec(): SessionRec
      reads this
    {
      SessionRec(sessionId, switches, activeVlans, removedVlans, cleared)
    }

    constructor (sid: string)
      ensures Rec() == SessionRec(sid, [], [], [], false)
    {
      sessionId := sid;
      switches, activeVlans, removedVlans := [], [], [];
      cleared := false;
    }

    method AddSwitch(s: SwitchId) returns (ok: bool)
      modifies this
      ensures ok == !old(cleared)
      ensures Rec() == if old(cleared) then old(Rec()) else old(Rec()).(switches := Push(old(switches), s))
    {
      if cleared {
        return false;
      }
      if s !in switches {
        switches := switches + [s];
      }
      return true;
    }

    method AddVlan(v: VlanId)
      modifies this
      ensures Rec() == old(Rec()).(active := Push(old(activeVlans), v))
    {
      if v !in activeVlans {
        activeVlans := activeVlans + [v];
      }
    }

    /** `create_vlans`: the commands for each switch; `ThreadedFanout` sends them. */
    method CreateVlans(infos: seq<SwitchInfo>, all: VlanSet) returns (ok: bool, jobs: seq<Job>)
      requires all.Sound() && all.Knows(activeVlans)
      ensures ok == !cleared
      ensures jobs == if cleared then [] else CreateJobs(infos, all.GetPool(), activeVlans, switches)
    {
      hide CreateJobs, CreateJob, CreateCommands;
      jobs := [];
      if cleared {
        return false, [];
      }
      ghost var pool := all.GetPool();
      for k := 0 to |switches|
        invariant jobs == CreateJobs(infos, pool, activeVlans, switches[..k])
      {
        CreateJobsSnoc(infos, pool, activeVlans, switches, k);
        var cmd := CreateSwitch(infos, switches[k], all);
        jobs := jobs + [Job(switches[k], cmd, true)];
      }
      assert switches[..|switches|] == switches;
      return true, jobs;
    }

    /** The inner loop of `create_vlans`. */
    method CreateSwitch(infos: seq<SwitchInfo>, s: SwitchId, all: VlanSet) returns (cmd: seq<Command>)
      requires all.Sound() && all.Knows(activeVlans)
      ensures cmd == CreateCommands(infos, all.GetPool(), activeVlans, s)
    {
      cmd := [];
      ghost var pool := all.GetPool();
      for j := 0 to |activeVlans|
        invariant cmd == CreateCommands(infos, pool, activeVlans[..j], s)
      {
        assert activeVlans[j] in activeVlans;
        var v := all.GetVlan(activeVlans[j]);
        all.RecordOf(v);
        CreateSnoc(infos, pool, activeVlans, j, s);
        cmd := v.GetAddPortsCmd(infos, s, cmd);
      }
      assert activeVlans[..|activeVlans|] == activeVlans;
    }

    /** `remove_vlan`, up to the clearing it may end with. */
    method MoveToRemoved(v: VlanId)
      modifies this
      ensures Rec() == VlanTable.RemoveVlan(old(Rec()), v)
    {
      if v in activeVlans {
        var rest := [];
        for i := 0 to |activeVlans|
          invariant Rec() == old(Rec())
          invariant rest == Without(activeVlans[..i], v)
        {
          assert activeVlans[..i + 1][..i] == activeVlans[..i];
          if activeVlans[i] != v {
            rest := rest + [activeVlans[i]];
          }
        }
        assert activeVlans[..|activeVlans|] == activeVlans;
        activeVlans := rest;
        removedVlans := removedVlans + [v];
      }
    }

    method RemoveVlan(infos: seq<SwitchInfo>, v: VlanId, all: VlanSet) returns (jobs: seq<Job>)
      requires all.Sound() && all.Knows(activeVlans) && all.Knows(removedVlans)
      modifies this, all`freeVlans, all.vlans
      ensures var moved := VlanTable.RemoveVlan(old(Rec()), v);
              if moved.active == [] && !moved.cleared then
                && Rec() == moved.(removed := Merge(moved.removed, moved.active), cleared := true)
                && all.GetPool() == ClearPool(old(all.GetPool()), moved)
                && jobs == ClearJobs(infos, old(all.GetPool()), Merge(moved.removed, moved.active), moved.switches)
              else Rec() == moved && all.GetPool() == old(all.GetPool()) && jobs == []
    {
      jobs := [];
      MoveToRemoved(v);
      if activeVlans == [] {
        jobs := ClearSession(infos, all);
      }
    }

    /** `clear_session`: the records are cleared while the commands are written. */
    method ClearSession(infos: seq<SwitchInfo>, all: VlanSet) returns (jobs: seq<Job>)
      requires all.Sound() && all.Knows(activeVlans) && all.Knows(removedVlans)
      modifies this, all`freeVlans, all.vlans
      ensures old(cleared) ==> Rec() == old(Rec()) && all.GetPool() == old(all.GetPool()) && jobs == []
      ensures !old(cleared) ==>
                var vs := Merge(old(removedVlans), old(activeVlans));
                && Rec() == old(Rec()).(removed := vs, cleared := true)
                && all.GetPool() == ClearPool(old(all.GetPool()), old(Rec()))
                && jobs == ClearJobs(infos, old(all.GetPool()), vs, switches)
    {
      jobs := [];
      if cleared {
        return;
      }
      cleared := true;
      MergeActive(all);
      jobs := ClearEachSwitch(infos, all);
      FreeEmpties(all);
    }

    /** The first loop of `clear_session`. */
    method MergeActive(all: VlanSet)
      requires all.Knows(activeVlans) && all.Knows(removedVlans)
      modifies this`removedVlans
      ensures removedVlans == Merge(old(removedVlans), activeVlans)
      ensures all.Knows(removedVlans)
    {
      for i := 0 to |activeVlans|
        invariant removedVlans == Merge(old(removedVlans), activeVlans[..i])
        invariant all.Knows(removedVlans)
      {
        assert activeVlans[..i + 1][..i] == activeVlans[..i];
        assert activeVlans[i] in activeVlans;
        if activeVlans[i] !in removedVlans {
          removedVlans := removedVlans + [activeVlans[i]];
        }
      }
      assert activeVlans[..|activeVlans|] == activeVlans;
    }

    /** The loop of `clear_session` over the switches. */
    method ClearEachSwitch(infos: seq<SwitchInfo>, all: VlanSet) returns (jobs: seq<Job>)
      requires all.Sound() && all.Knows(removedVlans)
      modifies all`freeVlans, all.vlans
      ensures all.GetPool() == ClearSwitches(old(all.GetPool()), removedVlans, switches)
      ensures jobs == ClearJobs(infos, old(all.GetPool()), removedVlans, switches)
    {
      jobs := [];
      ghost var pool := all.GetPool();
      for k := 0 to |switches|
        invariant all.GetPool() == ClearSwitches(pool, removedVlans, switches[..k])
        invariant jobs == ClearJobs(infos, pool, removedVlans, switches[..k])
      {
        ClearSnoc(infos, pool, removedVlans, switches, k);
        var cmd, numRm := ClearSwitch(infos, switches[k], all);
        jobs := jobs + [Job(switches[k], cmd, numRm > 0)];
      }
      assert switches[..|switches|] == switches;
    }

    /** The inner loop of `clear_session`. */
    method ClearSwitch(infos: seq<SwitchInfo>, s: SwitchId, all: VlanSet) returns (cmd: seq<Command>, numRm: nat)
      requires all.Sound() && all.Knows(removedVlans)
      modifies all`freeVlans, all.vlans
      ensures all.GetPool() == ClearVlansOn(old(all.GetPool()), removedVlans, s)
      ensures cmd == ClearCommands(infos, old(all.GetPool()), removedVlans, s)
      ensures numRm == NumRemoved(old(all.GetPool()), removedVlans, s)
    {
      hide ClearVlansOn, ClearCommands, NumRemoved, ClearOn, ClearVlanCommands, PortsOn, PortsOf;
      cmd, numRm := [], 0;
      ghost var p := all.GetPool();
      ClearNone(infos, p, s);
      for j := 0 to |removedVlans|
        invariant all.GetPool() == ClearVlansOn(p, removedVlans[..j], s)
        invariant cmd == ClearCommands(infos, p, removedVlans[..j], s)
        invariant numRm == NumRemoved(p, removedVlans[..j], s)
      {
        assert removedVlans[j] in removedVlans;
        ClearVlanSnoc(infos, p, removedVlans, j, s);
        var n;
        cmd, n := ClearVlan(infos, removedVlans[j], s, cmd, all);
        numRm := numRm + n;
      }
      assert removedVlans[..|removedVlans|] == removedVlans;
    }

    method ClearVlan(infos: seq<SwitchInfo>, id: VlanId, s: SwitchId, cmd: seq<Command>, all: VlanSet)
      returns (cmd': seq<Command>, numRm: nat)
      requires all.Sound() && all.Knows([id])
      modifies all`freeVlans, all.vlans
      ensures cmd' == cmd + ClearVlanCommands(infos, PortsOf(old(all.GetPool()), id), s, id)
      ensures numRm == |PortsOn(PortsOf(old(all.GetPool()), id), s)|
      ensures all.GetPool() == ClearOn(old(all.GetPool()), id, s)
    {
      hide ClearOn, ClearVlanCommands, PortsOn;
      assert id in [id];
      var v := all.GetVlan(id);
      all.RecordOf(v);
      cmd', numRm := v.GetClearVlanCmd(infos, s, cmd, all);
    }

    /** The last loop of `clear_session`. */
    method FreeEmpties(all: VlanSet)
      requires all.Sound() && all.Knows(removedVlans)
      modifies all`freeVlans, all.vlans
      ensures all.GetPool() == ClearEmpties(old(all.GetPool()), removedVlans)
    {
      ghost var p := all.GetPool();
      for j := 0 to |removedVlans|
        invariant all.GetPool() == ClearEmpties(p, removedVlans[..j])
      {
        assert removedVlans[..j + 1][..j] == removedVlans[..j];
        assert removedVlans[j] in removedVlans;
        var v := all.GetVlan(removedVlans[j]);
        v.ClearIfEmpty(all);
      }
      assert removedVlans[..|removedVlans|] == removedVlans;
    }
  }

  // ------------------------------------------------------------- vlan_set

  class VlanSet {
    const vlans: seq<Vlan>
    var freeVlans: seq<VlanId>
    var sessions: seq<Session>

    /** Record number i is an object of its own with id i + 2. */
    ghost predicate Sound()
      reads vlans
    {
      forall i :: 0 <= i < |vlans| ==> vlans[i].vlanId == i + 2
    }

    predicate Knows(vs: seq<VlanId>) {
      forall v :: v in vs ==> 2 <= v < 2 + |vlans|
    }

    ghost function GetPool(): Pool
      reads this, vlans
    {
      Pool(seq(|vlans|, i requires 0 <= i < |vlans| reads vlans => vlans[i].Rec()), freeVlans)
    }

    ghost function GetTable(): Table
      reads this, vlans, sessions
    {
      Table(GetPool(), Recs(sessions))
    }

    ghost predicate Shape()
      reads this, vlans, sessions
    {
      Sound() && NoDup(sessions)
    }

    ghost predicate Valid()
      reads this, vlans, sessions
    {
      Shape() && Inv(GetTable())
    }

    lemma RecordOf(v: Vlan)
      requires Sound() && v in vlans
      ensures InRange(GetPool(), v.vlanId) && Rec(GetPool(), v.vlanId) == v.Rec()
      ensures vlans[v.vlanId - 2] == v
    {
    }

    twostate lemma OnlyChanged(v: Vlan)
      requires Sound() && v in vlans
      requires forall w :: w in vlans && w != v ==> unchanged(w)
      ensures GetPool().vlans == old(GetPool()).vlans[v.vlanId - 2 := v.Rec()]
    {
      forall i | 0 <= i < |vlans| && i != v.vlanId - 2
        ensures vlans[i].Rec() == old(vlans[i].Rec())
      {
        assert vlans[i] in vlans && vlans[i] != v;
      }
    }

    constructor (numVlans: nat)
      ensures Valid() && GetTable() == InitTable(numVlans)
      ensures fresh(vlans)
    {
      var vs: seq<Vlan>, free: seq<VlanId> := [], [];
      for i := 0 to numVlans
        invariant |vs| == |free| == i
        invariant forall j :: 0 <= j < i ==> fresh(vs[j]) && vs[j].vlanId == j + 2 && vs[j].Rec() == BLANK && free[j] == j + 2
      {
        var v := new Vlan(i + 2);
        vs := vs + [v];
        free := free + [i + 2];
      }
      vlans, freeVlans, sessions := vs, free, [];
      new;
      InitInv(numVlans);
      assert GetTable() == InitTable(numVlans);
    }

    method GetVlan(id: VlanId) returns (v: Vlan?)
      requires Sound()
      ensures v == if 2 <= id < 2 + |vlans| then vlans[id - 2] else null
    {
      for i := 0 to |vlans|
        invariant id < 2 || i + 2 <= id
      {
        if vlans[i].vlanId == id {
          return vlans[i];
        }
      }
      return null;
    }

    method FreeVlan(id: VlanId)
      modifies this`freeVlans
      ensures freeVlans == Push(old(freeVlans), id)
    {
      if id !in freeVlans {
        freeVlans := freeVlans + [id];
      }
    }

    method GetSession(sid: string) returns (k: nat)
      ensures k == Find(Recs(sessions), sid)
    {
      ghost var recs := Recs(sessions);
      for i := 0 to |sessions|
        invariant forall j :: 0 <= j < i ==> recs[j].sid != sid
      {
        if sessions[i].sessionId == sid {
          return i;
        }
      }
      return |sessions|;
    }

    /** `alloc_vlan`. */
    method AllocVlan(sid: string) returns (ids: seq<VlanId>)
      requires Shape()
      modifies this, vlans, sessions
      ensures Shape() && GetTable() == StepAdd(old(GetTable()), sid)
      ensures ids == Allocated(old(GetTable()))
    {
      ids := TakeFree(sid);
      if ids != [] {
        AddToSession(sid, ids[0]);
      }
    }

    /** The pool part of `alloc_vlan`. */
    method TakeFree(sid: string) returns (ids: seq<VlanId>)
      requires Sound()
      modifies this`freeVlans, vlans
      ensures ids == Allocated(Table(old(GetPool()), []))
      ensures GetPool() == StepAdd(Table(old(GetPool()), []), sid).pool
    {
      if freeVlans == [] {
        return [];
      }
      var id := freeVlans[0];
      ghost var pool := GetPool();
      freeVlans := freeVlans[1..];
      assert GetPool() == pool.(free := pool.free[1..]);
      var v := GetVlan(id);
      if v == null {
        return [];
      }
      var ok := Take(v, sid);
      return if ok then [id] else [];
    }

    /** The session part of `alloc_vlan`. */
    method AddToSession(sid: string, id: VlanId)
      requires Shape()
      modifies this`sessions, sessions
      ensures Shape() && GetPool() == old(GetPool())
      ensures Recs(sessions) == WithSession(old(Recs(sessions)), sid, id)
    {
      WithNewSession(Recs(sessions), sid, id);
      hide Find;
      var k := JoinSession(sid);
      AddVlanTo(k, id);
    }

    method Take(v: Vlan, sid: string) returns (ok: bool)
      requires Sound() && v in vlans
      modifies v
      ensures ok == !old(v.inUse)
      ensures GetPool() == if ok then SetRec(old(GetPool()), v.vlanId, old(v.Rec()).(inUse := true, sid := sid))
                           else old(GetPool())
      ensures Rec(old(GetPool()), v.vlanId) == old(v.Rec())
    {
      RecordOf(v);
      ok := v.SetInUse(true, sid);
      OnlyChanged(v);
    }

    /** The session of `sid`, created if there is none. */
    method JoinSession(sid: string) returns (k: nat)
      requires Shape()
      modifies this`sessions
      ensures Shape() && k == Find(old(Recs(sessions)), sid) < |sessions|
      ensures sessions[k] in old(sessions) || fresh(sessions[k])
      ensures Recs(sessions) == if k < |old(sessions)| then old(Recs(sessions))
                                else old(Recs(sessions)) + [SessionRec(sid, [], [], [], false)]
    {
      k := GetSession(sid);
      if k == |sessions| {
        var s := new Session(sid);
        sessions := sessions + [s];
        assert Recs(sessions) == old(Recs(sessions)) + [s.Rec()];
      }
    }

    method AddVlanTo(k: nat, id: VlanId)
      requires Shape() && k < |sessions|
      modifies sessions[k]
      ensures var r := old(sessions[k].Rec());
              Recs(sessions) == old(Recs(sessions))[k := r.(active := Push(r.active, id))]
    {
      ghost var recs := Recs(sessions);
      sessions[k].AddVlan(id);
      assert forall i :: 0 <= i < |sessions| && i != k ==> sessions[i].Rec() == recs[i];
    }

    method AddSwitchTo(k: nat, s: SwitchId)
      requires Shape() && k < |sessions|
      modifies sessions[k]
      ensures var r := old(sessions[k].Rec());
              Recs(sessions) == old(Recs(sessions))[k := if r.cleared then r else r.(switches := Push(r.switches, s))]
    {
      ghost var recs := Recs(sessions);
      var _ := sessions[k].AddSwitch(s);
      assert forall i :: 0 <= i < |sessions| && i != k ==> sessions[i].Rec() == recs[i];
    }

    method AddVlan(sid: string) returns (ok: bool, id: VlanId)
      requires Valid()
      modifies this, vlans, sessions
      ensures Valid() && GetTable() == StepAdd(old(GetTable()), sid)
      ensures ok <==> old(freeVlans) != []
      ensures ok ==> [id] == Allocated(old(GetTable()))
      ensures !ok ==> id == 0xFFFF_FFFF
    {
      AddInv(GetTable(), sid);
      var ids := AllocVlan(sid);
      if ids == [] {
        return false, NO_FREE_VLANS;
      }
      return true, ids[0];
    }

    method AddToVlan(id: VlanId, port: SwitchPort, sid: string) returns (ok: bool)
      requires Valid()
      requires Knows([id])
      modifies this, vlans, sessions
      ensures Valid() && GetTable() == StepAddTo(old(GetTable()), id, port, sid)
      ensures ok == MayAddTo(old(GetTable()), id, sid)
    {
      AddToInv(GetTable(), id, port, sid);
      ok := AddPortTo(id, port, sid);
    }

    method GivePort(v: Vlan, port: SwitchPort)
      requires Sound() && v in vlans
      modifies v
      ensures GetPool() == SetRec(old(GetPool()), v.vlanId, old(v.Rec()).(ports := old(v.ports) + [port]))
    {
      v.AddPort(port);
      OnlyChanged(v);
    }

    method AddPortTo(id: VlanId, port: SwitchPort, sid: string) returns (ok: bool)
      requires Shape() && Knows([id])
      modifies vlans, sessions
      ensures GetTable() == StepAddTo(old(GetTable()), id, port, sid)
      ensures ok == MayAddTo(old(GetTable()), id, sid)
    {
      hide Find, Push, SetRec, NoDup;
      var k := GetSession(sid);
      if k == |sessions| {
        return false;
      }
      assert id in [id];
      var v := GetVlan(id);
      RecordOf(v);
      if !v.inUse || v.sessionId != sid {
        return false;
      }
      GivePortAndSwitch(v, k, port);
      return true;
    }

    method GivePortAndSwitch(v: Vlan, k: nat, port: SwitchPort)
      requires Shape() && v in vlans && k < |sessions|
      modifies v, sessions[k]
      ensures GetPool() == SetRec(old(GetPool()), v.vlanId, old(v.Rec()).(ports := old(v.ports) + [port]))
      ensures var r := old(sessions[k].Rec());
              Recs(sessions) == old(Recs(sessions))[k := if r.cleared then r else r.(switches := Push(r.switches, port.switchId))]
    {
      GivePort(v, port);
      AddSwitchTo(k, port.switchId);
    }

    lemma ListsKnown(k: nat)
      requires Valid() && k < |sessions|
      ensures Knows(sessions[k].activeVlans) && Knows(sessions[k].removedVlans)
      ensures !sessions[k].cleared
    {
      assert SessionInv(GetPool(), GetTable().sessions[k]);
      assert forall v :: v in sessions[k].activeVlans ==> v in Held(sessions[k].Rec());
      assert forall v :: v in sessions[k].removedVlans ==> v in Held(sessions[k].Rec());
    }

    /** `start_session`: what is written for the session's switches. */
    method CreateSessionVlans(infos: seq<SwitchInfo>, sid: string) returns (ok: bool, jobs: seq<Job>)
      requires Valid()
      ensures var t := GetTable();
              var k := Find(t.sessions, sid);
              && ok == (k < |t.sessions|)
              && jobs == if ok then CreateJobs(infos, t.pool, t.sessions[k].active, t.sessions[k].switches) else []
    {
      var k := GetSession(sid);
      if k == |sessions| {
        return false, [];
      }
      ListsKnown(k);
      ok, jobs := sessions[k].CreateVlans(infos, this);
    }

    /** `remove_session`. */
    method RemoveSession(k: nat)
      requires Shape() && k < |sessions|
      modifies this`sessions
      ensures Shape() && sessions == RemoveAt(old(sessions), k)
      ensures Recs(sessions) == RemoveAt(old(Recs(sessions)), k)
    {
      sessions := RemoveAt(sessions, k);
    }

    method ClearAt(infos: seq<SwitchInfo>, k: nat) returns (jobs: seq<Job>)
      requires Shape() && k < |sessions|
      requires Knows(sessions[k].activeVlans) && Knows(sessions[k].removedVlans) && !sessions[k].cleared
      modifies this, vlans, sessions
      ensures Shape()
      ensures GetPool() == ClearPool(old(GetPool()), old(sessions[k].Rec()))
      ensures Recs(sessions) == RemoveAt(old(Recs(sessions)), k)
      ensures jobs == ClearJobs(infos, old(GetPool()), Merge(old(sessions[k].removedVlans), old(sessions[k].activeVlans)),
                                old(sessions[k].switches))
    {
      hide ClearPool, ClearJobs, Merge;
      ghost var recs := Recs(sessions);
      jobs := sessions[k].ClearSession(infos, this);
      assert forall i :: 0 <= i < |sessions| && i != k ==> sessions[i].Rec() == recs[i];
      RemoveSession(k);
    }

    /** `end_session`. */
    method EndSession(infos: seq<SwitchInfo>, sid: string) returns (jobs: seq<Job>)
      requires Valid()
      modifies this, vlans, sessions
      ensures Valid() && GetTable() == StepEnd(old(GetTable()), sid)
      ensures var t := old(GetTable());
              var k := Find(t.sessions, sid);
              k < |t.sessions| ==>
                jobs == ClearJobs(infos, t.pool, Merge(t.sessions[k].removed, t.sessions[k].active), t.sessions[k].switches)
    {
      StepInv(GetTable(), Request.EndSession(sid));
      hide Inv, ClearPool, ClearJobs, Merge, Find;
      var k := GetSession(sid);
      if k == |sessions| {
        return [];
      }
      ListsKnown(k);
      jobs := ClearAt(infos, k);
    }

    method DeleteAt(infos: seq<SwitchInfo>, id: VlanId, k: nat) returns (jobs: seq<Job>)
      requires Shape() && k < |sessions|
      requires Knows(sessions[k].activeVlans) && Knows(sessions[k].removedVlans) && !sessions[k].cleared
      modifies this, vlans, sessions
      ensures Shape()
      ensures var moved, recs := VlanTable.RemoveVlan(old(sessions[k].Rec()), id), old(Recs(sessions));
              if moved.active == [] then
                && GetPool() == ClearPool(old(GetPool()), moved) && Recs(sessions) == RemoveAt(recs, k)
                && jobs == ClearJobs(infos, old(GetPool()), Merge(moved.removed, moved.active), moved.switches)
              else GetPool() == old(GetPool()) && Recs(sessions) == recs[k := moved] && jobs == []
    {
      hide ClearPool, ClearJobs, Merge, Without;
      jobs := MoveAt(infos, id, k);
      hide VlanTable.RemoveVlan;
      if sessions[k].cleared {
        RemoveSession(k);
      }
    }

    /** `remove_vlan` of the session at position `k`, the session itself still in the list. */
    method MoveAt(infos: seq<SwitchInfo>, id: VlanId, k: nat) returns (jobs: seq<Job>)
      requires Shape() && k < |sessions|
      requires Knows(sessions[k].activeVlans) && Knows(sessions[k].removedVlans) && !sessions[k].cleared
      modifies this`freeVlans, vlans, sessions[k]
      ensures Shape()
      ensures var moved, recs := VlanTable.RemoveVlan(old(sessions[k].Rec()), id), old(Recs(sessions));
              && Recs(sessions) == recs[k := sessions[k].Rec()] && sessions[k].cleared == (moved.active == [])
              && if moved.active == [] then
                   && GetPool() == ClearPool(old(GetPool()), moved)
                   && jobs == ClearJobs(infos, old(GetPool()), Merge(moved.removed, moved.active), moved.switches)
                 else GetPool() == old(GetPool()) && sessions[k].Rec() == moved && jobs == []
    {
      hide ClearPool, ClearJobs, Merge, Without;
      ghost var recs := Recs(sessions);
      jobs := sessions[k].RemoveVlan(infos, id, this);
      assert forall i :: 0 <= i < |sessions| && i != k ==> sessions[i].Rec() == recs[i];
    }

    /** `delete_vlan`: the last active VLAN takes the session with it. */
    method DeleteVlan(infos: seq<SwitchInfo>, id: VlanId, sid: string) returns (jobs: seq<Job>)
      requires Valid()
      modifies this, vlans, sessions
      ensures Valid() && GetTable() == StepDelete(old(GetTable()), id, sid)
      ensures jobs == DeleteJobs(infos, old(GetTable()), id, sid)
    {
      StepInv(GetTable(), Request.DeleteVlan(id, sid));
      var k := GetSession(sid);
      if k == |sessions| {
        return [];
      }
      ListsKnown(k);
      DeleteIs(GetTable(), id, sid);
      jobs := DeleteAt(infos, id, k);
    }
  }

  /** What is sent when a VLAN is deleted: the clearing of the whole session with its last active one, else nothing. */
  function DeleteJobs(infos: seq<SwitchInfo>, t: Table, id: VlanId, sid: string): seq<Job> {
    var k := Find(t.sessions, sid);
    if k == |t.sessions| then []
    else
      var moved := VlanTable.RemoveVlan(t.sessions[k], id);
      if moved.active == [] then ClearJobs(infos, t.pool, Merge(moved.removed, moved.active), moved.switches) else []
  }

  /** Deleting a VLAN, without going through the table between its two steps. */
  lemma DeleteIs(t: Table, id: VlanId, sid: string)
    requires Find(t.sessions, sid) < |t.sessions| && !t.sessions[Find(t.sessions, sid)].cleared
    ensures var k := Find(t.sessions, sid);
            var moved := VlanTable.RemoveVlan(t.sessions[k], id);
            StepDelete(t, id, sid) ==
              if moved.active == [] then Table(ClearPool(t.pool, moved), RemoveAt(t.sessions, k))
              else Table(t.pool, t.sessions[k := moved])
  {
    var k := Find(t.sessions, sid);
    var moved := VlanTable.RemoveVlan(t.sessions[k], id);
    SameFind(t.sessions, t.sessions[k := moved], sid);
    assert RemoveAt(t.sessions[k := moved], k) == RemoveAt(t.sessions, k);
  }

  lemma WithNewSession(recs: seq<SessionRec>, sid: string, id: VlanId)
    ensures var s := SessionRec(sid, [], [], [], false);
            Find(recs, sid) == |recs| ==>
              WithSession(recs, sid, id) == (recs + [s])[|recs| := s.(active := Push(s.active, id))]
  {
    assert Push([], id) == [id];
  }
}
