/** The table together with the switches it configures: no configuration outlives its session. */
module VlanFabric {
  import opened Lists
  import opened PortList
  import opened SwitchCommands
  import opened VlanTable
  import opened VlanClearing
  import opened VlanInvariant
  import opened VlanTheorems
  import opened VlanCompile

  /** Every switch, each blank until a command has reached it. */
  type Fabric = map<SwitchId, SwitchState>

  function At(f: Fabric, s: SwitchId): SwitchState {
    if s in f then f[s] else BLANK_SWITCH
  }

  /** The loop over the switches of `create_vlans`. */
  ghost function CreateFabric(infos: seq<SwitchInfo>, f: Fabric, pool: Pool, vs: seq<VlanId>, sws: seq<SwitchId>): Fabric {
    if sws == [] then f
    else
      var g, s := CreateFabric(infos, f, pool, vs, sws[..|sws| - 1]), sws[|sws| - 1];
      g[s := Exec(At(g, s), CreateCommands(infos, pool, vs, s))]
  }

  /** The loop over the switches of `clear_session`, whose records shrink as it goes. */
  ghost function ClearFabric(infos: seq<SwitchInfo>, f: Fabric, pool: Pool, vs: seq<VlanId>, sws: seq<SwitchId>): Fabric {
    if sws == [] then f
    else
      var init, s := sws[..|sws| - 1], sws[|sws| - 1];
      var g := ClearFabric(infos, f, pool, vs, init);
      g[s := Exec(At(g, s), ClearCommands(infos, ClearSwitches(pool, vs, init), vs, s))]
  }

  /** The session as it is when a closing request clears it. */
  function Closing(t: Table, r: Request, sid: string): SessionRec
    requires Closes(t, r, sid)
  {
    var s := t.sessions[Find(t.sessions, sid)];
    if r.DeleteVlan? then RemoveVlan(s, r.vlan) else s
  }

  ghost function StepFabric(infos: seq<SwitchInfo>, t: Table, f: Fabric, r: Request): Fabric {
    var k := Find(t.sessions, r.sid);
    if k == |t.sessions| || t.sessions[k].cleared then f
    else if r.StartSession? then CreateFabric(infos, f, t.pool, t.sessions[k].active, t.sessions[k].switches)
    else if Closes(t, r, r.sid) then
      var s := Closing(t, r, r.sid);
      ClearFabric(infos, f, t.pool, Merge(s.removed, s.active), s.switches)
    else f
  }

  ghost function RunFabric(infos: seq<SwitchInfo>, t: Table, f: Fabric, rs: seq<Request>): Fabric {
    if rs == [] then f
    else
      var init := rs[..|rs| - 1];
      StepFabric(infos, Run(t, init), RunFabric(infos, t, f, init), rs[|rs| - 1])
  }

  // ------------------------------------------------------------- one loop over the switches

  lemma {:induction false} CreateFabricAt(infos: seq<SwitchInfo>, f: Fabric, pool: Pool, vs: seq<VlanId>,
                                          sws: seq<SwitchId>, s: SwitchId)
    requires NoDup(sws)
    ensures At(CreateFabric(infos, f, pool, vs, sws), s) ==
            if s in sws then Exec(At(f, s), CreateCommands(infos, pool, vs, s)) else At(f, s)
  {
    if sws != [] {
      NoDupSplit(sws, |sws| - 1);
      CreateFabricAt(infos, f, pool, vs, sws[..|sws| - 1], s);
    }
  }

  /** Taking the ports of other switches away does not change the commands for this one. */
  lemma {:induction false} SamePortsSameCommands(infos: seq<SwitchInfo>, p: Pool, q: Pool, vs: seq<VlanId>, s: SwitchId)
    requires NoDup(vs)
    requires forall v :: v in vs ==> PortsOn(PortsOf(p, v), s) == PortsOn(PortsOf(q, v), s)
    ensures ClearCommands(infos, p, vs, s) == ClearCommands(infos, q, vs, s)
  {
    if vs != [] {
      var init, v := vs[..|vs| - 1], vs[|vs| - 1];
      assert vs == init + [v];
      SamePortsSameCommands(infos, p, q, init, s);
      OthersKeepPorts(p, init, s, v);
      OthersKeepPorts(q, init, s, v);
    }
  }

  lemma ClearOnElsewhere(p: Pool, v: VlanId, s: SwitchId, w: VlanId, other: SwitchId)
    requires s != other
    ensures PortsOn(PortsOf(ClearOn(p, v, s), w), other) == PortsOn(PortsOf(p, w), other)
  {
    if InRange(p, v) && w == v {
      PortsOnAfterOff(Rec(p, v).ports, s, other);
    }
  }

  lemma {:induction false} ClearVlansOnElsewhere(p: Pool, vs: seq<VlanId>, s: SwitchId, w: VlanId, other: SwitchId)
    requires s != other
    ensures PortsOn(PortsOf(ClearVlansOn(p, vs, s), w), other) == PortsOn(PortsOf(p, w), other)
  {
    if vs != [] {
      ClearVlansOnElsewhere(p, vs[..|vs| - 1], s, w, other);
      ClearOnElsewhere(ClearVlansOn(p, vs[..|vs| - 1], s), vs[|vs| - 1], s, w, other);
    }
  }

  lemma {:induction false} ClearSwitchesElsewhere(p: Pool, vs: seq<VlanId>, sws: seq<SwitchId>, w: VlanId, other: SwitchId)
    requires other !in sws
    ensures PortsOn(PortsOf(ClearSwitches(p, vs, sws), w), other) == PortsOn(PortsOf(p, w), other)
  {
    if sws != [] {
      var init, s := sws[..|sws| - 1], sws[|sws| - 1];
      assert sws == init + [s];
      ClearSwitchesElsewhere(p, vs, init, w, other);
      ClearVlansOnElsewhere(ClearSwitches(p, vs, init), vs, s, w, other);
    }
  }

  lemma {:induction false} ClearFabricAt(infos: seq<SwitchInfo>, f: Fabric, pool: Pool, vs: seq<VlanId>,
                                         sws: seq<SwitchId>, s: SwitchId)
    requires NoDup(sws) && NoDup(vs)
    ensures At(ClearFabric(infos, f, pool, vs, sws), s) ==
            if s in sws then Exec(At(f, s), ClearCommands(infos, pool, vs, s)) else At(f, s)
  {
    if sws != [] {
      var init, last := sws[..|sws| - 1], sws[|sws| - 1];
      NoDupSplit(sws, |sws| - 1);
      ClearFabricAt(infos, f, pool, vs, init, s);
      if s == last {
        forall v | v in vs
          ensures PortsOn(PortsOf(ClearSwitches(pool, vs, init), v), s) == PortsOn(PortsOf(pool, v), s)
        {
          ClearSwitchesElsewhere(pool, vs, init, v, s);
        }
        SamePortsSameCommands(infos, ClearSwitches(pool, vs, init), pool, vs, s);
      }
    }
  }

  // ------------------------------------------------------------- agreement of switches and table

  /** The commands for this port reach it: its switch is known and, over SNMP, the bitmap has room for it. */
  predicate Configurable(infos: seq<SwitchInfo>, q: SwitchPort) {
    var n := NumPorts(infos, q.switchId);
    if UsesSsh(q.switchId) then n != 0 else q.port <= 8 * ((n + 7) / 8)
  }

  /** Taking a VLAN off the interfaces 1..n of a switch reaches this port whenever putting it on did. */
  predicate Removable(infos: seq<SwitchInfo>, q: SwitchPort) {
    !(UsesSsh(q.switchId) && 0 < NumPorts(infos, q.switchId) < q.port)
  }

  /** The ports on switch `s` that the table lists and the commands reach. */
  ghost function TablePorts(infos: seq<SwitchInfo>, ports: seq<SwitchPort>, s: SwitchId): set<nat> {
    set q <- ports | q.switchId == s && Configurable(infos, q) :: q.port
  }

  /** The numbers of a list's ports on one switch. */
  lemma NumbersOn(ports: seq<SwitchPort>, s: SwitchId)
    ensures forall q :: q in ports && q.switchId == s ==> q.port in PortSet(Numbers(PortsOn(ports, s)))
    ensures forall p :: p in PortSet(Numbers(PortsOn(ports, s))) ==> exists q :: q in ports && q.switchId == s && q.port == p
  {
    var on := PortsOn(ports, s);
    forall q | q in ports && q.switchId == s
      ensures q.port in PortSet(Numbers(on))
    {
      var i :| 0 <= i < |on| && on[i] == q;
      assert Numbers(on)[i] == q.port;
    }
    forall p | p in PortSet(Numbers(on))
      ensures exists q :: q in ports && q.switchId == s && q.port == p
    {
      var i :| 0 <= i < |on| && Numbers(on)[i] == p;
      assert on[i] in on;
    }
  }

  lemma CreatedMembers(infos: seq<SwitchInfo>, ports: seq<SwitchPort>, s: SwitchId, before: set<nat>)
    requires before <= TablePorts(infos, ports, s)
    ensures NewMembers(infos, s, before, PortsOn(ports, s)) == TablePorts(infos, ports, s)
  {
    hide PortsOn, Numbers, PortSet, PortsUpTo;
    NumbersOn(ports, s);
  }

  /** Exactly when nothing is left of a VLAN's member ports once its ports are taken away again. */
  lemma ClearedMembers(infos: seq<SwitchInfo>, ports: seq<SwitchPort>, s: SwitchId)
    ensures NewMembers(infos, s, TablePorts(infos, ports, s), []) == {} <==>
            forall q :: q in ports && q.switchId == s ==> Removable(infos, q)
  {
    var left := NewMembers(infos, s, TablePorts(infos, ports, s), []);
    assert PortSet(Numbers([])) == {};
    if q :| q in ports && q.switchId == s && !Removable(infos, q) {
      assert q.port in TablePorts(infos, ports, s);
      assert q.port in left;
    }
    if forall q :: q in ports && q.switchId == s ==> Removable(infos, q) {
      assert forall p :: p !in left;
    }
  }

  lemma FewerMembers(infos: seq<SwitchInfo>, ports: seq<SwitchPort>, s: SwitchId, before: set<nat>)
    requires before <= TablePorts(infos, ports, s)
    requires forall q :: q in ports ==> Removable(infos, q)
    ensures NewMembers(infos, s, before, []) == {}
  {
    ClearedMembers(infos, ports, s);
    assert PortSet(Numbers([])) == {};
    assert NewMembers(infos, s, before, []) <= NewMembers(infos, s, TablePorts(infos, ports, s), []);
  }

  /** The member ports of every VLAN are listed on it, and every port whose native VLAN is not the
      default one is claimed by the VLAN it points at. */
  ghost predicate Reflects(infos: seq<SwitchInfo>, pool: Pool, f: Fabric) {
    && (forall s, v :: MembersAgree(infos, pool, f, s, v))
    && forall s, p :: NativeAgrees(infos, pool, f, s, p)
  }

  /** ... and all ports listed can be taken away again. */
  ghost predicate Agrees(infos: seq<SwitchInfo>, pool: Pool, f: Fabric) {
    (forall v, q :: q in PortsOf(pool, v) ==> Removable(infos, q)) && Reflects(infos, pool, f)
  }

  ghost predicate MembersAgree(infos: seq<SwitchInfo>, pool: Pool, f: Fabric, s: SwitchId, v: VlanId) {
    Members(At(f, s), v) <= TablePorts(infos, PortsOf(pool, v), s)
  }

  ghost predicate NativeAgrees(infos: seq<SwitchInfo>, pool: Pool, f: Fabric, s: SwitchId, p: nat) {
    var v := Native(At(f, s), p);
    v == DEFAULT_VLAN || Claims(infos, s, PortsOf(pool, v), p)
  }

  /** Adding ports to records keeps the agreement. */
  lemma GrowingAgrees(infos: seq<SwitchInfo>, p: Pool, q: Pool, f: Fabric)
    requires Agrees(infos, p, f)
    requires forall v, x :: x in PortsOf(p, v) ==> x in PortsOf(q, v)
    requires forall v, x :: x in PortsOf(q, v) ==> Removable(infos, x)
    ensures Agrees(infos, q, f)
  {
    forall s, v
      ensures MembersAgree(infos, q, f, s, v)
    {
      assert MembersAgree(infos, p, f, s, v);
      assert TablePorts(infos, PortsOf(p, v), s) <= TablePorts(infos, PortsOf(q, v), s);
    }
    forall s, n
      ensures NativeAgrees(infos, q, f, s, n)
    {
      assert NativeAgrees(infos, p, f, s, n);
    }
  }

  /** A native VLAN after a create is the old one or one of the created VLANs that claims the port. */
  lemma {:induction false} LastClaimIs(infos: seq<SwitchInfo>, pool: Pool, vs: seq<VlanId>, s: SwitchId, p: nat, before: VlanId)
    ensures var v := LastClaim(infos, pool, vs, s, p, before);
            && (v == before || (v in vs && Claims(infos, s, PortsOf(pool, v), p)))
            && ((exists w :: w in vs && Claims(infos, s, PortsOf(pool, w), p)) ==>
                  v in vs && Claims(infos, s, PortsOf(pool, v), p))
  {
    if vs != [] {
      assert vs == vs[..|vs| - 1] + [vs[|vs| - 1]];
      LastClaimIs(infos, pool, vs[..|vs| - 1], s, p, before);
    }
  }

  // ------------------------------------------------------------- compiling a session

  lemma CreatedMembersAt(infos: seq<SwitchInfo>, pool: Pool, f: Fabric, sess: SessionRec, s: SwitchId, v: VlanId)
    requires ListsInv(pool, sess) && Reflects(infos, pool, f)
    ensures var g := CreateFabric(infos, f, pool, sess.active, sess.switches);
            Members(At(g, s), v) ==
              if v in sess.active then TablePorts(infos, PortsOf(pool, v), s) else Members(At(f, s), v)
  {
    NoDupParts(sess.removed, sess.active);
    CreateFabricAt(infos, f, pool, sess.active, sess.switches, s);
    assert MembersAgree(infos, pool, f, s, v);
    if s in sess.switches {
      CreateMeans(infos, pool, sess.active, s, At(f, s));
      CreatedMembers(infos, PortsOf(pool, v), s, Members(At(f, s), v));
    } else if v in sess.active {
      NoPortsElsewhere(pool, sess, v, s);
    }
  }

  lemma CreatedNativeAt(infos: seq<SwitchInfo>, pool: Pool, f: Fabric, sess: SessionRec, s: SwitchId, p: nat)
    requires ListsInv(pool, sess) && Reflects(infos, pool, f)
    ensures var g := CreateFabric(infos, f, pool, sess.active, sess.switches);
            var n := Native(At(g, s), p);
            && NativeAgrees(infos, pool, g, s, p)
            && ((exists v :: v in sess.active && Claims(infos, s, PortsOf(pool, v), p)) ==>
                  n in sess.active && Claims(infos, s, PortsOf(pool, n), p))
  {
    NoDupParts(sess.removed, sess.active);
    CreateFabricAt(infos, f, pool, sess.active, sess.switches, s);
    assert NativeAgrees(infos, pool, f, s, p);
    if s in sess.switches {
      CreateMeans(infos, pool, sess.active, s, At(f, s));
      LastClaimIs(infos, pool, sess.active, s, p, Native(At(f, s), p));
    } else {
      forall v | v in sess.active
        ensures !Claims(infos, s, PortsOf(pool, v), p)
      {
        NoPortsElsewhere(pool, sess, v, s);
      }
    }
  }

  /** The port is an untagged host's on the `i`th of the VLANs and on none after it. */
  ghost predicate LastListed(pool: Pool, vs: seq<VlanId>, i: int, s: SwitchId, p: nat) {
    && 0 <= i < |vs| && ListsUntagged(PortsOf(pool, vs[i]), s, p)
    && forall j :: i < j < |vs| ==> !ListsUntagged(PortsOf(pool, vs[j]), s, p)
  }

  lemma {:induction false} LastClaimAt(infos: seq<SwitchInfo>, pool: Pool, vs: seq<VlanId>, s: SwitchId, p: nat,
                                       before: VlanId, i: int)
    requires LastListed(pool, vs, i, s, p) && !IsManagement(infos, s, p)
    ensures LastClaim(infos, pool, vs, s, p, before) == vs[i]
  {
    hide ListsUntagged, IsManagement;
    if i < |vs| - 1 {
      LastClaimAt(infos, pool, vs[..|vs| - 1], s, p, before, i);
    }
  }

  /** The native VLAN of a port after a create: that of the last active VLAN listing it as an untagged host's, and the
      old one when there is none or the port is the management port. */
  lemma CreatedNativeIs(infos: seq<SwitchInfo>, pool: Pool, f: Fabric, sess: SessionRec, s: SwitchId, p: nat)
    requires ListsInv(pool, sess)
    ensures var g := CreateFabric(infos, f, pool, sess.active, sess.switches);
            && (forall i :: LastListed(pool, sess.active, i, s, p) && !IsManagement(infos, s, p) ==>
                  Native(At(g, s), p) == sess.active[i])
            && (IsManagement(infos, s, p) || (forall w :: w in sess.active ==> !ListsUntagged(PortsOf(pool, w), s, p)) ==>
                  Native(At(g, s), p) == Native(At(f, s), p))
  {
    NoDupParts(sess.removed, sess.active);
    CreateFabricAt(infos, f, pool, sess.active, sess.switches, s);
    var before := Native(At(f, s), p);
    if s in sess.switches {
      CreateMeans(infos, pool, sess.active, s, At(f, s));
      LastClaimIs(infos, pool, sess.active, s, p, before);
      forall i | LastListed(pool, sess.active, i, s, p) && !IsManagement(infos, s, p)
        ensures LastClaim(infos, pool, sess.active, s, p, before) == sess.active[i]
      {
        LastClaimAt(infos, pool, sess.active, s, p, before, i);
      }
    } else {
      forall v | v in sess.active
        ensures !ListsUntagged(PortsOf(pool, v), s, p)
      {
        NoPortsElsewhere(pool, sess, v, s);
      }
    }
  }

  /** Starting a session makes the members of each of its active VLANs, on every switch, exactly the
      ports the table lists there; no other VLAN's members change, nor any switch the session does not
      use. The native VLAN of a port becomes the last active VLAN that lists it as an untagged host's; it stays
      what it was when there is none, and on the management port. */
  lemma CreateMatchesTable(infos: seq<SwitchInfo>, t: Table, f: Fabric, k: nat, s: SwitchId, v: VlanId, p: nat)
    requires Inv(t) && Reflects(infos, t.pool, f) && k < |t.sessions|
    ensures var sess := t.sessions[k];
            var g := CreateFabric(infos, f, t.pool, sess.active, sess.switches);
            && Members(At(g, s), v) ==
                 (if v in sess.active then TablePorts(infos, PortsOf(t.pool, v), s) else Members(At(f, s), v))
            && (s !in sess.switches ==> At(g, s) == At(f, s))
            && (forall i :: LastListed(t.pool, sess.active, i, s, p) && !IsManagement(infos, s, p) ==>
                  Native(At(g, s), p) == sess.active[i])
            && (IsManagement(infos, s, p) || (forall w :: w in sess.active ==> !ListsUntagged(PortsOf(t.pool, w), s, p)) ==>
                  Native(At(g, s), p) == Native(At(f, s), p))
  {
    var sess := t.sessions[k];
    assert SessionInv(t.pool, sess);
    hide Inv, IsManagement, ListsUntagged;
    CreatedMembersAt(infos, t.pool, f, sess, s, v);
    CreateFabricAt(infos, f, t.pool, sess.active, sess.switches, s);
    CreatedNativeIs(infos, t.pool, f, sess, s, p);
  }

  /** Of the ports listed on an active VLAN exactly those become members that the commands reach: the port's switch is
      known and, over SNMP, its bitmap has room for the port. */
  lemma ListedPortJoinsIff(infos: seq<SwitchInfo>, t: Table, f: Fabric, k: nat, v: VlanId, q: SwitchPort)
    requires Inv(t) && Reflects(infos, t.pool, f) && k < |t.sessions|
    requires v in t.sessions[k].active && q in PortsOf(t.pool, v)
    ensures var g := CreateFabric(infos, f, t.pool, t.sessions[k].active, t.sessions[k].switches);
            q.port in Members(At(g, q.switchId), v) <==>
            exists i :: IsEntry(infos, q.switchId, i) && infos[i].numPorts > 0 &&
                        (q.switchId in CLI_SWITCHES || q.port <= 8 * ((infos[i].numPorts + 7) / 8))
  {
    hide Inv, Reflects, Members, CreateFabric, IsManagement, ListsUntagged, LastListed, IsEntry;
    CreateMatchesTable(infos, t, f, k, q.switchId, v, q.port);
    ReachedIff(infos, q);
    assert q.port in TablePorts(infos, PortsOf(t.pool, v), q.switchId) <==> Configurable(infos, q);
  }

  lemma ReachedIff(infos: seq<SwitchInfo>, q: SwitchPort)
    ensures Configurable(infos, q) <==>
            exists i :: IsEntry(infos, q.switchId, i) && infos[i].numPorts > 0 &&
                        (q.switchId in CLI_SWITCHES || q.port <= 8 * ((infos[i].numPorts + 7) / 8))
    ensures Removable(infos, q) <==>
            !(q.switchId in CLI_SWITCHES && exists i :: IsEntry(infos, q.switchId, i) && 0 < infos[i].numPorts < q.port)
  {
    CliSwitches(q.switchId);
    KnownSwitch(infos, q.switchId);
    hide FamilyOf, UsesSsh;
    if i :| IsEntry(infos, q.switchId, i) {
      EntryIs(infos, q.switchId, i);
      assert forall j :: IsEntry(infos, q.switchId, j) ==> j == i;
    }
  }

  lemma CreateAgrees(infos: seq<SwitchInfo>, t: Table, f: Fabric, k: nat)
    requires Inv(t) && Agrees(infos, t.pool, f) && k < |t.sessions|
    ensures Agrees(infos, t.pool, CreateFabric(infos, f, t.pool, t.sessions[k].active, t.sessions[k].switches))
  {
    var sess := t.sessions[k];
    assert SessionInv(t.pool, sess);
    var g := CreateFabric(infos, f, t.pool, sess.active, sess.switches);
    forall s, v
      ensures MembersAgree(infos, t.pool, g, s, v)
    {
      CreatedMembersAt(infos, t.pool, f, sess, s, v);
      assert MembersAgree(infos, t.pool, f, s, v);
    }
    forall s, p
      ensures NativeAgrees(infos, t.pool, g, s, p)
    {
      CreatedNativeAt(infos, t.pool, f, sess, s, p);
    }
  }

  /** A VLAN a session holds has no ports on a switch that is not in the session's list. */
  lemma NoPortsElsewhere(pool: Pool, sess: SessionRec, v: VlanId, s: SwitchId)
    requires ListsInv(pool, sess) && v in Held(sess) && s !in sess.switches
    ensures forall q :: q in PortsOf(pool, v) ==> q.switchId != s
  {
  }

  // ------------------------------------------------------------- closing a session

  /** Clearing leaves none of the session's VLANs on any switch, leaves the members of every other VLAN
      alone, and resets the native VLAN of exactly the managed ports the session's VLANs list. */
  lemma ClearingLeavesNothing(infos: seq<SwitchInfo>, pool: Pool, f: Fabric, sess: SessionRec, s: SwitchId)
    requires ListsInv(pool, sess) && Agrees(infos, pool, f)
    ensures var g := ClearFabric(infos, f, pool, Merge(sess.removed, sess.active), sess.switches);
            && (forall v :: Members(At(g, s), v) == if v in Held(sess) then {} else Members(At(f, s), v))
            && forall p :: Native(At(g, s), p) ==
                 if (exists v :: v in Held(sess) && ListsHost(PortsOf(pool, v), s, p)) && !IsManagement(infos, s, p)
                 then 255 else Native(At(f, s), p)
  {
    var vs := Held(sess);
    MergeIsHeld(sess.removed, sess.active);
    var g := ClearFabric(infos, f, pool, vs, sess.switches);
    ClearFabricAt(infos, f, pool, vs, sess.switches, s);
    if s in sess.switches {
      ClearMeans(infos, pool, vs, s, At(f, s));
    }
    forall v | v in vs
      ensures Members(At(g, s), v) == {}
    {
      assert MembersAgree(infos, pool, f, s, v);
      if s in sess.switches && PortsOn(PortsOf(pool, v), s) != [] {
        FewerMembers(infos, PortsOf(pool, v), s, Members(At(f, s), v));
      } else if s in sess.switches {
        assert TablePorts(infos, PortsOf(pool, v), s) == {} by {
          assert forall q :: q in PortsOf(pool, v) && q.switchId == s ==> q in PortsOn(PortsOf(pool, v), s);
        }
      } else {
        NoPortsElsewhere(pool, sess, v, s);
      }
    }
    if s !in sess.switches {
      forall v | v in vs
        ensures forall p :: !ListsHost(PortsOf(pool, v), s, p)
      {
        NoPortsElsewhere(pool, sess, v, s);
      }
    }
  }

  lemma CloseAgrees(infos: seq<SwitchInfo>, t: Table, f: Fabric, r: Request)
    requires Inv(t) && Agrees(infos, t.pool, f) && Closes(t, r, r.sid)
    ensures Agrees(infos, Step(t, r).pool, StepFabric(infos, t, f, r))
  {
    var k, sess := Find(t.sessions, r.sid), Closing(t, r, r.sid);
    var t', g := Step(t, r), StepFabric(infos, t, f, r);
    assert SessionInv(t.pool, t.sessions[k]);
    RemoveVlanKeeps(t.pool, t.sessions[k], if r.DeleteVlan? then r.vlan else 0);
    CloseIsolates(t, r, r.sid);
    forall v
      ensures PortsOf(t'.pool, v) == if v in Held(sess) then [] else PortsOf(t.pool, v)
    {
      if InRange(t.pool, v) {
        HeldIsRecorded(t, k, v);
      }
    }
    forall s, v
      ensures MembersAgree(infos, t'.pool, g, s, v)
    {
      assert MembersAgree(infos, t.pool, f, s, v);
      ClearingLeavesNothing(infos, t.pool, f, sess, s);
    }
    forall s, p
      ensures NativeAgrees(infos, t'.pool, g, s, p)
    {
      ClearingLeavesNothing(infos, t.pool, f, sess, s);
      assert NativeAgrees(infos, t.pool, f, s, p);
      var v := Native(At(f, s), p);
      if v != DEFAULT_VLAN && v in Held(sess) {
        assert Claims(infos, s, PortsOf(t.pool, v), p);
        assert ListsHost(PortsOf(t.pool, v), s, p);
      }
    }
  }

  // ------------------------------------------------------------- every run

  /** The requests add only ports the switches let the daemon remove again. */
  predicate AddsRemovable(infos: seq<SwitchInfo>, r: Request) {
    r.AddToVlan? ==> Removable(infos, r.port)
  }

  lemma PortsGrow(t: Table, r: Request, v: VlanId)
    requires r.AddVlan? || r.AddToVlan?
    ensures var q := Step(t, r).pool;
            PortsOf(q, v) == PortsOf(t.pool, v) || (r.AddToVlan? && PortsOf(q, v) == PortsOf(t.pool, v) + [r.port])
  {
  }

  lemma StepAgrees(infos: seq<SwitchInfo>, t: Table, f: Fabric, r: Request)
    requires Inv(t) && Agrees(infos, t.pool, f) && AddsRemovable(infos, r)
    ensures Agrees(infos, Step(t, r).pool, StepFabric(infos, t, f, r))
  {
    var k := Find(t.sessions, r.sid);
    if r.StartSession? {
      if k < |t.sessions| {
        CreateAgrees(infos, t, f, k);
      }
    } else if Closes(t, r, r.sid) {
      assert SessionInv(t.pool, t.sessions[k]);
      CloseAgrees(infos, t, f, r);
    } else if r.DeleteVlan? || r.EndSession? {
      NotClosing(t, r);
    } else {
      var q := Step(t, r).pool;
      forall v
        ensures PortsOf(q, v) == PortsOf(t.pool, v) ||
                (r.AddToVlan? && PortsOf(q, v) == PortsOf(t.pool, v) + [r.port])
      {
        PortsGrow(t, r, v);
      }
      GrowingAgrees(infos, t.pool, q, f);
    }
  }

  lemma {:induction false} RunAgrees(infos: seq<SwitchInfo>, t: Table, f: Fabric, rs: seq<Request>)
    requires Inv(t) && Agrees(infos, t.pool, f)
    requires forall r :: r in rs ==> AddsRemovable(infos, r)
    ensures Agrees(infos, Run(t, rs).pool, RunFabric(infos, t, f, rs))
  {
    if rs != [] {
      var init := rs[..|rs| - 1];
      assert forall r :: r in init ==> r in rs;
      RunAgrees(infos, t, f, init);
      RunInv(t, init);
      StepAgrees(infos, Run(t, init), RunFabric(infos, t, f, init), rs[|rs| - 1]);
    }
  }

  /** In every state a run reaches: a free VLAN id has no member port on any switch, a member port is
      listed in its VLAN's table entry, and a native VLAN other than the default one is in use and lists
      the port. With at most 253 VLANs, as in main(), the default VLAN is never a session's. */
  lemma NothingLeaks(infos: seq<SwitchInfo>, n: nat, rs: seq<Request>, s: SwitchId, v: VlanId, p: nat)
    requires forall r :: r in rs ==> AddsRemovable(infos, r)
    ensures var t, f := Run(InitTable(n), rs), RunFabric(infos, InitTable(n), map[], rs);
            var native := Native(At(f, s), p);
            && (v in t.pool.free ==> Members(At(f, s), v) == {})
            && (p in Members(At(f, s), v) ==>
                  InRange(t.pool, v) && exists q :: q in Rec(t.pool, v).ports && q.switchId == s && q.port == p)
            && (native != 255 ==>
                  && InRange(t.pool, native) && Rec(t.pool, native).inUse
                  && exists q :: q in Rec(t.pool, native).ports && q.switchId == s && q.port == p)
            && (n <= 253 ==> !InRange(t.pool, 255) && 255 !in t.pool.free)
  {
    var t0 := InitTable(n);
    InitInv(n);
    RunInv(t0, rs);
    RunSize(t0, rs);
    RunAgrees(infos, t0, map[], rs);
    var t, f := Run(t0, rs), RunFabric(infos, t0, map[], rs);
    assert MembersAgree(infos, t.pool, f, s, v);
    assert NativeAgrees(infos, t.pool, f, s, p);
  }

  // ------------------------------------------------------------- a started session stays as it is

  /** The members of each of the session's active VLANs are exactly the ports the table lists, on every switch. */
  ghost predicate InStep(infos: seq<SwitchInfo>, t: Table, f: Fabric, sid: string) {
    var k := Find(t.sessions, sid);
    k < |t.sessions| && forall s, v :: v in t.sessions[k].active ==> MembersAreTable(infos, t.pool, f, s, v)
  }

  ghost predicate MembersAreTable(infos: seq<SwitchInfo>, pool: Pool, f: Fabric, s: SwitchId, v: VlanId) {
    Members(At(f, s), v) == TablePorts(infos, PortsOf(pool, v), s)
  }

  /** The request neither adds a port for the session nor closes it. */
  predicate LeavesAlone(t: Table, r: Request, sid: string) {
    !(r.AddToVlan? && r.sid == sid) && !Closes(t, r, sid)
  }

  lemma StartPutsInStep(infos: seq<SwitchInfo>, t: Table, f: Fabric, sid: string)
    requires Inv(t) && Agrees(infos, t.pool, f) && Find(t.sessions, sid) < |t.sessions|
    ensures InStep(infos, Step(t, StartSession(sid)), StepFabric(infos, t, f, StartSession(sid)), sid)
  {
    var k := Find(t.sessions, sid);
    assert !t.sessions[k].cleared && Reflects(infos, t.pool, f) by {
      assert SessionInv(t.pool, t.sessions[k]);
    }
    hide Inv, Agrees, Reflects, CreateFabric, Members, At, TablePorts, LastListed, ListsUntagged, IsManagement;
    forall s, v | v in t.sessions[k].active
      ensures MembersAreTable(infos, t.pool, StepFabric(infos, t, f, StartSession(sid)), s, v)
    {
      CreateMatchesTable(infos, t, f, k, s, v, 0);
    }
  }

  /** A VLAN of another session: nothing of it changes while a request starts or closes some session. */
  lemma OthersMembersStay(infos: seq<SwitchInfo>, t: Table, f: Fabric, r: Request, s: SwitchId, v: VlanId)
    requires Inv(t) && Agrees(infos, t.pool, f)
    requires InRange(t.pool, v) && Rec(t.pool, v).inUse && Rec(t.pool, v).sid != r.sid
    ensures Members(At(StepFabric(infos, t, f, r), s), v) == Members(At(f, s), v)
  {
    hide Reflects, Members, At;
    var k := Find(t.sessions, r.sid);
    if k < |t.sessions| {
      HeldIsRecorded(t, k, v);
      if r.StartSession? {
        CreateMatchesTable(infos, t, f, k, s, v, 0);
      } else if Closes(t, r, r.sid) {
        OthersMembersStayClosing(infos, t, f, r, s, v);
      }
    }
  }

  lemma OthersMembersStayClosing(infos: seq<SwitchInfo>, t: Table, f: Fabric, r: Request, s: SwitchId, v: VlanId)
    requires Inv(t) && Agrees(infos, t.pool, f) && Closes(t, r, r.sid)
    requires v !in Held(t.sessions[Find(t.sessions, r.sid)])
    ensures Members(At(StepFabric(infos, t, f, r), s), v) == Members(At(f, s), v)
  {
    var sess := t.sessions[Find(t.sessions, r.sid)];
    assert SessionInv(t.pool, sess);
    hide Inv, Agrees, Members, At, RemoveVlan;
    if r.DeleteVlan? {
      RemoveVlanKeeps(t.pool, sess, r.vlan);
    }
    ClearingLeavesNothing(infos, t.pool, f, Closing(t, r, r.sid), s);
  }

  /** What a request of another session does to this one's record and to the ports of its active VLANs: nothing. */
  lemma OthersKeep(t: Table, r: Request, sid: string)
    requires Inv(t) && Find(t.sessions, sid) < |t.sessions| && r.sid != sid
    ensures var t', k := Step(t, r), Find(t.sessions, sid);
            var k' := Find(t'.sessions, sid);
            && k' < |t'.sessions| && t'.sessions[k'] == t.sessions[k]
            && forall v :: v in t.sessions[k].active ==> PortsOf(t'.pool, v) == PortsOf(t.pool, v)
  {
    var t', k := Step(t, r), Find(t.sessions, sid);
    forall v | v in t.sessions[k].active ensures IsRecorded(t, v, sid) {
      assert SessionInv(t.pool, t.sessions[k]) && v in Held(t.sessions[k]);
    }
    if Closes(t, r, r.sid) {
      CloseIsolates(t, r, r.sid);
      FindAfterRemoval(t.sessions, Find(t.sessions, r.sid), sid);
    } else {
      OthersKeepOpen(t, r, sid);
    }
  }

  ghost predicate SameFor(t: Table, t': Table, sid: string) {
    var k := Find(t.sessions, sid);
    && k < |t.sessions| <= |t'.sessions| && Find(t'.sessions, sid) == k && t'.sessions[k] == t.sessions[k]
    && forall v :: IsRecorded(t, v, sid) ==> PortsOf(t'.pool, v) == PortsOf(t.pool, v)
  }

  lemma OthersKeepOpen(t: Table, r: Request, sid: string)
    requires Inv(t) && Find(t.sessions, sid) < |t.sessions| && r.sid != sid && !Closes(t, r, r.sid)
    ensures SameFor(t, Step(t, r), sid)
  {
    match r
    case AddVlan(asker) => AddKeepsOthers(t, asker, sid);
    case AddToVlan(w, port, asker) => AddToKeepsOthers(t, w, port, asker, sid);
    case DeleteVlan(w, asker) =>
      DeleteSetsAside(t, w, asker);
      hide Inv, Held, Closes;
      FindSame(t.sessions, Step(t, r).sessions, sid);
    case _ =>
  }

  lemma AddKeepsOthers(t: Table, asker: string, sid: string)
    requires Inv(t) && Find(t.sessions, sid) < |t.sessions| && asker != sid
    ensures SameFor(t, Step(t, AddVlan(asker)), sid)
  {
    AddGivesToAsker(t, asker);
    if t.pool.free != [] {
      assert t.pool.free[0] in t.pool.free && !Rec(t.pool, t.pool.free[0]).inUse;
      hide Inv, Step, Given;
      FindSame(t.sessions, Step(t, AddVlan(asker)).sessions, sid);
    }
  }

  lemma AddToKeepsOthers(t: Table, w: VlanId, port: SwitchPort, asker: string, sid: string)
    requires Inv(t) && Find(t.sessions, sid) < |t.sessions| && asker != sid
    ensures SameFor(t, Step(t, AddToVlan(w, port, asker)), sid)
  {
    AddToReachesOnlyHeld(t, w, port, asker);
    var t', j := Step(t, AddToVlan(w, port, asker)), Find(t.sessions, asker);
    if j < |t.sessions| && w in Held(t.sessions[j]) {
      HeldIsRecorded(t, j, w);
      assert t'.sessions[j].sid == asker;
      hide Inv, Step, Held;
      FindSame(t.sessions, t'.sessions, sid);
    }
  }

  lemma FindSame(ss: seq<SessionRec>, tt: seq<SessionRec>, sid: string)
    requires |ss| <= |tt| && forall j :: 0 <= j < |ss| ==> tt[j].sid == ss[j].sid
    requires Find(ss, sid) < |ss|
    ensures Find(tt, sid) == Find(ss, sid)
  {
    assert tt[Find(ss, sid)].sid == sid;
    assert forall j :: 0 <= j < |ss| && tt[j].sid == sid ==> ss[j].sid == sid;
  }

  lemma FindAfterRemoval(ss: seq<SessionRec>, m: nat, sid: string)
    requires m < |ss| && Find(ss, sid) < |ss| && m != Find(ss, sid)
    requires forall i, j :: 0 <= i < j < |ss| ==> ss[i].sid != ss[j].sid
    ensures var rest := RemoveAt(ss, m);
            Find(rest, sid) < |rest| && rest[Find(rest, sid)] == ss[Find(ss, sid)]
  {
    var rest, k := RemoveAt(ss, m), Find(ss, sid);
    assert rest[if k < m then k else k - 1] == ss[k];
    var i := Find(rest, sid);
    assert rest[i] == ss[if i < m then i else i + 1];
  }

  lemma OtherStepStays(infos: seq<SwitchInfo>, t: Table, f: Fabric, r: Request, sid: string)
    requires Inv(t) && Agrees(infos, t.pool, f) && InStep(infos, t, f, sid) && r.sid != sid
    ensures InStep(infos, Step(t, r), StepFabric(infos, t, f, r), sid)
  {
    var t', g, k := Step(t, r), StepFabric(infos, t, f, r), Find(t.sessions, sid);
    OthersKeep(t, r, sid);
    assert SessionInv(t.pool, t.sessions[k]);
    forall s, v | v in t.sessions[k].active
      ensures MembersAreTable(infos, t'.pool, g, s, v)
    {
      assert v in Held(t.sessions[k]) && MembersAreTable(infos, t.pool, f, s, v);
      OthersMembersStay(infos, t, f, r, s, v);
    }
  }

  lemma OwnStepStays(infos: seq<SwitchInfo>, t: Table, f: Fabric, r: Request)
    requires Inv(t) && Agrees(infos, t.pool, f) && InStep(infos, t, f, r.sid) && LeavesAlone(t, r, r.sid)
    ensures InStep(infos, Step(t, r), StepFabric(infos, t, f, r), r.sid)
  {
    match r
    case AddVlan(sid) => AddStaysInStep(infos, t, f, sid);
    case DeleteVlan(v, sid) =>
      DeleteSetsAside(t, v, sid);
      forall s, w | w in Step(t, r).sessions[Find(t.sessions, sid)].active
        ensures MembersAreTable(infos, t.pool, f, s, w)
      {
        assert w in t.sessions[Find(t.sessions, sid)].active;
      }
    case StartSession(sid) => StartPutsInStep(infos, t, f, sid);
  }

  /** A new VLAN has no ports, and no members either. */
  lemma AddStaysInStep(infos: seq<SwitchInfo>, t: Table, f: Fabric, sid: string)
    requires Inv(t) && Agrees(infos, t.pool, f) && InStep(infos, t, f, sid)
    ensures InStep(infos, Step(t, AddVlan(sid)), f, sid)
  {
    var t', k := Step(t, AddVlan(sid)), Find(t.sessions, sid);
    AddGivesToAsker(t, sid);
    if t.pool.free != [] {
      assert t.pool.free[0] in t.pool.free;
      forall s, v | v in t'.sessions[k].active
        ensures MembersAreTable(infos, t'.pool, f, s, v)
      {
        assert PortsOf(t'.pool, v) == PortsOf(t.pool, v);
        assert MembersAgree(infos, t.pool, f, s, v);
        assert v != t.pool.free[0] ==> v in t.sessions[k].active && MembersAreTable(infos, t.pool, f, s, v);
      }
    }
  }

  lemma StaysInStep(infos: seq<SwitchInfo>, t: Table, f: Fabric, r: Request, sid: string)
    requires Inv(t) && Agrees(infos, t.pool, f) && AddsRemovable(infos, r)
    requires InStep(infos, t, f, sid) && LeavesAlone(t, r, sid)
    ensures InStep(infos, Step(t, r), StepFabric(infos, t, f, r), sid)
  {
    if r.sid == sid {
      OwnStepStays(infos, t, f, r);
    } else {
      OtherStepStays(infos, t, f, r, sid);
    }
  }

  /** From position `i` on, where it was started, the session is left alone. */
  ghost predicate StartedAt(n: nat, rs: seq<Request>, i: nat, sid: string) {
    && i < |rs| && rs[i] == StartSession(sid)
    && HasSession(Run(InitTable(n), rs[..i]), sid)
    && forall j :: i < j < |rs| ==> LeavesAlone(Run(InitTable(n), rs[..j]), rs[j], sid)
  }

  predicate HasSession(t: Table, sid: string) {
    Find(t.sessions, sid) < |t.sessions|
  }

  lemma StartedBefore(n: nat, rs: seq<Request>, i: nat, sid: string)
    requires StartedAt(n, rs, i, sid) && i < |rs| - 1
    ensures StartedAt(n, rs[..|rs| - 1], i, sid)
  {
    hide Run, LeavesAlone, HasSession;
    var init := rs[..|rs| - 1];
    assert init[..i] == rs[..i];
    forall j | i < j < |init|
      ensures LeavesAlone(Run(InitTable(n), init[..j]), init[j], sid)
    {
      assert init[..j] == rs[..j] && init[j] == rs[j];
    }
  }

  /** What holds before the last request of a run. */
  lemma BeforeLast(infos: seq<SwitchInfo>, n: nat, rs: seq<Request>)
    requires rs != [] && forall r :: r in rs ==> AddsRemovable(infos, r)
    ensures var init := rs[..|rs| - 1];
            var t, f := Run(InitTable(n), init), RunFabric(infos, InitTable(n), map[], init);
            && Inv(t) && Agrees(infos, t.pool, f) && AddsRemovable(infos, rs[|rs| - 1])
            && Run(InitTable(n), rs) == Step(t, rs[|rs| - 1])
            && RunFabric(infos, InitTable(n), map[], rs) == StepFabric(infos, t, f, rs[|rs| - 1])
            && forall r :: r in init ==> AddsRemovable(infos, r)
  {
    hide AddsRemovable, Step, StepFabric, Inv;
    var init := rs[..|rs| - 1];
    assert rs[|rs| - 1] in rs && forall r :: r in init ==> r in rs;
    InitInv(n);
    RunInv(InitTable(n), init);
    StartAgrees(infos, n);
    hide Agrees;
    RunAgrees(infos, InitTable(n), map[], init);
  }

  lemma StartAgrees(infos: seq<SwitchInfo>, n: nat)
    ensures Agrees(infos, InitTable(n).pool, map[])
  {
  }

  /** Over runs: once a session has been started, the members of its active VLANs are on every switch exactly the ports
      the table lists, whatever other sessions do, until it adds a port or closes. */
  lemma {:induction false} StartedStaysInStep(infos: seq<SwitchInfo>, n: nat, rs: seq<Request>, i: nat, sid: string)
    requires StartedAt(n, rs, i, sid) && forall r :: r in rs ==> AddsRemovable(infos, r)
    ensures InStep(infos, Run(InitTable(n), rs), RunFabric(infos, InitTable(n), map[], rs), sid)
  {
    var m := |rs| - 1;
    var t, f := Run(InitTable(n), rs[..m]), RunFabric(infos, InitTable(n), map[], rs[..m]);
    assert if i == m then HasSession(t, sid) else LeavesAlone(t, rs[m], sid);
    hide Run, RunFabric, Inv, Agrees, LeavesAlone, AddsRemovable, Step, StepFabric;
    BeforeLast(infos, n, rs);
    if i == m {
      StartPutsInStep(infos, t, f, sid);
    } else {
      StartedBefore(n, rs, i, sid);
      StartedStaysInStep(infos, n, rs[..m], i, sid);
      hide StartedAt, InStep;
      StaysInStep(infos, t, f, rs[m], sid);
    }
  }

  /** The condition on ports is exact: one session that adds one port, starts and ends leaves nothing on
      the port's switch, except on a known command-line switch when the port's number is beyond the switch's last. */
  lemma LeavesNothingIffRemovable(infos: seq<SwitchInfo>, n: nat, q: SwitchPort, sid: string)
    requires 0 < n
    ensures var rs := [AddVlan(sid), AddToVlan(2, q, sid), StartSession(sid), EndSession(sid)];
            var f := RunFabric(infos, InitTable(n), map[], rs);
            && (Members(At(f, q.switchId), 2) == {} <==> Removable(infos, q))
            && (Removable(infos, q) <==>
                !(q.switchId in CLI_SWITCHES && exists i :: IsEntry(infos, q.switchId, i) && 0 < infos[i].numPorts < q.port))
  {
    ReachedIff(infos, q);
    var t0 := InitTable(n);
    var t2 := Step(Step(t0, AddVlan(sid)), AddToVlan(2, q, sid));
    OnePortTable(n, q, sid);
    FourSteps(infos, t0, AddVlan(sid), AddToVlan(2, q, sid), StartSession(sid), EndSession(sid));
    var t1 := Step(t0, AddVlan(sid));
    var f2 := StepFabric(infos, t1, StepFabric(infos, t0, map[], AddVlan(sid)), AddToVlan(2, q, sid));
    assert f2 == map[];
    var sess := SessionRec(sid, [q.switchId], [2], [], false);
    var f3 := StepFabric(infos, t2, f2, StartSession(sid));
    LoneSessionSteps(infos, t2, f2, sess);
    LoneSessionSteps(infos, t2, f3, sess);
    assert Merge([], [2]) == [2] by { assert [2][..0] == []; }
    OnePortLeft(infos, t2.pool, q);
  }

  lemma LoneSessionSteps(infos: seq<SwitchInfo>, t: Table, f: Fabric, sess: SessionRec)
    requires t.sessions == [sess] && !sess.cleared
    ensures Step(t, StartSession(sess.sid)) == t
    ensures StepFabric(infos, t, f, StartSession(sess.sid)) ==
            CreateFabric(infos, f, t.pool, sess.active, sess.switches)
    ensures StepFabric(infos, t, f, EndSession(sess.sid)) ==
            ClearFabric(infos, f, t.pool, Merge(sess.removed, sess.active), sess.switches)
  {
  }

  lemma OnePortTable(n: nat, q: SwitchPort, sid: string)
    requires 0 < n
    ensures var t1 := Step(InitTable(n), AddVlan(sid));
            var t2 := Step(t1, AddToVlan(2, q, sid));
            && t1.sessions == [SessionRec(sid, [], [2], [], false)]
            && t2.sessions == [SessionRec(sid, [q.switchId], [2], [], false)]
            && PortsOf(t2.pool, 2) == [q]
  {
    var t1 := Step(InitTable(n), AddVlan(sid));
    assert Rec(t1.pool, 2) == VlanRec(true, sid, []);
    assert MayAddTo(t1, 2, sid);
    assert Push<SwitchId>([], q.switchId) == [q.switchId];
  }

  /** Creating and then clearing VLAN 2 with the single port `q`. */
  lemma OnePortLeft(infos: seq<SwitchInfo>, pool: Pool, q: SwitchPort)
    requires PortsOf(pool, 2) == [q]
    ensures var f := CreateFabric(infos, map[], pool, [2], [q.switchId]);
            var g := ClearFabric(infos, f, pool, [2], [q.switchId]);
            Members(At(g, q.switchId), 2) == {} <==> Removable(infos, q)
  {
    var s := q.switchId;
    var f := CreateFabric(infos, map[], pool, [2], [s]);
    assert q in PortsOn([q], s);
    CreateFabricAt(infos, map[], pool, [2], [s], s);
    CreateMeans(infos, pool, [2], s, BLANK_SWITCH);
    CreatedMembers(infos, [q], s, {});
    ClearFabricAt(infos, f, pool, [2], [s], s);
    ClearMeans(infos, pool, [2], s, At(f, s));
    ClearedMembers(infos, [q], s);
  }

  lemma FourSteps(infos: seq<SwitchInfo>, t: Table, r1: Request, r2: Request, r3: Request, r4: Request)
    ensures var t1 := Step(t, r1);
            var f1 := StepFabric(infos, t, map[], r1);
            var t2, f2 := Step(t1, r2), StepFabric(infos, t1, f1, r2);
            var t3, f3 := Step(t2, r3), StepFabric(infos, t2, f2, r3);
            RunFabric(infos, t, map[], [r1, r2, r3, r4]) == StepFabric(infos, t3, f3, r4)
  {
    hide Step, StepFabric;
    var rs := [r1, r2, r3, r4];
    assert rs[..3] == [r1, r2, r3] && [r1, r2, r3][..2] == [r1, r2] && [r1, r2][..1] == [r1] && [r1][..0] == [];
    assert Run(t, [r1]) == Step(t, r1);
    assert Run(t, [r1, r2]) == Step(Run(t, [r1]), r2);
    assert Run(t, [r1, r2, r3]) == Step(Run(t, [r1, r2]), r3);
    assert RunFabric(infos, t, map[], []) == map[];
    assert RunFabric(infos, t, map[], [r1]) == StepFabric(infos, t, map[], r1);
    assert RunFabric(infos, t, map[], [r1, r2]) == StepFabric(infos, Run(t, [r1]), RunFabric(infos, t, map[], [r1]), r2);
    assert RunFabric(infos, t, map[], [r1, r2, r3]) ==
           StepFabric(infos, Run(t, [r1, r2]), RunFabric(infos, t, map[], [r1, r2]), r3);
  }
}
