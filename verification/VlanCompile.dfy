/** The commands `session::create_vlans` and `session::clear_session` write for one switch, and what
    a switch that reads them does: nmd/nmd_types.cc compiled to nmd/nmd_switch.cc. */
module VlanCompile {
  import opened PortList
  import opened SwitchCommands
  import opened VlanTable
  import opened VlanClearing

  // ------------------------------------------------------------- compiling

  /** The native VLAN of each listed port that does not pass tags, one port at a time. */
  function AddPvids(infos: seq<SwitchInfo>, s: SwitchId, on: seq<SwitchPort>, v: VlanId): seq<Command> {
    if on == [] then []
    else
      var p := on[|on| - 1];
      AddPvids(infos, s, on[..|on| - 1], v) + if p.passTag then [] else SetPvids(infos, s, [p], v)
  }

  /** `vlan::get_add_ports_cmd`. */
  function AddPortsCommands(infos: seq<SwitchInfo>, ports: seq<SwitchPort>, s: SwitchId, v: VlanId): seq<Command> {
    SetMembership(infos, s, PortsOn(ports, s), v) + AddPvids(infos, s, PortsOn(ports, s), v)
  }

  /** The commands of `vlan::get_clear_vlan_cmd`. */
  function ClearVlanCommands(infos: seq<SwitchInfo>, ports: seq<SwitchPort>, s: SwitchId, v: VlanId): seq<Command> {
    if PortsOn(ports, s) == [] then []
    else SetPvids(infos, s, PortsOn(ports, s), DEFAULT_VLAN) + SetMembership(infos, s, [], v)
  }

  function PortsOf(pool: Pool, v: VlanId): seq<SwitchPort> {
    if InRange(pool, v) then Rec(pool, v).ports else []
  }

  /** All the commands `create_vlans` writes for switch `s`. */
  function CreateCommands(infos: seq<SwitchInfo>, pool: Pool, vs: seq<VlanId>, s: SwitchId): seq<Command> {
    if vs == [] then []
    else
      var v := vs[|vs| - 1];
      CreateCommands(infos, pool, vs[..|vs| - 1], s) + AddPortsCommands(infos, PortsOf(pool, v), s, v)
  }

  /** All the commands `clear_session` writes for switch `s`, while it takes the ports away. */
  function ClearCommands(infos: seq<SwitchInfo>, pool: Pool, vs: seq<VlanId>, s: SwitchId): seq<Command> {
    if vs == [] then []
    else
      var v, rest := vs[|vs| - 1], vs[..|vs| - 1];
      ClearCommands(infos, pool, rest, s) +
      ClearVlanCommands(infos, PortsOf(ClearVlansOn(pool, rest, s), v), s, v)
  }

  // ------------------------------------------------------------- meaning

  /** Port `p` of switch `s` is listed as a host's that does not pass tags. */
  ghost predicate ListsUntagged(ports: seq<SwitchPort>, s: SwitchId, p: nat) {
    exists q :: q in ports && q.switchId == s && q.port == p && !q.passTag && !q.interSwitch
  }

  /** Port `p` of switch `s` is listed as a host's. */
  ghost predicate ListsHost(ports: seq<SwitchPort>, s: SwitchId, p: nat) {
    exists q :: q in ports && q.switchId == s && q.port == p && !q.interSwitch
  }

  /** The port list makes its VLAN the native one of port `p` of switch `s`. */
  ghost predicate Claims(infos: seq<SwitchInfo>, s: SwitchId, ports: seq<SwitchPort>, p: nat) {
    ListsUntagged(ports, s, p) && !IsManagement(infos, s, p)
  }

  /** The native VLAN of port `p` once the VLANs `vs` have been created in order: the last that claims it. */
  ghost function LastClaim(infos: seq<SwitchInfo>, pool: Pool, vs: seq<VlanId>, s: SwitchId, p: nat, before: VlanId): VlanId {
    if vs == [] then before
    else if Claims(infos, s, PortsOf(pool, vs[|vs| - 1]), p) then vs[|vs| - 1]
    else LastClaim(infos, pool, vs[..|vs| - 1], s, p, before)
  }

  lemma {:induction false} AddPvidsMeans(infos: seq<SwitchInfo>, s: SwitchId, on: seq<SwitchPort>, v: VlanId, st: SwitchState)
    requires forall q :: q in on ==> q.switchId == s
    ensures var after := Exec(st, AddPvids(infos, s, on, v));
            && after.members == st.members
            && forall p :: Native(after, p) == if Claims(infos, s, on, p) then v else Native(st, p)
  {
    if on != [] {
      var init, q := on[..|on| - 1], on[|on| - 1];
      assert on == init + [q];
      AddPvidsMeans(infos, s, init, v, st);
      var mid := Exec(st, AddPvids(infos, s, init, v));
      var last := if q.passTag then [] else SetPvids(infos, s, [q], v);
      ExecConcat(st, AddPvids(infos, s, init, v), last);
      SetPvidsMeans(infos, s, [q], v, mid);
      hide IsManagement;
      forall p ensures ListsUntagged(on, s, p) <==>
                       ListsUntagged(init, s, p) || (!q.passTag && p == q.port && !q.interSwitch)
      {
        assert q in on && q in [q];
      }
    }
  }

  lemma ListsOn(ports: seq<SwitchPort>, s: SwitchId, p: nat)
    ensures ListsUntagged(PortsOn(ports, s), s, p) <==> ListsUntagged(ports, s, p)
  {
    if q :| q in ports && q.switchId == s && q.port == p && !q.passTag && !q.interSwitch {
      assert q in PortsOn(ports, s);
    }
  }

  lemma HostsOn(infos: seq<SwitchInfo>, ports: seq<SwitchPort>, s: SwitchId, p: nat)
    ensures HasHost(infos, s, PortsOn(ports, s), p) <==> ListsHost(ports, s, p) && !IsManagement(infos, s, p)
  {
    hide IsManagement;
    if q :| q in ports && q.switchId == s && q.port == p && !q.interSwitch {
      assert q in PortsOn(ports, s);
    }
  }

  /** Creating a VLAN on a switch makes its listed ports the members, as far as the commands reach, and makes it the
      native VLAN of exactly the listed host ports that do not pass tags, the management port excepted. */
  lemma AddPortsMeans(infos: seq<SwitchInfo>, ports: seq<SwitchPort>, s: SwitchId, v: VlanId, st: SwitchState)
    ensures var after := Exec(st, AddPortsCommands(infos, ports, s, v));
            && MembersSet(st, after, v, NewMembers(infos, s, Members(st, v), PortsOn(ports, s)))
            && forall p :: Native(after, p) ==
                 if ListsUntagged(ports, s, p) && !IsManagement(infos, s, p) then v else Native(st, p)
  {
    var on := PortsOn(ports, s);
    var first := SetMembership(infos, s, on, v);
    SetMembershipMeans(infos, s, on, v, st);
    ExecConcat(st, first, AddPvids(infos, s, on, v));
    AddPvidsMeans(infos, s, on, v, Exec(st, first));
    hide ListsUntagged, IsManagement;
    forall p ensures Claims(infos, s, on, p) <==> Claims(infos, s, ports, p) {
      ListsOn(ports, s, p);
    }
  }

  /** The untagged VLAN of every managed port of the list on `s` goes back to the default one. */
  ghost predicate Resets(infos: seq<SwitchInfo>, s: SwitchId, ports: seq<SwitchPort>, p: nat) {
    ListsHost(ports, s, p) && !IsManagement(infos, s, p)
  }

  /** The two halves of the commands. */
  lemma ResetThenClear(infos: seq<SwitchInfo>, on: seq<SwitchPort>, s: SwitchId, v: VlanId, st: SwitchState)
    ensures var after := Exec(st, SetPvids(infos, s, on, DEFAULT_VLAN) + SetMembership(infos, s, [], v));
            && MembersSet(st, after, v, NewMembers(infos, s, Members(st, v), []))
            && forall p :: Native(after, p) == if HasHost(infos, s, on, p) then DEFAULT_VLAN else Native(st, p)
  {
    var first, second := SetPvids(infos, s, on, DEFAULT_VLAN), SetMembership(infos, s, [], v);
    hide SetPvids, SetMembership, Exec, NewMembers, HasHost;
    SetPvidsHosts(infos, s, on, DEFAULT_VLAN, st);
    ExecConcat(st, first, second);
    SetMembershipMeans(infos, s, [], v, Exec(st, first));
  }

  lemma ClearVlanMeans(infos: seq<SwitchInfo>, ports: seq<SwitchPort>, s: SwitchId, v: VlanId, st: SwitchState)
    ensures var after := Exec(st, ClearVlanCommands(infos, ports, s, v));
            && MembersSet(st, after, v, if PortsOn(ports, s) == [] then Members(st, v)
                                        else NewMembers(infos, s, Members(st, v), []))
            && forall p :: Native(after, p) ==
                 if ListsHost(ports, s, p) && !IsManagement(infos, s, p) then 255 else Native(st, p)
  {
    var on := PortsOn(ports, s);
    assert on == [] ==> Exec(st, ClearVlanCommands(infos, ports, s, v)) == st;
    ResetThenClear(infos, on, s, v, st);
    hide SetPvids, SetMembership, Exec, NewMembers, PortsOn;
    forall p ensures HasHost(infos, s, on, p) <==> ListsHost(ports, s, p) && !IsManagement(infos, s, p) {
      HostsOn(infos, ports, s, p);
    }
    if on == [] {
      assert forall p :: !HasHost(infos, s, on, p);
    }
    hide HasHost, ListsHost, IsManagement;
  }

  lemma {:induction false} CreateMeans(infos: seq<SwitchInfo>, pool: Pool, vs: seq<VlanId>, s: SwitchId, st: SwitchState)
    requires NoDup(vs)
    ensures var after := Exec(st, CreateCommands(infos, pool, vs, s));
            && (forall v :: Members(after, v) ==
                  if v in vs then NewMembers(infos, s, Members(st, v), PortsOn(PortsOf(pool, v), s)) else Members(st, v))
            && forall p :: Native(after, p) == LastClaim(infos, pool, vs, s, p, Native(st, p))
  {
    if vs != [] {
      var init, v := vs[..|vs| - 1], vs[|vs| - 1];
      assert vs == init + [v];
      CreateMeans(infos, pool, init, s, st);
      var first := CreateCommands(infos, pool, init, s);
      ExecConcat(st, first, AddPortsCommands(infos, PortsOf(pool, v), s, v));
      AddPortsMeans(infos, PortsOf(pool, v), s, v, Exec(st, first));
    }
  }

  /** Clearing the VLANs `part` on a switch does not touch the ports of any other VLAN. */
  lemma {:induction false} OthersKeepPorts(pool: Pool, part: seq<VlanId>, s: SwitchId, v: VlanId)
    requires v !in part
    ensures PortsOf(ClearVlansOn(pool, part, s), v) == PortsOf(pool, v)
  {
    if part != [] {
      assert part == part[..|part| - 1] + [part[|part| - 1]];
      OthersKeepPorts(pool, part[..|part| - 1], s, v);
    }
  }

  /** The state of the switch after the VLANs `vs` have been cleared. */
  ghost predicate Cleared(infos: seq<SwitchInfo>, pool: Pool, vs: seq<VlanId>, s: SwitchId, st: SwitchState,
                          after: SwitchState) {
    && (forall v :: Members(after, v) ==
          if v in vs && PortsOn(PortsOf(pool, v), s) != [] then NewMembers(infos, s, Members(st, v), [])
          else Members(st, v))
    && forall p :: Native(after, p) ==
          if exists v :: v in vs && Resets(infos, s, PortsOf(pool, v), p) then DEFAULT_VLAN else Native(st, p)
  }

  lemma ClearedOneMore(infos: seq<SwitchInfo>, pool: Pool, init: seq<VlanId>, v: VlanId, s: SwitchId, st: SwitchState,
                       mid: SwitchState, after: SwitchState)
    requires v !in init && Cleared(infos, pool, init, s, st, mid)
    requires MembersSet(mid, after, v, if PortsOn(PortsOf(pool, v), s) == [] then Members(mid, v)
                                       else NewMembers(infos, s, Members(mid, v), []))
    requires forall p :: Native(after, p) ==
               if Resets(infos, s, PortsOf(pool, v), p) then DEFAULT_VLAN else Native(mid, p)
    ensures Cleared(infos, pool, init + [v], s, st, after)
  {
    hide Resets, NewMembers, PortsOn, PortsOf, Members, Native;
    forall p
      ensures (exists w :: w in init + [v] && Resets(infos, s, PortsOf(pool, w), p)) <==>
              Resets(infos, s, PortsOf(pool, v), p) || exists w :: w in init && Resets(infos, s, PortsOf(pool, w), p)
    {
      assert v in init + [v];
    }
  }

  lemma {:induction false} ClearMeans(infos: seq<SwitchInfo>, pool: Pool, vs: seq<VlanId>, s: SwitchId, st: SwitchState)
    requires NoDup(vs)
    ensures Cleared(infos, pool, vs, s, st, Exec(st, ClearCommands(infos, pool, vs, s)))
  {
    if vs != [] {
      var init, v := vs[..|vs| - 1], vs[|vs| - 1];
      assert vs == init + [v] && v !in init;
      hide Cleared, MembersSet, ClearVlanCommands, ClearVlansOn;
      ClearMeans(infos, pool, init, s, st);
      OthersKeepPorts(pool, init, s, v);
      var first := ClearCommands(infos, pool, init, s);
      var mid, after := Exec(st, first), Exec(st, ClearCommands(infos, pool, vs, s));
      ExecConcat(st, first, ClearVlanCommands(infos, PortsOf(pool, v), s, v));
      ClearVlanMeans(infos, PortsOf(pool, v), s, v, mid);
      ClearedOneMore(infos, pool, init, v, s, st, mid, after);
    }
  }
}
