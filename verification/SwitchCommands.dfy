/** nmd/nmd_switch.cc: the commands that configure a switch, and what they do to it.
    A command stream is a list of `Command`; `Exec` is the switch that reads it. */
module SwitchCommands {
  import opened PortList

  type SwitchId = string
  type VlanId = nat

  /** The VLAN of ports outside every experiment. */
  const DEFAULT_VLAN: VlanId := 255

  datatype SwitchPort = SwitchPort(switchId: SwitchId, port: PortNum, interSwitch: bool, passTag: bool)

  /** `switch_port::operator==`: the tag flag does not count. */
  predicate SamePort(a: SwitchPort, b: SwitchPort) {
    a.switchId == b.switchId && a.port == b.port && a.interSwitch == b.interSwitch
  }

  /** `vlan::get_switch_ports`: the ports of a list that are on switch `s`, in order. */
  function PortsOn(ports: seq<SwitchPort>, s: SwitchId): (r: seq<SwitchPort>)
    ensures forall p :: p in r <==> p in ports && p.switchId == s
  {
    if ports == [] then []
    else
      var init, p := ports[..|ports| - 1], ports[|ports| - 1];
      assert ports == init + [p];
      if p.switchId == s then PortsOn(init, s) + [p] else PortsOn(init, s)
  }

  /** The ports of a list that are on other switches. */
  function PortsOff(ports: seq<SwitchPort>, s: SwitchId): (r: seq<SwitchPort>)
    ensures forall p :: p in r <==> p in ports && p.switchId != s
  {
    if ports == [] then []
    else
      var init, p := ports[..|ports| - 1], ports[|ports| - 1];
      assert ports == init + [p];
      if p.switchId == s then PortsOff(init, s) else PortsOff(init, s) + [p]
  }

  /** Taking one switch's ports away leaves those of the others, in order. */
  lemma {:induction false} PortsOnAfterOff(ports: seq<SwitchPort>, s: SwitchId, other: SwitchId)
    requires s != other
    ensures PortsOn(PortsOff(ports, s), other) == PortsOn(ports, other)
  {
    if ports != [] {
      PortsOnAfterOff(ports[..|ports| - 1], s, other);
      var off := PortsOff(ports[..|ports| - 1], s);
      assert (off + [ports[|ports| - 1]])[..|off|] == off;
    }
  }

  // ------------------------------------------------------------- the switches the daemon knows

  datatype SwitchInfo = SwitchInfo(switchId: SwitchId, numPorts: nat, managementPort: nat)

  /** `switch_info_set::get_num_ports`: 0 for an unknown switch. */
  function NumPorts(infos: seq<SwitchInfo>, s: SwitchId): nat {
    if infos == [] then 0 else if infos[0].switchId == s then infos[0].numPorts else NumPorts(infos[1..], s)
  }

  function ManagementPort(infos: seq<SwitchInfo>, s: SwitchId): nat {
    if infos == [] then 0
    else if infos[0].switchId == s then infos[0].managementPort
    else ManagementPort(infos[1..], s)
  }

  /** Entry `i` is what is known of switch `s`: the first with its id. */
  predicate IsEntry(infos: seq<SwitchInfo>, s: SwitchId, i: int) {
    0 <= i < |infos| && infos[i].switchId == s && forall j :: 0 <= j < i ==> infos[j].switchId != s
  }

  lemma {:induction false} EntryIs(infos: seq<SwitchInfo>, s: SwitchId, i: int)
    requires IsEntry(infos, s, i)
    ensures NumPorts(infos, s) == infos[i].numPorts && ManagementPort(infos, s) == infos[i].managementPort
  {
    if infos[0].switchId != s {
      assert infos[1..][i - 1] == infos[i];
      EntryIs(infos[1..], s, i - 1);
    }
  }

  lemma {:induction false} KnownSwitch(infos: seq<SwitchInfo>, s: SwitchId)
    ensures (exists i :: IsEntry(infos, s, i)) || (NumPorts(infos, s) == 0 && ManagementPort(infos, s) == 0)
  {
    if infos != [] {
      if infos[0].switchId == s {
        assert IsEntry(infos, s, 0);
      } else {
        KnownSwitch(infos[1..], s);
        if i :| IsEntry(infos[1..], s, i) {
          assert forall j :: 0 < j < |infos| ==> infos[j] == infos[1..][j - 1];
          assert IsEntry(infos, s, i + 1);
        }
      }
    }
  }

  /** `p` is the management port of switch `s`. */
  ghost predicate IsManagement(infos: seq<SwitchInfo>, s: SwitchId, p: nat) {
    exists i :: IsEntry(infos, s, i) && infos[i].managementPort == p
  }

  lemma ManagementIs(infos: seq<SwitchInfo>, s: SwitchId, p: PortNum)
    ensures ManagementPort(infos, s) == p <==> IsManagement(infos, s, p)
  {
    KnownSwitch(infos, s);
    if i :| IsEntry(infos, s, i) {
      EntryIs(infos, s, i);
    }
  }

  datatype Family = Arista | Arista64 | Cisco | Snmp

  /** `is_arista_switch`, `is_arista64_switch`, `is_cisco_switch`, in the order they are asked. */
  function FamilyOf(s: SwitchId): Family {
    if s == "onlsw7" || s == "onlsw8" || s == "onlsw9" || s == "onlsw10" then Arista
    else if s == "onlsw11" || s == "onlsw12" then Arista64
    else if s == "onlsw1" || s == "onlsw2" || s == "onlsw3" || s == "onlsw4" then Cisco
    else Snmp
  }

  /** Command-line switches get one text over ssh; the others one SNMP write per command. */
  predicate UsesSsh(s: SwitchId) {
    !FamilyOf(s).Snmp?
  }

  const CLI_SWITCHES: set<SwitchId> := {"onlsw1", "onlsw2", "onlsw3", "onlsw4", "onlsw7", "onlsw8", "onlsw9", "onlsw10",
                                        "onlsw11", "onlsw12"}

  lemma CliSwitches(s: SwitchId)
    ensures UsesSsh(s) <==> s in CLI_SWITCHES
    ensures FamilyOf(s).Arista64? <==> s in ["onlsw11", "onlsw12"]
  {
  }

  // ------------------------------------------------------------- commands and their meaning

  datatype Command =
    | SelectRange(last: nat)                             // interface ethernet 1-<last>
    | SelectPorts(ports: seq<PortNum>)                   // interface ethernet <p>,<q>,...
    | AllowedRemove(vlan: VlanId)                        // switchport trunk allowed vlan remove
    | AllowedAdd(vlan: VlanId)                           // switchport trunk allowed vlan add
    | Untagged(vlan: VlanId)                             // switchport trunk native vlan / access vlan
    | ShowVlan(vlan: VlanId)                             // show vlan
    | Exit                                               // exit
    | ForbiddenEgress(vlan: VlanId, portList: string)    // dot1qVlanForbiddenEgressPorts
    | StaticEgress(vlan: VlanId, portList: string)       // dot1qVlanStaticEgressPorts
    | Pvid(port: PortNum, vlan: VlanId)                  // dot1qPvid

  /** A switch: the member ports of each VLAN, the VLAN given to the untagged frames of each
      port, and the interfaces the command line is configuring. */
  datatype SwitchState = SwitchState(members: map<VlanId, set<nat>>, native: map<nat, VlanId>, selected: set<nat>)

  const BLANK_SWITCH := SwitchState(map[], map[], {})

  function Members(st: SwitchState, v: VlanId): set<nat> {
    if v in st.members then st.members[v] else {}
  }

  function Native(st: SwitchState, p: nat): VlanId {
    if p in st.native then st.native[p] else DEFAULT_VLAN
  }

  ghost function PortSet(ports: seq<PortNum>): set<nat> {
    set p <- ports
  }

  ghost function Exec1(st: SwitchState, c: Command): SwitchState {
    match c
    case SelectRange(last) => st.(selected := PortsUpTo(last))
    case SelectPorts(ports) => st.(selected := PortSet(ports))
    case AllowedRemove(v) => st.(members := st.members[v := Members(st, v) - st.selected])
    case AllowedAdd(v) => st.(members := st.members[v := Members(st, v) + st.selected])
    case Untagged(v) => st.(native := st.native + map p <- st.selected :: v)
    case ShowVlan(_) => st
    case Exit => st.(selected := {})
    case ForbiddenEgress(v, s) =>
      if |s| % 2 != 0 then st else st.(members := st.members[v := Members(st, v) - DecodePortList(s)])
    case StaticEgress(v, s) =>
      if |s| % 2 != 0 then st else st.(members := st.members[v := DecodePortList(s)])
    case Pvid(p, v) => st.(native := st.native[p := v])
  }

  ghost function Exec(st: SwitchState, cmds: seq<Command>): SwitchState
    decreases |cmds|
  {
    if cmds == [] then st else Exec(Exec1(st, cmds[0]), cmds[1..])
  }

  lemma {:induction false} ExecConcat(st: SwitchState, a: seq<Command>, b: seq<Command>)
    ensures Exec(st, a + b) == Exec(Exec(st, a), b)
    decreases |a|
  {
    if a == [] {
      assert a + b == b;
    } else {
      assert (a + b)[1..] == a[1..] + b;
      ExecConcat(Exec1(st, a[0]), a[1..], b);
    }
  }

  lemma Exec2(st: SwitchState, a: Command, b: Command)
    ensures Exec(st, [a, b]) == Exec1(Exec1(st, a), b)
  {
    assert [a, b][1..] == [b];
    assert Exec(st, [a, b]) == Exec(Exec1(st, a), [b]);
    assert [b][1..] == [];
    assert Exec(Exec1(st, a), [b]) == Exec(Exec1(Exec1(st, a), b), []);
  }

  lemma Exec3(st: SwitchState, a: Command, b: Command, c: Command)
    ensures Exec(st, [a, b, c]) == Exec1(Exec1(Exec1(st, a), b), c)
  {
    assert [a, b, c][1..] == [b, c];
    assert Exec(st, [a, b, c]) == Exec(Exec1(st, a), [b, c]);
    Exec2(Exec1(st, a), b, c);
  }

  // ------------------------------------------------------------- command builders

  function Numbers(ports: seq<SwitchPort>): (r: seq<PortNum>)
    ensures |r| == |ports| && forall i :: 0 <= i < |r| ==> r[i] == ports[i].port
  {
    seq(|ports|, i requires 0 <= i < |ports| => ports[i].port)
  }

  /** `set_switch_vlan_membership` and its four variants. */
  function SetMembership(infos: seq<SwitchInfo>, s: SwitchId, ports: seq<SwitchPort>, v: VlanId): seq<Command> {
    var n := NumPorts(infos, s);
    if n == 0 then []
    else match FamilyOf(s)
      case Snmp =>
        var numBytes := (n + 7) / 8;
        [ForbiddenEgress(v, EgressString(Numbers(ports), numBytes, true)),
         StaticEgress(v, EgressString(Numbers(ports), numBytes, false))]
      case Arista64 =>
        [SelectRange(n), AllowedRemove(v), Exit] +
        if ports == [] then [] else [SelectPorts(Numbers(ports)), AllowedAdd(v), Exit]
      case _ =>
        [SelectRange(n), AllowedRemove(v), Exit] +
        if ports == [] then [] else [SelectPorts(Numbers(ports)), AllowedAdd(v)] + [ShowVlan(v), Exit]
  }

  /** Ports whose untagged VLAN the daemon manages: not between switches, not the management port. */
  predicate IsHostPort(infos: seq<SwitchInfo>, s: SwitchId, p: SwitchPort) {
    !p.interSwitch && p.port != ManagementPort(infos, s)
  }

  function HostPorts(infos: seq<SwitchInfo>, s: SwitchId, ports: seq<SwitchPort>): seq<SwitchPort> {
    if ports == [] then []
    else
      var rest, p := HostPorts(infos, s, ports[..|ports| - 1]), ports[|ports| - 1];
      if IsHostPort(infos, s, p) then rest + [p] else rest
  }

  /** `set_switch_pvids_*` for ports already known to be host ports. */
  function PvidCommands(s: SwitchId, hosts: seq<SwitchPort>, v: VlanId): seq<Command> {
    if UsesSsh(s) then
      if hosts == [] then [] else [SelectPorts(Numbers(hosts)), Untagged(v), Exit]
    else seq(|hosts|, i requires 0 <= i < |hosts| => Pvid(hosts[i].port, v))
  }

  /** `set_switch_pvids`. */
  function SetPvids(infos: seq<SwitchInfo>, s: SwitchId, ports: seq<SwitchPort>, v: VlanId): seq<Command> {
    PvidCommands(s, HostPorts(infos, s, ports), v)
  }

  // ------------------------------------------------------------- what the builders mean

  /** The members VLAN `v` of switch `s` has after `SetMembership`, from those it had before. */
  ghost function NewMembers(infos: seq<SwitchInfo>, s: SwitchId, before: set<nat>, ports: seq<SwitchPort>): set<nat> {
    var n := NumPorts(infos, s);
    if n == 0 then before
    else if UsesSsh(s) then (before - PortsUpTo(n)) + PortSet(Numbers(ports))
    else set p <- PortSet(Numbers(ports)) | p <= 8 * ((n + 7) / 8)
  }

  /** Only the untagged VLANs of `ports` change, to `v`. */
  ghost predicate NativeSet(before: SwitchState, after: SwitchState, ports: set<nat>, v: VlanId) {
    forall p :: Native(after, p) == if p in ports then v else Native(before, p)
  }

  /** Only the members of `v` change, to `ms`. */
  ghost predicate MembersSet(before: SwitchState, after: SwitchState, v: VlanId, ms: set<nat>) {
    forall w :: Members(after, w) == if w == v then ms else Members(before, w)
  }

  /** Taking `v` off the interfaces 1..n. */
  lemma RemoveMeans(n: nat, v: VlanId, st: SwitchState)
    ensures Exec(st, [SelectRange(n), AllowedRemove(v), Exit]) ==
            SwitchState(st.members[v := Members(st, v) - PortsUpTo(n)], st.native, {})
  {
    Exec3(st, SelectRange(n), AllowedRemove(v), Exit);
  }

  /** Putting `v` on the listed interfaces. */
  lemma AddMeans(ports: seq<PortNum>, v: VlanId, st: SwitchState)
    ensures var after := SwitchState(st.members[v := Members(st, v) + PortSet(ports)], st.native, {});
            && Exec(st, [SelectPorts(ports), AllowedAdd(v), Exit]) == after
            && Exec(st, [SelectPorts(ports), AllowedAdd(v)] + [ShowVlan(v), Exit]) == after
  {
    Exec3(st, SelectPorts(ports), AllowedAdd(v), Exit);
    ExecConcat(st, [SelectPorts(ports), AllowedAdd(v)], [ShowVlan(v), Exit]);
    Exec2(st, SelectPorts(ports), AllowedAdd(v));
    Exec2(Exec(st, [SelectPorts(ports), AllowedAdd(v)]), ShowVlan(v), Exit);
  }

  lemma SshMembershipMeans(infos: seq<SwitchInfo>, s: SwitchId, ports: seq<SwitchPort>, v: VlanId, st: SwitchState)
    requires UsesSsh(s) && NumPorts(infos, s) != 0
    ensures var after := Exec(st, SetMembership(infos, s, ports, v));
            && after.members == st.members[v := NewMembers(infos, s, Members(st, v), ports)]
            && after.native == st.native
  {
    var n, nums := NumPorts(infos, s), Numbers(ports);
    var first := [SelectRange(n), AllowedRemove(v), Exit];
    RemoveMeans(n, v, st);
    var mid := Exec(st, first);
    if ports == [] {
      assert SetMembership(infos, s, ports, v) == first;
      assert PortSet(nums) == {};
      assert NewMembers(infos, s, Members(st, v), ports) == Members(st, v) - PortsUpTo(n);
    } else {
      var second := if FamilyOf(s).Arista64? then [SelectPorts(nums), AllowedAdd(v), Exit]
                    else [SelectPorts(nums), AllowedAdd(v)] + [ShowVlan(v), Exit];
      assert SetMembership(infos, s, ports, v) == first + second;
      ExecConcat(st, first, second);
      AddMeans(nums, v, mid);
    }
  }

  lemma SnmpWritesMean(no: string, yes: string, v: VlanId, st: SwitchState)
    requires |no| % 2 == 0 && |yes| % 2 == 0
    ensures Exec(st, [ForbiddenEgress(v, no), StaticEgress(v, yes)]) ==
            st.(members := st.members[v := DecodePortList(yes)])
  {
    Exec2(st, ForbiddenEgress(v, no), StaticEgress(v, yes));
    var ms := Members(st, v) - DecodePortList(no);
    assert st.members[v := ms][v := DecodePortList(yes)] == st.members[v := DecodePortList(yes)];
  }

  /** Only the ports the string has room for are listed. */
  lemma EgressListMeans(nums: seq<PortNum>, numBytes: nat)
    ensures DecodePortList(EgressString(nums, numBytes, false)) == set p <- PortSet(nums) | p <= 8 * numBytes
  {
    EgressRoundTrip(nums, numBytes);
  }

  lemma SnmpMembershipMeans(infos: seq<SwitchInfo>, s: SwitchId, ports: seq<SwitchPort>, v: VlanId, st: SwitchState)
    requires !UsesSsh(s) && NumPorts(infos, s) != 0
    ensures var after := Exec(st, SetMembership(infos, s, ports, v));
            && after.members == st.members[v := NewMembers(infos, s, Members(st, v), ports)]
            && after.native == st.native
  {
    var numBytes, nums := (NumPorts(infos, s) + 7) / 8, Numbers(ports);
    SnmpWritesMean(EgressString(nums, numBytes, true), EgressString(nums, numBytes, false), v, st);
    EgressListMeans(nums, numBytes);
  }

  lemma SetMembershipMeans(infos: seq<SwitchInfo>, s: SwitchId, ports: seq<SwitchPort>, v: VlanId, st: SwitchState)
    ensures var after := Exec(st, SetMembership(infos, s, ports, v));
            && MembersSet(st, after, v, NewMembers(infos, s, Members(st, v), ports))
            && after.native == st.native
  {
    if NumPorts(infos, s) == 0 {
      assert SetMembership(infos, s, ports, v) == [];
    } else if UsesSsh(s) {
      SshMembershipMeans(infos, s, ports, v, st);
    } else {
      SnmpMembershipMeans(infos, s, ports, v, st);
    }
  }

  /** Port `n` has one of the listed switch ports that is not between switches, and is not the management port. */
  ghost predicate HasHost(infos: seq<SwitchInfo>, s: SwitchId, ports: seq<SwitchPort>, n: nat) {
    (exists p :: p in ports && p.port == n && !p.interSwitch) && !IsManagement(infos, s, n)
  }

  lemma {:induction false} HostPortsAre(infos: seq<SwitchInfo>, s: SwitchId, ports: seq<SwitchPort>, n: nat)
    ensures n in PortSet(Numbers(HostPorts(infos, s, ports))) <==> HasHost(infos, s, ports, n)
  {
    if ports != [] {
      var init, p := ports[..|ports| - 1], ports[|ports| - 1];
      HostPortsAre(infos, s, init, n);
      assert ports == init + [p];
      ManagementIs(infos, s, p.port);
      var rest := HostPorts(infos, s, init);
      hide IsManagement, ManagementPort;
      assert Numbers(rest + [p]) == Numbers(rest) + [p.port];
      assert PortSet(Numbers(rest) + [p.port]) == PortSet(Numbers(rest)) + {p.port};
    }
  }

  lemma NumbersHead(hosts: seq<SwitchPort>)
    requires hosts != []
    ensures PortSet(Numbers(hosts)) == {hosts[0].port} + PortSet(Numbers(hosts[1..]))
  {
    assert Numbers(hosts) == [hosts[0].port] + Numbers(hosts[1..]);
  }

  lemma {:induction false} PvidWrites(hosts: seq<SwitchPort>, v: VlanId, st: SwitchState)
    ensures var after := Exec(st, seq(|hosts|, i requires 0 <= i < |hosts| => Pvid(hosts[i].port, v)));
            after.members == st.members && NativeSet(st, after, PortSet(Numbers(hosts)), v)
    decreases |hosts|
  {
    var cmds := seq(|hosts|, i requires 0 <= i < |hosts| => Pvid(hosts[i].port, v));
    if hosts != [] {
      var rest := hosts[1..];
      var st1 := Exec1(st, cmds[0]);
      assert cmds[1..] == seq(|rest|, i requires 0 <= i < |rest| => Pvid(rest[i].port, v));
      PvidWrites(rest, v, st1);
      NumbersHead(hosts);
      hide Numbers, PortSet;
    }
  }

  lemma SetPvidsHosts(infos: seq<SwitchInfo>, s: SwitchId, ports: seq<SwitchPort>, v: VlanId, st: SwitchState)
    ensures var after := Exec(st, SetPvids(infos, s, ports, v));
            && after.members == st.members
            && forall n :: Native(after, n) == if HasHost(infos, s, ports, n) then v else Native(st, n)
  {
    var hosts := HostPorts(infos, s, ports);
    forall n ensures n in PortSet(Numbers(hosts)) <==> HasHost(infos, s, ports, n) {
      HostPortsAre(infos, s, ports, n);
    }
    hide HasHost;
    if !UsesSsh(s) {
      PvidWrites(hosts, v, st);
    } else if hosts != [] {
      Exec3(st, SelectPorts(Numbers(hosts)), Untagged(v), Exit);
    }
  }

  /** The untagged VLAN of a port changes, to `v`, if and only if one of the listed switch ports has its number and is not
      between switches, and it is not the switch's management port. */
  lemma SetPvidsMeans(infos: seq<SwitchInfo>, s: SwitchId, ports: seq<SwitchPort>, v: VlanId, st: SwitchState)
    ensures var after := Exec(st, SetPvids(infos, s, ports, v));
            && after.members == st.members
            && forall n :: Native(after, n) ==
                 if (exists p :: p in ports && p.port == n && !p.interSwitch) && !IsManagement(infos, s, n) then v
                 else Native(st, n)
  {
    SetPvidsHosts(infos, s, ports, v, st);
    hide Exec, SetPvids, IsManagement;
    forall n ensures HasHost(infos, s, ports, n) <==>
                     (exists p :: p in ports && p.port == n && !p.interSwitch) && !IsManagement(infos, s, n) {
    }
  }
}
