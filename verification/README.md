# Verified model of the Open Network Laboratory daemons

This project models the daemons that run a network testbed and proves properties of the model. Sessions reserve
components and links; the central resource daemon (`crd/`) turns the links into VLANs; the network management daemon
(`nmd/`) keeps the VLAN table and configures the switches; base daemons on the nodes (`base/`, `vmbase/`,
`swrouter/`) do what they are told; and all of them talk over one protocol, NCCP (`shared/`).

`dafny verify dfyconfig.toml` checks all files. There is one module per file, named here by
the module; `Lists` has the list operations that several of them use.

- **VLAN table and switches** (`nmd/`). `VlanTable` is the table as a value with one step per request;
  `VlanClearing`, `VlanInvariant` and `VlanTheorems` prove what every run keeps. `SwitchCommands` has the switch
  commands as syntax with an interpreter over membership and untagged VLANs per switch, `PortList` the octet strings and
  port names in them, `VlanCompile` the compilation of a session into commands and its meaning, and `VlanFabric` the
  agreement of table and switches over whole runs. `ThreadedFanout` is the fan-out of commands to switches with threads,
  as a transition system. `NmdTypes` has the classes `Vlan`, `Session` and `VlanSet`, whose methods update their lists
  in place and are proved against `VlanTable`, `VlanCompile` and `ThreadedFanout`.
- **Session commit** (`crd/`). `CrdCommit` has the classes of components, links, session and session manager with the
  recursive walk that gives one VLAN to every connected set of virtual switches. `LinkBarrier` is the protocol of links
  coming up while the session may be closing, `DeleteGuard` the flag that guards the deletion of a VLAN, both as
  transition systems whose steps are the stretches between lock operations.
- **NCCP** (`shared/`, `base/`). `Wire` says what the bytes of every message mean: `PutX(x, tail)` is what writing `x`
  puts before `tail`, and each one promises that `GetX` gives back exactly `x` and `tail`; `WireLayout` says which
  bytes these are. `ByteBuffers` and `Streams` do the same in place on an array; `Reassembly` reads a message from a
  socket. `Relay` is the request relay of the base daemon, `Dispatching` the rendezvous table, and `DispatcherRuns`
  its guarantees over every interleaving of threads.
- **Time** (`shared/`). `Timespecs` has the time arithmetic and the loop that serves a periodic request.
- **Node daemons.** `RouterNics` is bandwidth admission on the software router. `VmHost`, `VmHostTheorems` and
  `VmHostEffects` are the bookkeeping of a VM host as values, what every run keeps and what each request does;
  `VmTypes` has its classes, proved against `VmHost`.

Where the source loops, assigns fields or writes into an array, the model has a class or a method that does the same,
proved against a function; the theorems are about that function. What lies outside, such as the answer of a switch,
the outcome of a script, the clock or the scheduler, is a parameter, and the theorems hold for all its values.

Findings, each with its exact condition in the table below:

- Taking a VLAN's ports away on a switch driven over its command line selects the interfaces 1 to N, so a port with a
  number above the switch's port count stays a member (`VlanFabric.LeavesNothingIffRemovable`).
- Two rendezvous registrations get the same number exactly when they are 2^32 apart
  (`DispatcherRuns.SameKeyIff`).
- A period of more than a million microseconds beside its seconds makes deadlines that are not normalised
  (`Timespecs.DeadlinesStayNormalIff`).
- Reconfiguring a router port loses the bandwidth it had (`RouterNics.RateIsAccountedFor`), and a bandwidth of
  4294968 Mbit/s or more is admitted as less (`RouterNics.RequestedAsIsIff`).

## Model

| member | source | states |
|---|---|---|
| VlanTheorems.EveryIdFreeOrOwned | nmd/nmd_types.cc:274-288 | over every run from the constructor, each id 2..n+1 is exactly one of: once in the free list, blank and on no session's lists; or in use and on the lists of exactly one session, once, the one its record names |
| VlanTheorems.CloseIsolates | nmd/nmd_types.cc:374-402 | ending a session, or deleting its last active VLAN, blanks and frees every VLAN it held, active or removed earlier, ports or none, and changes no other VLAN and no other session |
| VlanTheorems.HeldUntilClosed | nmd/nmd_types.cc:802-818 | under any one request a VLAN in use stays its session's, unless the request closes that session |
| VlanTheorems.HeldIsAllGiven | nmd/nmd_types.cc:802-818 | over every run, what a session holds is exactly what it was given since it was last closed, so closing it frees everything it was ever given |
| VlanTheorems.AddGivesToAsker | nmd/nmd_types.cc:497-521 | an allocation gives the first free id to the asking session, as its next active VLAN, in use and without ports, and changes no other record or session; with none free nothing changes |
| VlanTheorems.AddToReachesOnlyHeld | nmd/nmd_types.cc:429-464 | a port is added exactly when the asking session holds the VLAN, to that VLAN alone, and its switch joins the session's; otherwise nothing changes |
| VlanTheorems.DeleteSetsAside | nmd/nmd_types.cc:802-818 | deleting a VLAN that is not the last active one moves it to the removed list; it stays held, ports and record untouched |
| VlanTheorems.HeldIsRecorded | nmd/nmd_types.cc:429-464 | a session's lists hold a VLAN if and only if the VLAN's record is in use and names that session |
| VlanTheorems.StepConserves | nmd/nmd_types.cc:317-321 | one request: ids handed out followed by the new free list is the old free list followed by the ids put back |
| VlanTheorems.RunConserves | nmd/nmd_types.cc:497-521 | over a whole run no id is lost, made up or reordered: all ids given, then those free now, are those free at first, then all returned, in order |
| VlanTheorems.FirstFreedFirstReused | nmd/nmd_types.cc:497-504 | first-in-first-out reuse: an id behind k free ones is not handed out before those k are, in their order |
| VlanInvariant.InitInv | nmd/nmd_types.cc:274-288 | the constructor's table meets the invariant that ties free list, records and session lists together |
| VlanInvariant.StepInv | nmd/nmd_types.cc:341-464 | every request keeps that invariant, from any state that meets it |
| VlanInvariant.RunInv | nmd/nmd_types.cc:341-464 | so does every run of requests |
| VlanClearing.ClearPoolMeans | nmd/nmd_types.cc:878-975 | the nested loops of a clear leave each of the session's VLANs blank, append exactly those to the free list, each once, and touch no other record |
| VlanClearing.MergeIsHeld | nmd/nmd_types.cc:886-891 | merging the active list into the removed one gives all VLANs the session held, none twice |
| SwitchCommands.SetMembershipMeans | nmd/nmd_switch.cc:182-195 | for each switch family, running the built commands sets the VLAN's member ports to the ones the family's method leaves and changes no other VLAN and no untagged VLAN |
| SwitchCommands.SetPvidsMeans | nmd/nmd_switch.cc:197-225 | running the commands gives a port the VLAN as its untagged one if and only if one of the listed ports has its number and is not between switches, and it is not the management port in the switch's first entry; every other port keeps its own, and no membership changes |
| SwitchCommands.EntryIs | nmd/nmd_switch.cc:197-202 | port count and management port of a switch are those of the first entry with its id |
| SwitchCommands.CliSwitches | nmd/nmd_switch.cc:182-195 | which switches are configured over ssh, by name |
| SwitchCommands.EgressListMeans | nmd/nmd_switch.cc:508-557 | what an SNMP switch reads from the written octet string is exactly the listed ports the string has room for |
| PortList.EncodeEgressPorts | nmd/nmd_switch.cc:701-732 | the in-place bit setting builds the string that `EgressString` describes, for any port list, length and complement flag |
| PortList.EgressListed | nmd/nmd_switch.cc:694-732 | the string, read as a PortList of section 5 of RFC 4363, lists a port if and only if it is in the list (or, complemented, is not) |
| PortList.MaskIs | nmd/nmd_switch.cc:701-732 | the bit of a port in its octet, the lowest port in the most significant bit |
| PortList.HexOctetHalves | nmd/nmd_switch.cc:694-699 | the first hexadecimal digit is the high half of the octet |
| PortList.EgressRoundTrip | nmd/nmd_switch.cc:694-732 | decoding gives back exactly the ports in 1..8 numBytes, and the complement string lists exactly the others |
| PortList.GetArista64Port | nmd/nmd_switch.cc:735-761 | the naming loop ends, with the printed name of the port in closed form |
| PortList.NameRoundTrip | nmd/nmd_switch.cc:735-761 | the name has an explicit inverse |
| PortList.PrintedNamesDiffer | nmd/nmd_switch.cc:735-761 | two ports have the same printed name if and only if they are the same port |
| VlanCompile.AddPortsMeans | nmd/nmd_types.cc:98-126 | a VLAN's create commands make its listed ports its members, and it the untagged VLAN of exactly the ports listed as neither between switches nor passing tags, the management port excepted |
| VlanCompile.ClearVlanMeans | nmd/nmd_types.cc:207-244 | a VLAN's clear commands take off its members on the switch and give exactly the ports listed as not between switches, the management port excepted, the default VLAN back |
| VlanCompile.CreateMeans | nmd/nmd_types.cc:680-713 | the whole command list of a create, interpreted, is per VLAN what the port lists say, later VLANs winning untagged ports |
| VlanCompile.ClearMeans | nmd/nmd_types.cc:878-975 | the whole command list of a clear, interpreted, empties the listed VLANs and resets exactly their managed ports |
| VlanFabric.CreateMatchesTable | nmd/nmd_types.cc:635-713 | compiling a session preserves meaning, whatever the other ports in the table: on every switch each active VLAN has as members exactly the listed ports that the commands reach (known switch; over SNMP, a port the bitmap has room for), nothing else changes, and the native VLAN of a port is the last active VLAN that lists it as neither between switches nor passing tags, or else, and on the management port, what it was |
| VlanFabric.ListedPortJoinsIff | nmd/nmd_switch.cc:508-557 | a port listed on an active VLAN becomes a member if and only if its switch has an entry with ports and, unless it is one of the ten command-line switches, the bitmap of that many ports has room for it |
| VlanFabric.StartedStaysInStep | nmd/nmd_types.cc:341-464 | over runs: from a session's start until it adds a port or closes, the members of its active VLANs stay exactly the table's reachable ports on every switch, whatever other sessions do |
| VlanFabric.ClearingLeavesNothing | nmd/nmd_types.cc:827-975 | clearing leaves none of the session's VLANs on any switch, leaves every other VLAN's members alone, and gives the default VLAN back to exactly the ports they list as not between switches, the management port excepted |
| VlanFabric.CloseAgrees | nmd/nmd_types.cc:374-402 | closing a session keeps switches and table in agreement |
| VlanFabric.StepAgrees | nmd/nmd_types.cc:341-464 | every request keeps switches and table in agreement |
| VlanFabric.RunAgrees | nmd/nmd_types.cc:341-464 | so does every run |
| VlanFabric.NothingLeaks | nmd/nmd_main.cc:40 | in every state of a run that adds only removable ports: a free id has no member port anywhere, every member port is listed in its VLAN's entry, every native VLAN but 255 is in use and lists the port, and with at most 253 VLANs 255 is never allocated; the next row shows the condition to be exact |
| VlanFabric.LeavesNothingIffRemovable | nmd/nmd_switch.cc:270-299 | that condition is exact: a one-port session leaves nothing behind if and only if its port is at most the switch's port count, or the switch is SNMP, or has no ports |
| VlanFabric.ClearedMembers | nmd/nmd_switch.cc:270-299 | members left after removing ports 1..N are none if and only if every listed port is removable |
| ThreadedFanout.ThreadedIsOneByOne | nmd/nmd_types.cc:680-793 | for every schedule, thread failure and answer: when the waiting loop of a fan-out ends, every switch is as one-at-a-time sending leaves it, and the status is the same |
| ThreadedFanout.FanoutMeans | nmd/nmd_types.cc:680-793 | under every schedule, in terms of the switches' answers alone: when the waiting loop ends each switch that was to be sent commands has answered once, to its own commands and from the state it started in, no other has changed, and the result is whether all command-line switches answered well |
| ThreadedFanout.LoopEnds | nmd/nmd_types.cc:745-793 | once every job has its answer the waiting loop ends, after one look at each at most and one more |
| ThreadedFanout.SendsIff | nmd/nmd_types.cc:878-975 | a clear sends commands to exactly those of the session's switches on which one of its VLANs lists a port; a create to all |
| ThreadedFanout.SessionFanout | nmd/nmd_types.cc:878-975 | so the threaded create and clear of a session, on obedient switches, end with success and leave every switch as the unthreaded ones do |
| NmdTypes.Vlan.SetInUse | nmd/nmd_types.cc:46-55 | fails exactly when an in-use VLAN is claimed again, and otherwise sets flag and owner only |
| NmdTypes.Vlan.AddPort | nmd/nmd_types.cc:87-95 | appends the port to this record only |
| NmdTypes.Vlan.GetSwitchPorts | nmd/nmd_types.cc:58-74 | the ports on one switch, in order |
| NmdTypes.Vlan.GetAddPortsCmd | nmd/nmd_types.cc:98-126 | appends exactly the commands whose meaning `VlanCompile.AddPortsMeans` proves |
| NmdTypes.Vlan.GetClearVlanCmd | nmd/nmd_types.cc:207-244 | appends the commands of `VlanCompile.ClearVlanMeans`, takes the switch's ports off the record in place, and frees nothing else |
| NmdTypes.Vlan.ClearIfEmpty | nmd/nmd_types.cc:246-259 | blanks the record and returns its id exactly when it has no ports and is in use |
| NmdTypes.Session.AddSwitch | nmd/nmd_types.cc:615-627 | each switch once in the list, and none once cleared |
| NmdTypes.Session.CreateVlans | nmd/nmd_types.cc:680-713 | builds one job per switch of the session, of the meaning of `VlanFabric.CreateMatchesTable` |
| NmdTypes.Session.RemoveVlan | nmd/nmd_types.cc:802-818 | moves the VLAN to the removed list; when it was the last active one, clears the session's records and returns exactly the jobs of the clear, else none |
| NmdTypes.Session.ClearSession | nmd/nmd_types.cc:878-975 | the loops over switches and VLANs compute the table step and the jobs of the specification, once per session |
| NmdTypes.Session.FreeEmpties | nmd/nmd_types.cc:970-973 | frees the emptied VLANs, each once |
| NmdTypes.VlanSet.constructor | nmd/nmd_types.cc:274-288 | all ids free in order, no session; the invariant holds |
| NmdTypes.VlanSet.GetVlan | nmd/nmd_types.cc:306-315 | the record of an id in range, none otherwise |
| NmdTypes.VlanSet.AllocVlan | nmd/nmd_types.cc:497-521 | the table step of an allocation: first free id, marked and listed for the session, made if new |
| NmdTypes.VlanSet.AddVlan | nmd/nmd_types.cc:341-350 | refines the table step, keeps the invariant, and fails exactly when no id is free, answering with 2^32 - 1 |
| NmdTypes.VlanSet.AddToVlan | nmd/nmd_types.cc:429-464 | refines the table step, keeps the invariant, and succeeds exactly when the session holds the VLAN |
| NmdTypes.VlanSet.CreateSessionVlans | nmd/nmd_types.cc:419-427 | builds the session's create jobs and changes nothing |
| NmdTypes.VlanSet.EndSession | nmd/nmd_types.cc:389-402 | refines the table step of ending a session and keeps the invariant |
| NmdTypes.VlanSet.DeleteVlan | nmd/nmd_types.cc:374-387 | refines the table step of a delete, closing included, keeps the invariant, and returns the jobs of the clear exactly when it closes the session |
| CrdCommit.Session.SetVlans | crd/onlcrd_session.cc:515-548 | the walk ends (unmarked virtual switches decrease), gives its VLAN to every virtual switch and link it marks, all connected to the start, marks both ends of every such link, and leaves no marked switch with an unmarked link |
| CrdCommit.Session.AllocateSet | crd/onlcrd_session.cc:419-432 | one VLAN for the connected set of an unmarked virtual switch; when the request for it fails no component or link changes |
| CrdCommit.Session.AllocateSets | crd/onlcrd_session.cc:413-432 | after the first loop every marked virtual switch is connected to exactly one allocating one |
| CrdCommit.Session.AllocateLinks | crd/onlcrd_session.cc:434-446 | every link no walk reached gets a VLAN of its own |
| CrdCommit.Session.Commit | crd/onlcrd_session.cc:413-446 | the VLAN part of commit establishes all that the lemmas below need, and with every request answered reaches every switch and link |
| CrdCommit.Session.SameVlanIffConnected | crd/onlcrd_session.cc:514-548 | two virtual switches have one VLAN if and only if links connect them |
| CrdCommit.Session.LinkHasSwitchVlan | crd/onlcrd_session.cc:514-548 | a link at a virtual switch has the switch's VLAN |
| CrdCommit.Session.SameLinkVlanIff | crd/onlcrd_session.cc:413-446 | two links carry the same VLAN if and only if both touch the same connected set of virtual switches |
| CrdCommit.Session.EveryLinkHasVlan | crd/onlcrd_component.cc:1530-1549 | with every request answered no link is left without one of the issued VLANs |
| CrdCommit.Session.OneOwner | crd/onlcrd_component.cc:1611-1643 | each VLAN allocated has exactly one owner: the switch at its walk's root, or one link |
| CrdCommit.Session.AllocateLink | crd/onlcrd_component.cc:1531-1549 | a link that must allocate its VLAN gets one nobody else has |
| CrdCommit.SessionManager.AddVlan | crd/onlcrd_session_manager.cc:598-641 | the id the daemon answers with, never issued before, or the null VLAN when it allocates none; in testing mode the next number of a counter; a new VLAN is entered with no ports and not deleted |
| LinkBarrier.StartedOnceAnsweredOnce | crd/onlcrd_session.cc:463-487 | under every interleaving of finishing links and a closing session: VLANs are started at most once, only after every link added its ports, each link initialised at most once and only after two components, each request answered at most once and never after deletion; and when all have reported the VLANs have been started |
| LinkBarrier.StepInv | crd/onlcrd_component.cc:1406-1528 | every step of every thread keeps the invariant behind it |
| LinkBarrier.InitInv | crd/onlcrd_session.cc:398-404 | a committed session, its list of unreported links complete, starts in it |
| LinkBarrier.ReportBarrier | crd/onlcrd_session.cc:463-487 | a report keeps the barrier: once all links have reported, somebody starts the VLANs |
| LinkBarrier.OnlyLastReportStarts | crd/onlcrd_session.cc:463-487 | a link that reports is told to start the VLANs if and only if every other link has reported |
| LinkBarrier.SweepStepInv | crd/onlcrd_component.cc:1500-1528 | each stage of completing the links one after the other keeps the invariant: what the sweep has passed is answered, nothing else is, and when it is over no request is open |
| LinkBarrier.AllAnsweredAfterSweep | crd/onlcrd_component.cc:1500-1528 | over every interleaving: once the VLANs have been started and their starter has gone through all links, every request has been answered exactly once |
| LinkBarrier.EveryLinkSettles | crd/onlcrd_component.cc:1500-1528 | over every interleaving, whatever adding the ports and starting the VLANs came to: a link is answered that it is up if and only if its ports were fine and, unless it completed on its own because the session was closed, the start was; then, once settled, it is active, or refreshing if closed, and failed otherwise; when its thread or the sweep is done it is settled, and not active if the session was closed |
| LinkBarrier.DecidesByClosing | crd/onlcrd_component.cc:1445-1496 | over every interleaving, a link whose ports have been added completes on its own if the session has been closed by then, and reports otherwise |
| LinkBarrier.StepFate | crd/onlcrd_component.cc:1406-1528 | every step of every thread keeps what ties state and status of each link to its history |
| DeleteGuard.OneDeleteAtATime | crd/onlcrd_session_manager.cc:747-787 | for any interleaving of callers at most one delete of a VLAN is outstanding, and none once one has been answered |
| DeleteGuard.NoneSentAfterAnswer | crd/onlcrd_session_manager.cc:747-787 | over runs: once a delete has been answered, whatever the answer, no caller sends another |
| DeleteGuard.ReturnsWhatItHeard | crd/onlcrd_session_manager.cc:747-787 | over runs: a call returns true if and only if it sent no delete or its own was done |
| DeleteGuard.SendsIffClear | crd/onlcrd_session_manager.cc:747-760 | a call sends a delete exactly when it finds the flag clear, outside testing, and leaves it set |
| DeleteGuard.FlagMeans | crd/onlcrd_session_manager.cc:747-787 | the flag is set if and only if a delete is open or has been answered |
| Wire.PutU16 | shared/byte_buffer.cc:87-94 | big-endian; reading it back gives the value and leaves what follows |
| Wire.PutU32 | shared/byte_buffer.cc:97-104 | the same for four bytes |
| Wire.PutBool | shared/byte_buffer.cc:107-118 | two bytes wide; round trip as above |
| Wire.PutStr | shared/onl_types.cc:138-163 | length and characters; round trip for every string of at most 255 bytes and every tail |
| Wire.PutExperimentInfo | shared/onl_types.cc:199-215 | round trip, whatever follows |
| Wire.PutComponent | shared/onl_types.cc:263-291 | round trip, whatever follows |
| Wire.PutExperiment | shared/onl_types.cc:408-424 | round trip, whatever follows |
| Wire.PutParam | shared/onl_types.cc:512-554 | round trip of every kind of tagged parameter, whatever follows |
| Wire.PutParams | shared/onl_types.cc:556-607 | round trip of whole parameter lists, whatever follows |
| Wire.PutNextHop | shared/onl_types.cc:781-801 | round trip, whatever follows |
| Wire.PutNodeInfo | shared/onl_types.cc:697-729 | round trip, whatever follows |
| Wire.PutPortRef | shared/switch_types.cc:115-133 | round trip, whatever follows |
| Wire.PutSwitchRef | shared/switch_types.cc:198-214 | round trip, whatever follows |
| Wire.PutRendezvous | shared/rendezvous.cc:112-142 | round trip of the 28 bytes, whatever follows |
| Wire.PutHeader | shared/message.cc:99-122 | round trip of the 34-byte message header |
| Wire.PutRequest | shared/message.cc:232-253 | round trip with the period on the wire exactly when the periodic flag is set; 42 or 34 bytes |
| Wire.PutResponse | shared/message.cc:286-311 | round trip with the return rendezvous on the wire exactly when the flag is set |
| Wire.PutPeriodic | shared/message.cc:326-348 | round trip of stop and acknowledge messages |
| Wire.PutCrdRequest | shared/onl_requests.cc:104-121 | round trip, whatever follows |
| Wire.PutStartExperiment | shared/onl_requests.cc:139-162 | round trip with its parameter list |
| Wire.PutRefresh | shared/onl_requests.cc:208-223 | round trip with its parameter list |
| Wire.PutConfigureNode | shared/onl_requests.cc:245-260 | round trip |
| Wire.PutSwitchRequest | shared/switch_requests.cc:68-82 | round trip |
| Wire.PutDeleteVlan | shared/switch_requests.cc:181-195 | round trip |
| Wire.PutAddToVlan | shared/switch_requests.cc:212-230 | round trip |
| Wire.PutInitialize | shared/switch_requests.cc:285-307 | round trip with its list of switches |
| Wire.PutCrdResponse | shared/onl_responses.cc:72-90 | round trip |
| Wire.PutEndConfigResponse | shared/onl_responses.cc:147-159 | round trip |
| Wire.PutRliResponse | shared/onl_responses.cc:217-239 | round trip |
| Wire.PeekAgrees | shared/dispatcher.cc:83-87 | whatever the bytes, the type and operation a message is dispatched on are those its header parses to |
| Wire.HeaderSkips | shared/message.cc:101-110 | parsing a header consumes exactly 34 bytes, whatever they are |
| Wire.RequestSkips | shared/message.cc:234-242 | parsing a request consumes exactly its header and, if flagged, its period; the rest is the tail untouched |
| WireLayout.U32Layout | shared/byte_buffer.cc:97-104 | a number is four bytes, the most significant first |
| WireLayout.StrLayout | shared/onl_types.cc:138-148 | a string is its length in four bytes, and its characters |
| WireLayout.BoolLayout | shared/byte_buffer.cc:107-118 | a flag is the two bytes 0 1 or 0 0 |
| WireLayout.HeaderLayout | shared/message.cc:113-122 | which bytes of a message hold type, version, operation, each part of the rendezvous, and the periodic flag |
| WireLayout.RequestLayout | shared/message.cc:245-253 | the period follows the header, seconds first, and only if the request is periodic |
| WireLayout.ResponseLayout | shared/message.cc:301-311 | the return rendezvous comes between header and end-of-message flag, and only if the response is periodic |
| WireLayout.PeriodicLayout | shared/message.cc:339-348 | both rendezvous, the request's first |
| WireLayout.ComponentLayout | shared/onl_types.cc:263-276 | the fields of a component in order, its router flag in one byte |
| WireLayout.ParamLayout | shared/onl_types.cc:512-530 | each kind of parameter with its type number |
| WireLayout.ParamsInOrder | shared/onl_types.cc:556-567 | the parameters of a list follow each other in order |
| WireLayout.NodeInfoLayout | shared/onl_types.cc:697-712 | the fields of a node's configuration in order |
| WireLayout.NextHopLayout | shared/onl_types.cc:781-790 | the fields of a next hop in order |
| WireLayout.AddToVlanLayout | shared/switch_requests.cc:222-230 | session, VLAN and port, in that order, after the request header |
| WireLayout.CrdResponseLayout | shared/onl_responses.cc:83-90 | status, experiment and component, in that order, after the response header |
| WireLayout.RliResponseLayout | shared/onl_responses.cc:230-239 | status, time stamp, clock rate, value and message, in that order, after the response header |
| WireLayout.StrRead | shared/onl_types.cc:150-163 | from any bytes: a length above 255 counts as 255, and the rest is what follows so many characters |
| WireLayout.BoolRead | shared/byte_buffer.cc:162-169 | from any bytes: whatever is not zero is true |
| WireLayout.UnknownTypeRead | shared/onl_types.cc:532-554 | from any bytes: a parameter of no known type is read as unknown, and nothing more of it |
| ByteBuffers.ByteBuffer.constructor | shared/byte_buffer.cc:40-47 | an empty buffer of 2048 bytes |
| ByteBuffers.ByteBuffer.Resize | shared/byte_buffer.cc:191-202 | empties the buffer, grows it if need be, never shrinks it |
| ByteBuffers.ByteBuffer.Reset | shared/byte_buffer.h:55 | back to the front; what is stored can be read again |
| ByteBuffers.ByteBuffer.PutU8 | shared/byte_buffer.cc:78-84 | writes in place at the index; whatever is written next follows it |
| ByteBuffers.ByteBuffer.PutU16 | shared/byte_buffer.cc:87-94 | refines `Wire.PutU16` in place |
| ByteBuffers.ByteBuffer.PutU32 | shared/byte_buffer.cc:97-104 | refines `Wire.PutU32` in place |
| ByteBuffers.ByteBuffer.PutBool | shared/byte_buffer.cc:107-118 | refines `Wire.PutBool` in place |
| ByteBuffers.ByteBuffer.PutStr | shared/onl_types.cc:139-148 | the loop over the characters refines `Wire.PutStr` |
| ByteBuffers.ByteBuffer.GetU8 | shared/byte_buffer.cc:136-141 | reads what `Wire.GetU8` reads and leaves its rest |
| ByteBuffers.ByteBuffer.GetU16 | shared/byte_buffer.cc:144-150 | reads what `Wire.GetU16` reads and leaves its rest |
| ByteBuffers.ByteBuffer.GetU32 | shared/byte_buffer.cc:153-159 | reads what `Wire.GetU32` reads and leaves its rest |
| ByteBuffers.ByteBuffer.GetBool | shared/byte_buffer.cc:162-169 | any nonzero word is true |
| ByteBuffers.ByteBuffer.GetStr | shared/onl_types.cc:151-163 | the loop refines `Wire.GetStr`, the cap at 255 included |
| ByteBuffers.Receive | shared/message.cc:55-70 | a message's buffer holds exactly the bytes that came in, at the front, and has room to write as many back |
| Streams.PutRendezvous | shared/rendezvous.cc:115-127 | nine writes in place refine `Wire.PutRendezvous` |
| Streams.GetRendezvous | shared/rendezvous.cc:130-142 | nine reads refine `Wire.GetRendezvous` |
| Streams.PutHeader | shared/message.cc:113-122 | `message::write` in place refines `Wire.PutHeader` |
| Streams.GetHeader | shared/message.cc:101-110 | `message::parse` refines `Wire.GetHeader` |
| Streams.PutRequest | shared/message.cc:245-253 | `request::write` in place refines `Wire.PutRequest` |
| Streams.GetRequest | shared/message.cc:234-242 | `request::parse` refines `Wire.GetRequest` |
| Streams.PutResponse | shared/message.cc:301-311 | `response::write` in place refines `Wire.PutResponse` |
| Streams.GetResponse | shared/message.cc:288-298 | `response::parse` refines `Wire.GetResponse` |
| Streams.PutParam | shared/onl_types.cc:513-567 | writing by tag refines `Wire.PutParam` |
| Streams.GetParam | shared/onl_types.cc:533-567 | reading by tag, unknown tags included, refines `Wire.GetParam` |
| Streams.PutParams | shared/onl_types.cc:557-567 | the loop over the list refines `Wire.PutParams` |
| Streams.GetParams | shared/onl_types.cc:570-581 | the loop that pushes what it reads refines `Wire.GetParams` |
| Streams.PutCrdResponse | shared/onl_responses.cc:83-90 | refines `Wire.PutCrdResponse` in place |
| Streams.GetCrdResponse | shared/onl_responses.cc:73-80 | refines `Wire.GetCrdResponse` |
| Streams.PutRliResponse | shared/onl_responses.cc:230-239 | refines `Wire.PutRliResponse` in place |
| Streams.GetRliResponse | shared/onl_responses.cc:218-227 | refines `Wire.GetRliResponse` |
| Reassembly.GetMessage | shared/nccp_connection.cc:331-360 | however the socket cuts the stream, the message is its first bytes, or the connection is closed exactly when a read fails first or the length is 0 |
| Relay.RelayRequest.Parse | base/onlbased_requests.cc:568-581 | splits what came in into header fields and body, nothing lost |
| Relay.RelayRequest.Write | base/onlbased_requests.cc:584-594 | writes header and body back into the message's own buffer, which has room for them |
| Relay.RelayRequest.SendAndWait | base/onlbased_requests.cc:519-533 | the specialised daemon reads the requester's type, version and operation under a rendezvous of the operation and the new number, not periodic, and the requester's body; afterwards the request is as before, its own rendezvous, flag and connection restored |
| Relay.RelayRequest.HandleRli | base/onlbased_requests.cc:510-565 | one handling of an RLI request, in every case: the last packet goes to the requester and reads as a response (type 2) to its operation and version, under its rendezvous, periodic as it was, with the return rendezvous if so; status 3 if the daemon is missing or silent, and otherwise the daemon's own fields and trailing bytes; and when a periodic request stops |
| Relay.RelayRequest.HandleCrd | base/onlbased_requests.cc:615-672 | the same for a CRD request, which without a specialised daemon is acknowledged with status 1 |
| Relay.RelayRequest.AnswerCrd | base/onlbased_requests.cc:656-671 | the daemon's status, experiment, component and trailing bytes reach the requester under its own rendezvous, and end a periodic request unless the status is 1 |
| Relay.SendRli | base/onlbased_responses.cc:48-79 | the requester reads a response in its own terms followed by the daemon's trailing bytes |
| Relay.SendCrd | base/onlbased_responses.cc:81-110 | the same for a CRD response |
| Relay.ForwardedByteForByte | base/onlbased_requests.cc:567-594 | the body of the rewritten request is the received one byte for byte, and the rewritten request is never longer than the received: 8 bytes shorter when periodic, equal otherwise |
| Relay.ServeRli | shared/nccp_connection.cc:398-460 | from arrival on: in every round of a periodic request the daemon gets the same body under the round's number, and the requester an answer to its operation under its original rendezvous and with its return rendezvous, until exactly the first round that ends it |
| Dispatching.KeysClashIff | shared/dispatcher.cc:116-152 | two registrations get the same key if and only if of one operation and a multiple of 2^32 apart |
| Dispatching.Dispatcher.RegisterRendezvous | shared/dispatcher.cc:117-133 | draws the operation's next number, wrapping at 2^32, and enters the request under it |
| Dispatching.Dispatcher.RegisterPeriodicRendezvous | shared/dispatcher.cc:136-153 | the same for the return rendezvous, and clears the stop and acknowledge flags |
| Dispatching.Dispatcher.CallRendezvous | shared/dispatcher.cc:156-168 | a response goes to the request entered under its key and to no other, or is unclaimed exactly when there is none |
| Dispatching.Dispatcher.CallPeriodic | shared/dispatcher.cc:171-183 | a stop or acknowledgement reaches exactly the request entered under its key |
| Dispatching.Dispatcher.ClearRendezvous | shared/dispatcher.cc:186-196 | removes exactly the request's own key and resets it |
| Dispatching.Dispatcher.ClearPeriodicRendezvous | shared/dispatcher.cc:199-209 | the same for the return rendezvous |
| Dispatching.SendAndWait | shared/message.cc:211-231 | the caller gets the first response under a key of its own, and the table ends without the new key and otherwise exactly as it was, the request's own periodic entry included |
| DispatcherRuns.OutstandingKeysDistinct | shared/dispatcher.cc:116-153 | over every interleaving with fewer than 2^32 registrations per operation, outstanding keys, outgoing and periodic together, are pairwise distinct and never (0,0) |
| DispatcherRuns.LookupFindsRegistrant | shared/dispatcher.cc:155-185 | a response to any registration ever made, however late, finds that registrant and only while the registration stands |
| DispatcherRuns.FoundWereIssued | shared/dispatcher.cc:155-185 | nothing is found under a key that was never issued |
| DispatcherRuns.NextKeyIsFree | shared/dispatcher.cc:116-133 | over every interleaving: while an operation has a nonzero number left, the key it draws next is not in the table and nobody holds it, so that sending and waiting leaves the table as it was |
| DispatcherRuns.ClearRemovesOnlyItsOwn | shared/dispatcher.cc:187-209 | clearing one registration, nested in a periodic one or not, leaves every other one to be found |
| DispatcherRuns.SameKeyIff | shared/dispatcher.cc:121-124 | the bound is exact: in any run, however long, two registrations have one key if and only if of one operation and a multiple of 2^32 apart |
| DispatcherRuns.StepKeeps | shared/dispatcher.cc:116-209 | every critical section keeps the invariant that ties numbers, holders and table |
| Timespecs.TimespecAdd | shared/util.cc:184-193 | exact for all inputs, normalised for normalised ones |
| Timespecs.TimespecDiff | shared/util.cc:196-236 | exact for all inputs and signs; for normalised ones normalised, and true exactly when t1 >= t2 |
| Timespecs.OneNormalForm | shared/util.cc:183-236 | normalised times are equal if and only if their nanoseconds are |
| Timespecs.DiffUndoesAdd | shared/util.cc:183-236 | adding with the one routine and taking away with the other gives back the same fields, and the answer is true exactly when that time is not negative |
| Timespecs.DeadlinesStayNormalIff | shared/message.cc:256-260 | deadlines stay normalised if and only if the period has at most a million microseconds |
| Timespecs.HandlePeriodic | shared/nccp_connection.cc:402-449 | in nanoseconds, the n-th deadline is exactly the start plus n times the period's seconds and microseconds, however long handlers take, and the loop sleeps exactly until it, or not at all when late |
| RouterNics.Router.constructor | swrouter/swrd_router.cc:116-130 | every interface has the full rate of the router's kind, no port is configured |
| RouterNics.Router.ConfigurePort | swrouter/swrd_router.cc:228-309 | refused exactly when the interface has less left than asked; otherwise the new tables, scripts failing or not |
| RouterNics.Router.SetPortRate | swrouter/swrd_router.cc:763-853 | each refusal exactly on its condition, and nothing but the one rate changed |
| RouterNics.RateIsAccountedFor | swrouter/swrd_router.cc:244-266 | over any run, what is left of an interface plus its ports' maxima plus the shares lost by reconfiguration is exactly its rate; so it is never oversubscribed |
| RouterNics.RateWithinMax | swrouter/swrd_router.cc:779-783 | over any run a port's rate is at most its maximum |
| RouterNics.StepAccounts | swrouter/swrd_router.cc:244-266 | one request moves rate between what is left, what is used and what is lost, and creates none |
| RouterNics.RequestedAsIsIff | swrouter/swrd_requests.cc:71-73 | the 32-bit conversion of a bandwidth is exact if and only if it is below 4294968 Mbit/s, and never asks for more |
| VmHostTheorems.NamesInUseAreLive | vmbase/onlvmbased_session_manager.cc:216-267 | over any run with any script failures, the names in use are exactly those of live machines, of all sessions, and are distinct |
| VmHostTheorems.RecordsListLiveInterfaces | vmbase/onlvmbased_session.cc:113-226 | after any run each session's VLAN records have distinct ids, are not empty, and list only interfaces on that VLAN of machines the session has |
| VmHostTheorems.RemovedSessionsWereClean | vmbase/onlvmbased_session_manager.cc:234-258 | a session that goes has no VLAN record left |
| VmHostTheorems.StartGivesMachine | vmbase/onlvmbased_session.cc:79-99 | after a start the component has a machine if and only if it had one or a name was free, and nobody else's changes |
| VmHostTheorems.RefreshTakesMachine | vmbase/onlvmbased_session_manager.cc:234-258 | a refresh takes away exactly the component's machine, unless its script fails, and nobody else's |
| VmHostTheorems.EndConfigureLists | vmbase/onlvmbased_session_manager.cc:147-162 | ending a configuration puts exactly the machine's interfaces on record besides those there |
| VmHostEffects.ConfigureMeans | vmbase/onlvmbased_session.cc:163-183 | if the component has a machine without an interface on the port, that machine's interfaces become the old ones followed by one of that component, port and VLAN; every other machine, record, session and name stays what it was, and so does this machine if the port is taken |
| VmHostEffects.ConfigureNobody | vmbase/onlvmbased_session.cc:163-183 | without such a machine a configuration changes nothing |
| VmHostEffects.ConfigureThenEnd | vmbase/onlvmbased_session_manager.cc:147-162 | an interface configured and then ended is on the record of the VLAN asked for, and on no other |
| VmHostEffects.EndsOne | vmbase/onlvmbased_session_manager.cc:147-162 | ending a configuration changes the records of one session and nothing else |
| VmHostEffects.StartAdds | vmbase/onlvmbased_session.cc:79-99 | a start gives a component without machine one with the lowest free name and no interface, in the experiment's session, made if there is none, and changes nothing else |
| VmHostEffects.StartAddsNothing | vmbase/onlvmbased_session.cc:79-99 | with a machine, or without a free name, a start makes an empty session at most |
| VmHostEffects.RefreshMeans | vmbase/onlvmbased_session_manager.cc:234-258 | a refresh takes exactly the machine's interfaces off the records; if the script does not fail the machine goes, its name is free, and the session goes with its last machine; nothing else changes |
| VmHostEffects.RefreshNobody | vmbase/onlvmbased_session_manager.cc:234-258 | without such a machine a refresh changes nothing, except that a session without any machine goes |
| VmHostTheorems.StepKeeps | vmbase/onlvmbased_requests.cc:63-250 | every request keeps the invariant behind these, from any state that meets it |
| VmHostTheorems.LeaveAllKeeps | vmbase/onlvmbased_session.cc:122-138 | taking a machine's interfaces off unlists exactly those, and drops exactly the records left empty |
| VmHostTheorems.JoinAllKeeps | vmbase/onlvmbased_session_manager.cc:147-162 | starting a machine lists exactly its interfaces besides those listed |
| VmHostTheorems.RemoveVmKeeps | vmbase/onlvmbased_session.cc:111-160 | a removal keeps the invariant whether or not its script fails |
| VmTypes.Session.GetVM | vmbase/onlvmbased_session.cc:186-197 | the first machine of the component, or none |
| VmTypes.Session.GetVLan | vmbase/onlvmbased_session.cc:214-226 | finds the record of the VLAN or appends an empty one |
| VmTypes.Session.ConfigureVM | vmbase/onlvmbased_session.cc:163-183 | adds one interface per port, in place, as `VmHostEffects.ConfigureMeans` says; fails exactly when the machine is missing |
| VmTypes.Session.ListInterfaces | vmbase/onlvmbased_session_manager.cc:147-162 | the loop computes `JoinAll`, whose meaning is proved above |
| VmTypes.Session.UnlistInterfaces | vmbase/onlvmbased_session.cc:122-138 | the loop computes `LeaveAll`, whose meaning is proved above |
| VmTypes.SessionManager.AssignVM | vmbase/onlvmbased_session_manager.cc:216-231 | the first free name, and failure exactly when there is none |
| VmTypes.SessionManager.AddSession | vmbase/onlvmbased_session_manager.cc:113-124 | finds the session or appends a new one |
| VmTypes.SessionManager.AddVM | vmbase/onlvmbased_session.cc:79-99 | refines the step; fails exactly when no name is left for a new component |
| VmTypes.SessionManager.RemoveVM | vmbase/onlvmbased_session.cc:111-160 | refines the step in place; fails exactly when the script of an existing machine does |
| VmTypes.SessionManager.StartVM | vmbase/onlvmbased_session_manager.cc:127-206 | records the interfaces whether or not the machine starts |
| VmTypes.SessionManager.StartExperiment | vmbase/onlvmbased_requests.cc:63-102 | refines the step and keeps the invariant |
| VmTypes.SessionManager.ConfigureNode | vmbase/onlvmbased_requests.cc:183-211 | refines the step of `VmHostEffects.ConfigureMeans`, and keeps the invariant |
| VmTypes.SessionManager.EndConfigure | vmbase/onlvmbased_requests.cc:222-250 | refines the step and keeps the invariant |
| VmTypes.SessionManager.DeleteVM | vmbase/onlvmbased_session_manager.cc:234-258 | refines the step and keeps the invariant; the session goes with its last machine |

## Left out

Weaker than the source, or under a condition:

- VlanFabric.NothingLeaks: for ports the switches let the daemon remove again; `VlanFabric.LeavesNothingIffRemovable` shows that condition to be exact.
- VlanFabric.RunAgrees: all switch commands succeed and do what they say. In `ThreadedFanout` a switch may answer with any state and either status.
- VlanTheorems.EveryIdFreeOrOwned: requests are handled one after the other; two handlers inside one another can clear a VLAN of another session, since `get_clear_vlan_cmd` and `clear_if_empty` do not look at the owner.
- NmdTypes.VlanSet.AddToVlan: for ids in range; the code dereferences a null record for others.
- NmdTypes.Session.CreateVlans: builds the commands per switch; their sending by threads and the waiting loop are in `ThreadedFanout`, on values.
- PortList.EncodeEgressPorts: for port numbers from 1 to 2^31; for port 0 the code shifts by -1, and larger ones do not fit its `int`.
- CrdCommit.Session.SameLinkVlanIff: for links that got a VLAN; `EveryLinkHasVlan` shows that all do when every request is answered and the daemon is not in testing mode. Virtual-switch names are unique, as the walk compares names.
- LinkBarrier.StartedOnceAnsweredOnce: link ids are distinct because the topology refuses a second link with the same label (database/src/topology.cc:300-307).
- ByteBuffers.ByteBuffer.PutU8: for a buffer with room; the code does not check, nor does reading check that the bytes are there, which `Short` stands for.
- Relay.RelayRequest.HandleRli: for replies that fit the 2048 bytes of the response that carries them.
- Dispatching.SendAndWait: a response that arrives after the time limit, and the lifetime of the request it would be handed to, are not modelled; the table is.
- Timespecs.HandlePeriodic: seconds are unbounded, and an interrupted sleep, which is resumed for what is left, is one sleep.
- RouterNics.Router.ConfigurePort: for port and interface indices in range, which the code does not check; addresses and filter marks are not modelled.
- RouterNics.Router.SetPortRate: not for index 32, which the test `port > max_port` lets through although there are only ports 0 to 31.
- VmTypes.SessionManager.EndConfigure: for a session and machine that exist; the code dereferences null pointers otherwise, and in `VmHost.Step` such a request does nothing.
- VmHost.Step: an interface is identified by component, port and VLAN, not by pointer; a machine's record is a value in the session's list.

Not modelled:

- `vlan_set::initialize_vlans` with live sessions: it clears the records without refilling the free list.
- `delete_from_vlan`, `delete_port` and `clear_vlan` of `nmd/`, which no request reaches any more.
- `switch_ssh_lock` and its limit of ten connections; the text the switches print; the status of SNMP writes of untagged VLANs, which the code ignores.
- The thread that refreshes a link (`do_refresh`), of which `LinkBarrier` has the start only.
- Refresh, repair and reboot of components in `crd/`; the reservation scheduler and the database behind it.
- `observe_data`, whose writer and reader disagree, clusters, and messages that are only parsed.
- The in-place form of the other compound codecs (`node_info`, next hops, switch types, and the requests made of them): `Wire` has them as functions; each is a plain sequence of the operators that `Streams` has in place.
- Copying a `byte_buffer`, and the order operators on rendezvous and switch types.
- The value of a `double` parameter, which travels as the string kept here.
- Filters, queues, delays and statistics of the router; statistics and user data of the base daemons.
- `session::clear` of a VM host with machines still present, which drops one list element too many; the VPN base daemon, which adds nothing new.
- A refresh without an experiment id, with which the central daemon reboots a VM host.
- Sockets, threads, scripts, SSH, SNMP, netlink, files and logs, other than by their outcomes.
