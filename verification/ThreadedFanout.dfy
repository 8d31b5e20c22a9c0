/** `create_vlans_threaded` and `clear_session_threaded` of nmd/nmd_types.cc: one detached thread a switch,
    and a busy-wait over their states. However the threads are scheduled, and whatever the switches answer,
    the outcome is that of sending the commands one switch at a time. */
module ThreadedFanout {
  import opened SwitchCommands
  import opened VlanTable
  import opened VlanClearing
  import opened VlanInvariant
  import opened VlanCompile
  import opened VlanFabric

  /** The commands for one switch; `send` is false when clearing found nothing to remove there. */
  datatype Job = Job(switchId: SwitchId, cmds: seq<Command>, send: bool)

  /** What a switch answers to commands, and the state they leave it in: any function whatever. */
  type Network = (SwitchId, seq<Command>, SwitchState) -> (bool, SwitchState)

  function Answer(net: Network, j: Job, st: SwitchState): (bool, SwitchState) {
    net(j.switchId, j.cmds, st)
  }

  /** Sending reports failure only for an ssh session; SNMP writes are not checked. */
  predicate Succeeds(net: Network, j: Job, st: SwitchState) {
    j.send && UsesSsh(j.switchId) ==> Answer(net, j, st).0
  }

  function Deliver(net: Network, j: Job, f: Fabric): Fabric {
    if j.send then f[j.switchId := Answer(net, j, At(f, j.switchId)).1] else f
  }

  // ------------------------------------------------------------- one switch at a time

  function OneByOne(net: Network, jobs: seq<Job>, f: Fabric): Fabric {
    if jobs == [] then f else Deliver(net, jobs[|jobs| - 1], OneByOne(net, jobs[..|jobs| - 1], f))
  }

  predicate OneByOneStatus(net: Network, jobs: seq<Job>, f: Fabric) {
    if jobs == [] then true
    else
      var init, j := jobs[..|jobs| - 1], jobs[|jobs| - 1];
      OneByOneStatus(net, init, f) && Succeeds(net, j, At(OneByOne(net, init, f), j.switchId))
  }

  // ------------------------------------------------------------- threads

  datatype CmdState = Sent | Failed | Fine

  /** The main thread has written the first |states| jobs, then scans the states; `rtn` is its result so far. */
  datatype Fan = Fan(fabric: Fabric, states: seq<CmdState>, scan: nat, rtn: bool, done: bool)

  datatype Event =
    | Build(threadFails: bool)   // write the next job and start its thread, or send it here if that fails
    | Complete(i: nat)           // the thread of job i gets its answer
    | Scan                       // the waiting loop looks at one state

  function Outcome(net: Network, j: Job, st: SwitchState): CmdState {
    if Succeeds(net, j, st) then Fine else Failed
  }

  /** SNMP commands take effect while they are written; ssh commands when their answer comes. */
  function Next(net: Network, jobs: seq<Job>, s: Fan, e: Event): Fan {
    match e
    case Build(threadFails) =>
      if |s.states| >= |jobs| then s
      else
        var j := jobs[|s.states|];
        var st := At(s.fabric, j.switchId);
        if !j.send then s.(states := s.states + [Fine])
        else if threadFails then s.(states := s.states + [Outcome(net, j, st)], fabric := Deliver(net, j, s.fabric))
        else if UsesSsh(j.switchId) then s.(states := s.states + [Sent])
        else s.(states := s.states + [Sent], fabric := Deliver(net, j, s.fabric))
    case Complete(i) =>
      if i >= |s.states| || |s.states| > |jobs| || s.states[i] != Sent then s
      else
        var j := jobs[i];
        if UsesSsh(j.switchId) then
          s.(states := s.states[i := Outcome(net, j, At(s.fabric, j.switchId))], fabric := Deliver(net, j, s.fabric))
        else s.(states := s.states[i := Fine])
    case Scan =>
      if |s.states| != |jobs| || s.done then s
      else if s.scan >= |jobs| then s.(done := true)
      else if s.states[s.scan] == Sent then s.(scan := 0)
      else s.(scan := s.scan + 1, rtn := s.rtn && s.states[s.scan] != Failed)
  }

  function RunFan(net: Network, jobs: seq<Job>, s: Fan, es: seq<Event>): Fan {
    if es == [] then s else Next(net, jobs, RunFan(net, jobs, s, es[..|es| - 1]), es[|es| - 1])
  }

  function Start(f: Fabric): Fan {
    Fan(f, [], 0, true, false)
  }

  predicate Distinct(jobs: seq<Job>) {
    forall i, j :: 0 <= i < j < |jobs| ==> jobs[i].switchId != jobs[j].switchId
  }

  // ------------------------------------------------------------- refinement

  /** The answer to job `i`, whenever it comes, is the answer of the untouched switch. */
  ghost predicate JobInv(net: Network, j: Job, f0: Fabric, f: Fabric, c: CmdState) {
    var st := At(f0, j.switchId);
    && (c != Sent ==> c == Outcome(net, j, st))
    && (c == Sent ==> j.send)
    && At(f, j.switchId) == if j.send && !(c == Sent && UsesSsh(j.switchId)) then Answer(net, j, st).1 else st
  }

  predicate Uses(jobs: seq<Job>, w: SwitchId) {
    exists i :: 0 <= i < |jobs| && jobs[i].switchId == w
  }

  ghost predicate AnswersInv(net: Network, jobs: seq<Job>, f0: Fabric, s: Fan) {
    && |s.states| <= |jobs|
    && (forall i :: 0 <= i < |s.states| ==> JobInv(net, jobs[i], f0, s.fabric, s.states[i]))
    && forall w :: !Uses(jobs[..|s.states|], w) ==> At(s.fabric, w) == At(f0, w)
  }

  /** What the waiting loop has seen: no job it has passed is outstanding, and its result is false
      exactly when it has passed a failed one. */
  ghost predicate ScanInv(jobs: seq<Job>, s: Fan) {
    && s.scan <= |s.states|
    && (forall i :: 0 <= i < s.scan ==> s.states[i] != Sent && (s.states[i] == Failed ==> !s.rtn))
    && (!s.rtn ==> Failed in s.states)
    && (s.done ==> s.scan == |jobs|)
  }

  lemma DeliverElsewhere(net: Network, j: Job, f: Fabric, w: SwitchId)
    requires w != j.switchId
    ensures At(Deliver(net, j, f), w) == At(f, w)
  {
  }

  /** The job that is written next, by whom it is sent. */
  lemma NewJobInv(net: Network, jobs: seq<Job>, f0: Fabric, s: Fan, threadFails: bool)
    requires |s.states| < |jobs|
    requires At(s.fabric, jobs[|s.states|].switchId) == At(f0, jobs[|s.states|].switchId)
    ensures var n, s' := |s.states|, Next(net, jobs, s, Build(threadFails));
            && |s'.states| == n + 1 && s'.states[..n] == s.states
            && JobInv(net, jobs[n], f0, s'.fabric, s'.states[n])
            && (s'.fabric == s.fabric || s'.fabric == Deliver(net, jobs[n], s.fabric))
  {
  }

  lemma BuildInv(net: Network, jobs: seq<Job>, f0: Fabric, s: Fan, threadFails: bool)
    requires Distinct(jobs) && AnswersInv(net, jobs, f0, s) && |s.states| < |jobs|
    ensures AnswersInv(net, jobs, f0, Next(net, jobs, s, Build(threadFails)))
  {
    var n := |s.states|;
    var s', j := Next(net, jobs, s, Build(threadFails)), jobs[n];
    assert !Uses(jobs[..n], j.switchId);
    hide Next, Deliver;
    NewJobInv(net, jobs, f0, s, threadFails);
    forall i | 0 <= i <= n
      ensures JobInv(net, jobs[i], f0, s'.fabric, s'.states[i])
    {
      if i < n {
        assert s'.states[i] == s'.states[..n][i];
        assert JobInv(net, jobs[i], f0, s.fabric, s.states[i]);
        DeliverElsewhere(net, j, s.fabric, jobs[i].switchId);
      }
    }
    forall w | !Uses(jobs[..n + 1], w)
      ensures At(s'.fabric, w) == At(f0, w)
    {
      assert jobs[..n + 1][n].switchId == j.switchId;
      assert forall i :: 0 <= i < n ==> jobs[..n + 1][i] == jobs[..n][i];
      assert !Uses(jobs[..n], w);
      DeliverElsewhere(net, j, s.fabric, w);
    }
  }

  lemma CompleteInv(net: Network, jobs: seq<Job>, f0: Fabric, s: Fan, k: nat)
    requires Distinct(jobs) && AnswersInv(net, jobs, f0, s)
    requires k < |s.states| && s.states[k] == Sent
    ensures AnswersInv(net, jobs, f0, Next(net, jobs, s, Complete(k)))
  {
    var s' := Next(net, jobs, s, Complete(k));
    assert JobInv(net, jobs[k], f0, s.fabric, s.states[k]);
    forall i | 0 <= i < |s'.states|
      ensures JobInv(net, jobs[i], f0, s'.fabric, s'.states[i])
    {
      assert JobInv(net, jobs[i], f0, s.fabric, s.states[i]);
    }
    forall w | !Uses(jobs[..|s.states|], w)
      ensures At(s'.fabric, w) == At(f0, w)
    {
      assert jobs[..|s.states|][k] == jobs[k];
    }
  }

  /** Writing and completing jobs changes nothing the waiting loop has seen. */
  lemma StatesGrow(jobs: seq<Job>, s: Fan, s': Fan)
    requires |s.states| <= |jobs| && ScanInv(jobs, s) && |s.states| <= |s'.states|
    requires s'.scan == s.scan && s'.rtn == s.rtn && s'.done == s.done
    requires forall i :: 0 <= i < |s.states| && s.states[i] != Sent ==> s'.states[i] == s.states[i]
    ensures ScanInv(jobs, s')
  {
    if Failed in s.states {
      var i :| 0 <= i < |s.states| && s.states[i] == Failed;
      assert s'.states[i] == Failed;
    }
  }

  lemma NextScanInv(net: Network, jobs: seq<Job>, s: Fan, e: Event)
    requires |s.states| <= |jobs| && ScanInv(jobs, s)
    ensures ScanInv(jobs, Next(net, jobs, s, e))
  {
    hide Deliver, Outcome;
    if !e.Scan? {
      hide ScanInv;
      StatesGrow(jobs, s, Next(net, jobs, s, e));
    }
  }

  lemma {:induction false} RunFanInv(net: Network, jobs: seq<Job>, f0: Fabric, es: seq<Event>)
    requires Distinct(jobs)
    ensures var s := RunFan(net, jobs, Start(f0), es);
            AnswersInv(net, jobs, f0, s) && ScanInv(jobs, s)
  {
    if es != [] {
      RunFanInv(net, jobs, f0, es[..|es| - 1]);
      var s, e := RunFan(net, jobs, Start(f0), es[..|es| - 1]), es[|es| - 1];
      NextScanInv(net, jobs, s, e);
      match e
      case Build(threadFails) => if |s.states| < |jobs| { BuildInv(net, jobs, f0, s, threadFails); }
      case Complete(k) => if k < |s.states| && s.states[k] == Sent { CompleteInv(net, jobs, f0, s, k); }
      case Scan =>
    }
  }

  lemma {:induction false} OneByOneElsewhere(net: Network, jobs: seq<Job>, f0: Fabric, w: SwitchId)
    requires forall i :: 0 <= i < |jobs| ==> jobs[i].switchId != w
    ensures At(OneByOne(net, jobs, f0), w) == At(f0, w)
  {
    if jobs != [] {
      OneByOneElsewhere(net, jobs[..|jobs| - 1], f0, w);
    }
  }

  /** Sending one by one, each switch is asked once, in the state it starts with. */
  lemma {:induction false} OneByOneAt(net: Network, jobs: seq<Job>, f0: Fabric, i: nat)
    requires Distinct(jobs) && i < |jobs|
    ensures At(OneByOne(net, jobs, f0), jobs[i].switchId) ==
            if jobs[i].send then Answer(net, jobs[i], At(f0, jobs[i].switchId)).1 else At(f0, jobs[i].switchId)
  {
    var init := jobs[..|jobs| - 1];
    if i < |init| {
      OneByOneAt(net, init, f0, i);
    } else {
      OneByOneElsewhere(net, init, f0, jobs[i].switchId);
    }
  }

  lemma {:induction false} OneByOneAllSucceed(net: Network, jobs: seq<Job>, f0: Fabric)
    requires Distinct(jobs)
    ensures OneByOneStatus(net, jobs, f0) <==>
            forall i :: 0 <= i < |jobs| ==> Succeeds(net, jobs[i], At(f0, jobs[i].switchId))
  {
    if jobs != [] {
      OneByOneAllSucceed(net, jobs[..|jobs| - 1], f0);
      OneByOneElsewhere(net, jobs[..|jobs| - 1], f0, jobs[|jobs| - 1].switchId);
    }
  }

  /** For every scheduling, every thread that cannot be started and every answer: when the waiting loop ends,
      each switch is in the state one-by-one sending leaves it in, and the result is the same. */
  lemma ThreadedIsOneByOne(net: Network, jobs: seq<Job>, f0: Fabric, es: seq<Event>)
    requires Distinct(jobs)
    requires RunFan(net, jobs, Start(f0), es).done
    ensures var s := RunFan(net, jobs, Start(f0), es);
            && (forall w :: At(s.fabric, w) == At(OneByOne(net, jobs, f0), w))
            && s.rtn == OneByOneStatus(net, jobs, f0)
  {
    RunFanInv(net, jobs, f0, es);
    OneByOneAllSucceed(net, jobs, f0);
    var s := RunFan(net, jobs, Start(f0), es);
    assert jobs[..|s.states|] == jobs;
    forall w
      ensures At(s.fabric, w) == At(OneByOne(net, jobs, f0), w)
    {
      if i :| 0 <= i < |jobs| && jobs[i].switchId == w {
        assert JobInv(net, jobs[i], f0, s.fabric, s.states[i]);
        OneByOneAt(net, jobs, f0, i);
      } else {
        OneByOneElsewhere(net, jobs, f0, w);
      }
    }
    forall i | 0 <= i < |jobs|
      ensures s.states[i] == Outcome(net, jobs[i], At(f0, jobs[i].switchId))
    {
      assert JobInv(net, jobs[i], f0, s.fabric, s.states[i]);
    }
  }

  /** A job whose thread could be started is waited for; one whose thread could not has been sent on the spot. */
  lemma WaitsForThreads(net: Network, jobs: seq<Job>, s: Fan, threadFails: bool)
    requires |s.states| < |jobs| && jobs[|s.states|].send
    ensures Sent == Next(net, jobs, s, Build(threadFails)).states[|s.states|] <==> !threadFails
  {
  }

  lemma LooksOn(net: Network, jobs: seq<Job>, s: Fan)
    requires |s.states| == |jobs| && (forall i :: 0 <= i < |jobs| ==> s.states[i] != Sent) && s.scan <= |jobs| && !s.done
    ensures var u := Next(net, jobs, s, Scan);
            u.states == s.states && if s.scan == |jobs| then u.done else u.scan == s.scan + 1
  {
  }

  lemma RunOne(net: Network, jobs: seq<Job>, f0: Fabric, es: seq<Event>, e: Event)
    ensures RunFan(net, jobs, Start(f0), es + [e]) == Next(net, jobs, RunFan(net, jobs, Start(f0), es), e)
  {
    hide Next;
    assert (es + [e])[..|es|] == es;
  }

  /** The waiting loop ends: once every job has its answer it takes at most one look at each, and one more. */
  lemma {:induction false} LoopEnds(net: Network, jobs: seq<Job>, f0: Fabric, es: seq<Event>, n: nat)
    requires var s := RunFan(net, jobs, Start(f0), es);
             && |s.states| == |jobs| && (forall i :: 0 <= i < |jobs| ==> s.states[i] != Sent)
             && s.scan + n == |jobs|
    ensures RunFan(net, jobs, Start(f0), es + seq(n + 1, _ => Scan)).done
    decreases n
  {
    var s := RunFan(net, jobs, Start(f0), es);
    RunOne(net, jobs, f0, es, Scan);
    hide RunFan;
    if s.done {
      hide Next;
      StaysDone(net, jobs, f0, es, n + 1);
    } else {
      LooksOn(net, jobs, s);
      hide Next;
      var next := es + [Scan];
      assert next + seq(n, _ => Scan) == es + seq(n + 1, _ => Scan);
      if n == 0 {
        assert next + seq(0, _ => Scan) == next;
      } else {
        LoopEnds(net, jobs, f0, next, n - 1);
      }
    }
  }

  lemma {:induction false} StaysDone(net: Network, jobs: seq<Job>, f0: Fabric, es: seq<Event>, n: nat)
    requires RunFan(net, jobs, Start(f0), es).done
    ensures RunFan(net, jobs, Start(f0), es + seq(n, _ => Scan)).done
  {
    if n == 0 {
      assert es + seq(n, _ => Scan) == es;
    } else {
      StaysDone(net, jobs, f0, es, n - 1);
      var all := es + seq(n, _ => Scan);
      assert all[..|all| - 1] == es + seq(n - 1, _ => Scan);
    }
  }

  /** In terms of the network alone: when the waiting loop ends, each switch that was to be sent commands has answered
      once, to its own commands and from the state it started in, and no other has changed; the result is whether all
      command-line switches answered well. */
  lemma FanoutMeans(net: Network, jobs: seq<Job>, f0: Fabric, es: seq<Event>)
    requires Distinct(jobs)
    requires RunFan(net, jobs, Start(f0), es).done
    ensures var s := RunFan(net, jobs, Start(f0), es);
            && (forall i :: 0 <= i < |jobs| ==>
                  var st := At(f0, jobs[i].switchId);
                  At(s.fabric, jobs[i].switchId) ==
                  if jobs[i].send then net(jobs[i].switchId, jobs[i].cmds, st).1 else st)
            && (forall w :: (forall i :: 0 <= i < |jobs| ==> jobs[i].switchId != w) ==> At(s.fabric, w) == At(f0, w))
            && (s.rtn <==>
                forall i :: 0 <= i < |jobs| && jobs[i].send && jobs[i].switchId in CLI_SWITCHES ==>
                  net(jobs[i].switchId, jobs[i].cmds, At(f0, jobs[i].switchId)).0)
  {
    ThreadedIsOneByOne(net, jobs, f0, es);
    OneByOneAllSucceed(net, jobs, f0);
    hide RunFan, OneByOneStatus, UsesSsh;
    forall i | 0 <= i < |jobs|
      ensures UsesSsh(jobs[i].switchId) <==> jobs[i].switchId in CLI_SWITCHES
      ensures At(OneByOne(net, jobs, f0), jobs[i].switchId) ==
              if jobs[i].send then Answer(net, jobs[i], At(f0, jobs[i].switchId)).1 else At(f0, jobs[i].switchId)
    {
      OneByOneAt(net, jobs, f0, i);
      CliSwitches(jobs[i].switchId);
    }
    forall w | forall i :: 0 <= i < |jobs| ==> jobs[i].switchId != w
      ensures At(OneByOne(net, jobs, f0), w) == At(f0, w)
    {
      OneByOneElsewhere(net, jobs, f0, w);
    }
  }

  // ------------------------------------------------------------- the two fan-outs of a session

  function CreateJob(infos: seq<SwitchInfo>, pool: Pool, vs: seq<VlanId>, s: SwitchId): Job {
    Job(s, CreateCommands(infos, pool, vs, s), true)
  }

  function CreateJobs(infos: seq<SwitchInfo>, pool: Pool, vs: seq<VlanId>, sws: seq<SwitchId>): (jobs: seq<Job>)
    ensures |jobs| == |sws| && forall i :: 0 <= i < |sws| ==> jobs[i] == CreateJob(infos, pool, vs, sws[i])
  {
    seq(|sws|, i requires 0 <= i < |sws| => CreateJob(infos, pool, vs, sws[i]))
  }

  /** How many ports clearing `vs` takes off switch `s`. */
  function NumRemoved(pool: Pool, vs: seq<VlanId>, s: SwitchId): nat {
    if vs == [] then 0
    else
      var init := vs[..|vs| - 1];
      NumRemoved(pool, init, s) + |PortsOn(PortsOf(ClearVlansOn(pool, init, s), vs[|vs| - 1]), s)|
  }

  function ClearJobs(infos: seq<SwitchInfo>, pool: Pool, vs: seq<VlanId>, sws: seq<SwitchId>): seq<Job> {
    seq(|sws|, i requires 0 <= i < |sws| =>
      var p := ClearSwitches(pool, vs, sws[..i]);
      Job(sws[i], ClearCommands(infos, p, vs, sws[i]), NumRemoved(p, vs, sws[i]) > 0))
  }

  lemma {:induction false} RemovesIff(pool: Pool, vs: seq<VlanId>, s: SwitchId)
    requires NoDup(vs)
    ensures NumRemoved(pool, vs, s) > 0 <==> exists v :: v in vs && PortsOn(PortsOf(pool, v), s) != []
  {
    if vs != [] {
      var init, v := vs[..|vs| - 1], vs[|vs| - 1];
      assert vs == init + [v] && v !in init;
      RemovesIff(pool, init, s);
      OthersKeepPorts(pool, init, s, v);
    }
  }

  /** A clear sends commands to exactly those of the session's switches on which one of the VLANs has a port, whatever
      the switches before were left with; a create sends to all of them. */
  lemma SendsIff(infos: seq<SwitchInfo>, pool: Pool, vs: seq<VlanId>, sws: seq<SwitchId>, i: nat)
    requires NoDup(vs) && NoDup(sws) && i < |sws|
    ensures CreateJobs(infos, pool, vs, sws)[i].send && CreateJobs(infos, pool, vs, sws)[i].switchId == sws[i]
    ensures var job := ClearJobs(infos, pool, vs, sws)[i];
            && job.switchId == sws[i]
            && (job.send <==> exists v, q :: v in vs && q in PortsOf(pool, v) && q.switchId == sws[i])
  {
    var s, p := sws[i], ClearSwitches(pool, vs, sws[..i]);
    RemovesIff(p, vs, s);
    forall v ensures PortsOn(PortsOf(p, v), s) == PortsOn(PortsOf(pool, v), s) {
      ClearSwitchesElsewhere(pool, vs, sws[..i], v, s);
    }
    hide NumRemoved, ClearCommands, CreateCommands, ClearSwitches;
    assert ClearJobs(infos, pool, vs, sws)[i].send <==> exists v :: v in vs && PortsOn(PortsOf(pool, v), s) != [];
    forall v, q | v in vs && q in PortsOf(pool, v) && q.switchId == s ensures PortsOn(PortsOf(pool, v), s) != [] {
      assert q in PortsOn(PortsOf(pool, v), s);
    }
    forall v | v in vs && PortsOn(PortsOf(pool, v), s) != []
      ensures exists q :: q in PortsOf(pool, v) && q.switchId == s
    {
      assert PortsOn(PortsOf(pool, v), s)[0] in PortsOn(PortsOf(pool, v), s);
    }
  }

  /** The network on which every command succeeds. */
  ghost function Obedient(): Network {
    (s: SwitchId, cmds: seq<Command>, st: SwitchState) => (true, Exec(st, cmds))
  }

  lemma {:induction false} CreateOneByOne(infos: seq<SwitchInfo>, f: Fabric, pool: Pool, vs: seq<VlanId>, sws: seq<SwitchId>)
    ensures OneByOne(Obedient(), CreateJobs(infos, pool, vs, sws), f) == CreateFabric(infos, f, pool, vs, sws)
  {
    if sws != [] {
      var init, w := sws[..|sws| - 1], sws[|sws| - 1];
      var jobs := CreateJobs(infos, pool, vs, sws);
      CreateOneByOne(infos, f, pool, vs, init);
      CreateJobsPrefix(infos, pool, vs, sws);
      hide CreateJobs, CreateCommands;
      assert jobs[..|jobs| - 1] == CreateJobs(infos, pool, vs, init) && jobs[|jobs| - 1] == CreateJob(infos, pool, vs, w);
    }
  }

  lemma CreateJobsPrefix(infos: seq<SwitchInfo>, pool: Pool, vs: seq<VlanId>, sws: seq<SwitchId>)
    requires sws != []
    ensures CreateJobs(infos, pool, vs, sws)[..|sws| - 1] == CreateJobs(infos, pool, vs, sws[..|sws| - 1])
  {
    hide CreateJobs, CreateJob;
  }

  lemma {:induction false} NothingRemoved(infos: seq<SwitchInfo>, pool: Pool, vs: seq<VlanId>, s: SwitchId)
    requires NumRemoved(pool, vs, s) == 0
    ensures ClearCommands(infos, pool, vs, s) == []
  {
    if vs != [] {
      NothingRemoved(infos, pool, vs[..|vs| - 1], s);
    }
  }

  lemma ClearJobsPrefix(infos: seq<SwitchInfo>, pool: Pool, vs: seq<VlanId>, sws: seq<SwitchId>, n: nat)
    requires n <= |sws|
    ensures ClearJobs(infos, pool, vs, sws)[..n] == ClearJobs(infos, pool, vs, sws[..n])
  {
    forall i | 0 <= i < n
      ensures ClearJobs(infos, pool, vs, sws)[i] == ClearJobs(infos, pool, vs, sws[..n])[i]
    {
      assert sws[..i] == sws[..n][..i];
    }
  }

  lemma {:induction false} ClearOneByOne(infos: seq<SwitchInfo>, f: Fabric, pool: Pool, vs: seq<VlanId>, sws: seq<SwitchId>, w: SwitchId)
    ensures At(OneByOne(Obedient(), ClearJobs(infos, pool, vs, sws), f), w) == At(ClearFabric(infos, f, pool, vs, sws), w)
  {
    if sws != [] {
      var n := |sws| - 1;
      var init, s := sws[..n], sws[n];
      ClearOneByOne(infos, f, pool, vs, init, w);
      ClearJobsPrefix(infos, pool, vs, sws, n);
      var p := ClearSwitches(pool, vs, init);
      if NumRemoved(p, vs, s) == 0 {
        NothingRemoved(infos, p, vs, s);
      }
    }
  }

  /** Starting and closing a session with threads, on switches that do as they are told, leaves every switch
      as the one-at-a-time versions do and reports success. */
  lemma SessionFanout(infos: seq<SwitchInfo>, f: Fabric, pool: Pool, sess: SessionRec, es: seq<Event>, w: SwitchId)
    requires ListsInv(pool, sess)
    ensures var vs, sws := sess.active, sess.switches;
            var s := RunFan(Obedient(), CreateJobs(infos, pool, vs, sws), Start(f), es);
            s.done ==> s.rtn && At(s.fabric, w) == At(CreateFabric(infos, f, pool, vs, sws), w)
    ensures var vs, sws := Held(sess), sess.switches;
            var s := RunFan(Obedient(), ClearJobs(infos, pool, vs, sws), Start(f), es);
            s.done ==> s.rtn && At(s.fabric, w) == At(ClearFabric(infos, f, pool, vs, sws), w)
  {
    var net, sws := Obedient(), sess.switches;
    var create, clear := CreateJobs(infos, pool, sess.active, sws), ClearJobs(infos, pool, Held(sess), sws);
    CreateOneByOne(infos, f, pool, sess.active, sws);
    ClearOneByOne(infos, f, pool, Held(sess), sws, w);
    OneByOneAllSucceed(net, create, f);
    OneByOneAllSucceed(net, clear, f);
    if RunFan(net, create, Start(f), es).done {
      ThreadedIsOneByOne(net, create, f, es);
    }
    if RunFan(net, clear, Start(f), es).done {
      ThreadedIsOneByOne(net, clear, f, es);
    }
  }
}
