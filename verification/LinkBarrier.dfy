/** The links of a session coming up while it may be closing: `both_comps_done`, `initialize`, `do_initialize`,
    `complete_initialization` and `refresh` of crd/onlcrd_component.cc, and the barrier `link_vlanports_added`
    of crd/onlcrd_session.cc, as a transition system whose steps are the stretches between lock operations. */
module LinkBarrier {
  import opened Lists

  datatype LinkState = New | Initializing | Active | Failed | Refreshing

  /** `complete_initialization` answers the request, then settles the state, then may have to refresh. */
  datatype Stage = Answer | Settle | Refresh

  /** Where the thread that brings a link up is. */
  datatype Pc =
    | Idle                                  // both_comps_done() has not returned true
    | InitCalled                            // it has; initialize() is being called
    | Cleaning                              // no thread could be started: cleanup_reqs()
    | AddingPorts                           // do_initialize() adds the ports
    | Deciding                              // ... and looks at needs_refresh
    | Direct(stage: Stage)                  // session closed: the link completes on its own
    | Reporting                             // about to enter link_vlanports_added()
    | Starting                              // this link is the last: start_session_vlans()
    | Sweep(next: nat, ok: bool, stage: Stage)   // ... then complete every link in turn
    | Quit                                  // over, without having reported
    | Ended                                 // over, after reporting

  /** `linkreq` is true while the request of the link has been neither answered nor deleted. From `portsAdded` on the
      fields are history: whether the ports have been added and whether that went well, whether the session has asked the
      link to refresh, how often it was initialised and answered, and the status the answer carried. */
  datatype Link = Link(id: nat, state: LinkState, needsRefresh: bool, linkreq: bool, compsDone: nat, pc: Pc,
                       vlanFine: bool,
                       portsAdded: bool, portsFine: bool, closed: bool, inits: nat, answers: nat, status: bool)

  /** `starts`, `startFine`: how often the VLANs were started, and whether that went well. `useAfterDelete`: a response
      was built from a request already deleted. */
  datatype Session = Session(links: seq<Link>, unreported: seq<nat>, vlansCreated: bool,
                             starts: nat, startFine: bool, useAfterDelete: bool)

  datatype Event =
    | CompDone(j: nat)                             // a component of link j is done with it
    | Initialize(j: nat, threadStarted: bool)
    | Cleanup(j: nat)
    | AddPorts(j: nat, fine: bool)
    | Decide(j: nat)
    | Report(j: nat)
    | StartVlans(j: nat, ok: bool)
    | Advance(j: nat)                              // one stage of complete_initialization
    | Close(j: nat)                                // the session, closing, refreshes link j

  function SetLink(s: Session, j: nat, l: Link): Session
    requires j < |s.links|
  {
    s.(links := s.links[j := l])
  }

  function SetPc(s: Session, j: nat, pc: Pc): Session
    requires j < |s.links|
  {
    SetLink(s, j, s.links[j].(pc := pc))
  }

  // ------------------------------------------------------------- the stretches of complete_initialization

  /** The request is answered and deleted; the link remembers the status it sent. */
  function Answered(l: Link, ok: bool): Link {
    l.(linkreq := false, answers := l.answers + 1, status := ok && l.vlanFine, vlanFine := ok && l.vlanFine)
  }

  function Settled(l: Link): Link {
    l.(state := if l.vlanFine then Active else Failed)
  }

  /** `refresh`: while the link is initializing, only a note that it must be done later. */
  function Refreshed(l: Link): Link {
    l.(needsRefresh := l.needsRefresh || l.state.Initializing?,
       state := if l.state.Initializing? || l.state.Failed? then l.state else Refreshing)
  }

  function StageLink(l: Link, stage: Stage, ok: bool): Link {
    match stage
    case Answer => Answered(l, ok)
    case Settle => Settled(l)
    case Refresh => Refreshed(l)
  }

  function RunStage(s: Session, k: nat, stage: Stage, ok: bool): Session
    requires k < |s.links|
  {
    if stage == Answer && !s.links[k].linkreq then s.(useAfterDelete := true)
    else SetLink(s, k, StageLink(s.links[k], stage, ok))
  }

  /** The stage after `stage`, if there is one. */
  function NextStage(l: Link, stage: Stage): (next: seq<Stage>) {
    match stage
    case Answer => [Settle]
    case Settle => if l.needsRefresh then [Refresh] else []
    case Refresh => []
  }

  /** The pc of a sweep after a stage. */
  function NextPc(pc: Pc, next: seq<Stage>): Pc
    requires pc.Sweep?
  {
    if next == [] then Sweep(pc.next + 1, pc.ok, Answer) else Sweep(pc.next, pc.ok, next[0])
  }

  /** The sweep on its way from one stage to the next. */
  lemma HalfWayMoves(l: Link, m: Link, pc: Pc, next: seq<Stage>, x: nat)
    requires pc.Sweep? && HalfWay(l, pc, x)
    requires x != pc.next ==> m == l
    requires x == pc.next ==>
               && (m.state.Initializing? <==> pc.stage == Answer)
               && (next == [] ==> Completed(m)) && (next == [Refresh] ==> m.closed)
               && next == NextStage(l, pc.stage)
    requires |next| <= 1 && (next != [] ==> next[0] == if pc.stage == Answer then Settle else Refresh)
    requires next == [] ==> pc.stage != Answer
    ensures HalfWay(m, NextPc(pc, next), x)
  {
  }

  lemma SweepEndFate(s: Session, b: nat)
    requires Inv(s) && Fates(s) && b < |s.links| && s.links[b].pc.Sweep? && s.links[b].pc.next >= |s.links|
    ensures Fates(SetPc(s, b, Ended))
  {
    var t := SetPc(s, b, Ended);
    SweepMeansStarted(s, b);
    hide Inv, Fate;
    forall x | 0 <= x < |t.links| ensures Fate(t.links[x], t.startFine) && SweepFate(t, x) {
      assert Fate(s.links[x], s.startFine) && SweepFate(s, x) && HalfWay(s.links[x], s.links[b].pc, x);
      ReportedFate(s.links[x], Ended, s.startFine);
    }
  }

  function AdvanceLink(s: Session, j: nat): Session
    requires j < |s.links|
  {
    match s.links[j].pc
    case Direct(stage) =>
      var next := NextStage(s.links[j], stage);
      SetPc(RunStage(s, j, stage, true), j, if next == [] then Quit else Direct(next[0]))
    case Sweep(k, ok, stage) =>
      if k >= |s.links| then SetPc(s, j, Ended)
      else
        SetPc(RunStage(s, k, stage, ok), j, NextPc(s.links[j].pc, NextStage(s.links[k], stage)))
    case _ => s
  }

  // ------------------------------------------------------------- steps

  function ReportLink(s: Session, j: nat): Session
    requires j < |s.links|
  {
    var s1 := s.(unreported := Without(s.unreported, s.links[j].id));
    if s1.unreported == [] && !s.vlansCreated then SetPc(s1.(vlansCreated := true), j, Starting)
    else SetPc(s1, j, Ended)
  }

  /** `both_comps_done`. */
  function CompDoneWith(l: Link): Link {
    l.(compsDone := l.compsDone + 1, pc := if l.compsDone + 1 == 2 then InitCalled else l.pc)
  }

  /** `initialize`. */
  function Initialized(l: Link, threadStarted: bool): Link {
    if l.state != New then l.(pc := Quit)
    else l.(state := Initializing, inits := l.inits + 1, pc := if threadStarted then AddingPorts else Cleaning)
  }

  /** `cleanup_reqs`. */
  function CleanedUp(l: Link): Link {
    var failed := l.(state := Failed, pc := Quit);
    if l.linkreq then failed.(linkreq := false, answers := l.answers + 1, status := false) else failed
  }

  /** `do_initialize` up to the check of `needs_refresh`. */
  function PortsAdded(l: Link, fine: bool): Link {
    l.(pc := Deciding, portsAdded := true, portsFine := fine, vlanFine := fine)
  }

  function Decided(l: Link): Link {
    l.(pc := if l.needsRefresh then Direct(Answer) else Reporting)
  }

  function Closed(l: Link): Link {
    Refreshed(l).(closed := true)
  }

  /** The steps that concern one link only. */
  function LinkStep(l: Link, e: Event): Link {
    match e
    case CompDone(_) => CompDoneWith(l)
    case Initialize(_, threadStarted) => if l.pc.InitCalled? then Initialized(l, threadStarted) else l
    case Cleanup(_) => if l.pc.Cleaning? then CleanedUp(l) else l
    case AddPorts(_, fine) => if l.pc.AddingPorts? then PortsAdded(l, fine) else l
    case Decide(_) => if l.pc.Deciding? then Decided(l) else l
    case Close(_) => Closed(l)
    case _ => l
  }

  function Step(s: Session, e: Event): Session {
    if e.j >= |s.links| then s
    else
      var l := s.links[e.j];
      match e
      case Report(j) => if l.pc.Reporting? then ReportLink(s, j) else s
      case StartVlans(j, ok) =>
        if l.pc.Starting? then SetPc(s.(starts := s.starts + 1, startFine := ok), j, Sweep(0, ok, Answer)) else s
      case Advance(j) => AdvanceLink(s, j)
      case _ => SetLink(s, e.j, LinkStep(l, e))
  }

  function Run(s: Session, es: seq<Event>): Session {
    if es == [] then s else Step(Run(s, es[..|es| - 1]), es[|es| - 1])
  }

  /** The link requests commit() keeps: `topology::add_link` turns down a label already used. */
  function Accepted(requests: seq<nat>): (ids: seq<nat>)
    ensures forall i, j :: 0 <= i < j < |ids| ==> ids[i] != ids[j]
  {
    if requests == [] then []
    else
      var ids, id := Accepted(requests[..|requests| - 1]), requests[|requests| - 1];
      if id in ids then ids else ids + [id]
  }

  /** The session as commit() leaves it: every link new, with its request, and not yet reported. */
  function InitSession(ids: seq<nat>): Session {
    Session(seq(|ids|, i requires 0 <= i < |ids| =>
              Link(ids[i], New, false, true, 0, Idle, false, false, false, false, 0, 0, false)),
            ids, false, 0, false, false)
  }

  // ------------------------------------------------------------- invariant

  predicate HasReported(pc: Pc) {
    pc.Starting? || pc.Sweep? || pc.Ended?
  }

  /** Link `k` has been answered by the thread whose program counter is `pc`, which completes it. */
  predicate Passed(pc: Pc, k: nat) {
    pc.Sweep? && (k < pc.next || (k == pc.next && pc.stage != Answer))
  }

  /** Before the session's VLANs are started a link is answered only by its own threads. */
  predicate OwnAnswer(l: Link) {
    (l.pc.Quit? && l.inits == 1) || (l.pc.Direct? && l.pc.stage != Answer)
  }

  predicate LinkInv(l: Link) {
    && l.answers == (if l.linkreq then 0 else 1)
    && (l.compsDone < 2 <==> l.pc.Idle?)
    && l.inits <= 1
    && (l.inits == 0 <==> l.pc.Idle? || l.pc.InitCalled? || (l.pc.Quit? && l.linkreq))
    && (l.inits == 0 ==> l.linkreq)
    && (l.pc.Deciding? || l.pc.Direct? || l.pc.Reporting? || HasReported(l.pc) ==> l.portsAdded)
  }

  predicate Sweeps(pc: Pc) {
    pc.Starting? || pc.Sweep?
  }

  /** What link `k` looks like in session `s`, given the links that have reported. */
  ghost predicate PlaceInv(s: Session, k: nat)
    requires k < |s.links|
  {
    var l := s.links[k];
    && LinkInv(l)
    && (l.id in s.unreported <==> !HasReported(l.pc))
    && (s.vlansCreated ==> HasReported(l.pc))
    && (!s.vlansCreated ==> !Sweeps(l.pc) && (l.linkreq <==> !OwnAnswer(l)))
    && (l.pc.Starting? ==> s.starts == 0)
  }

  /** The thread of link `b` completes all links; what it has passed is answered, nothing else is. */
  ghost predicate SweepInv(s: Session, b: nat)
    requires b < |s.links|
  {
    Sweeps(s.links[b].pc) ==>
      forall k :: 0 <= k < |s.links| ==>
        && (k != b ==> !Sweeps(s.links[k].pc))
        && (s.links[k].linkreq <==> !Passed(s.links[b].pc, k))
  }

  ghost predicate Inv(s: Session) {
    && (forall i, j :: 0 <= i < j < |s.links| ==> s.links[i].id != s.links[j].id)
    && (forall k :: 0 <= k < |s.links| ==> PlaceInv(s, k) && SweepInv(s, k))
    && s.starts <= (if s.vlansCreated then 1 else 0)
    && !s.useAfterDelete
    && BarrierInv(s) && SweptInv(s)
  }

  predicate NobodySweeps(s: Session) {
    forall k :: 0 <= k < |s.links| ==> !Sweeps(s.links[k].pc)
  }

  /** Once the sweep is over no request is open. */
  predicate SweptInv(s: Session) {
    s.starts == 1 && NobodySweeps(s) ==> forall k :: 0 <= k < |s.links| ==> !s.links[k].linkreq
  }

  predicate AllReported(s: Session) {
    forall k :: 0 <= k < |s.links| ==> HasReported(s.links[k].pc)
  }

  predicate IsStarting(s: Session, k: nat) {
    k < |s.links| && s.links[k].pc.Starting?
  }

  /** The barrier does open: once all links have reported the flag is set, and its setter starts the VLANs. */
  ghost predicate BarrierInv(s: Session) {
    && (s.links != [] && AllReported(s) ==> s.vlansCreated)
    && (s.vlansCreated ==> s.starts == 1 || exists k :: IsStarting(s, k))
    && (forall id :: id in s.unreported ==> exists k :: 0 <= k < |s.links| && s.links[k].id == id)
  }

  lemma InitInv(ids: seq<nat>)
    requires forall i, j :: 0 <= i < j < |ids| ==> ids[i] != ids[j]
    ensures Inv(InitSession(ids))
  {
    var s := InitSession(ids);
    assert s.links != [] ==> !HasReported(s.links[0].pc);
    forall id | id in s.unreported
      ensures exists k :: 0 <= k < |s.links| && s.links[k].id == id
    {
      var k :| 0 <= k < |ids| && ids[k] == id;
      assert s.links[k].id == id;
    }
  }

  /** The barrier is unmoved by a step that neither lets a link report nor ends the starting. */
  lemma BarrierKept(s: Session, t: Session)
    requires BarrierInv(s) && |t.links| == |s.links| && t.unreported == s.unreported
    requires t.vlansCreated == s.vlansCreated && t.starts == s.starts
    requires forall k :: 0 <= k < |s.links| ==>
               && t.links[k].id == s.links[k].id && HasReported(t.links[k].pc) == HasReported(s.links[k].pc)
               && t.links[k].pc.Starting? == s.links[k].pc.Starting?
    ensures BarrierInv(t)
  {
    if s.vlansCreated && s.starts != 1 {
      var k :| IsStarting(s, k);
      assert IsStarting(t, k);
    }
    if s.links != [] && !AllReported(s) {
      var k :| 0 <= k < |s.links| && !HasReported(s.links[k].pc);
      assert !HasReported(t.links[k].pc);
    }
    forall id | id in t.unreported
      ensures exists k :: 0 <= k < |t.links| && t.links[k].id == id
    {
      var k :| 0 <= k < |s.links| && s.links[k].id == id;
      assert t.links[k].id == id;
    }
  }

  /** A step that changes one link, no flag, and nothing another link's sweep looks at. */
  lemma OneLinkInv(s: Session, j: nat, l: Link)
    requires Inv(s) && j < |s.links| && l.id == s.links[j].id
    requires PlaceInv(SetLink(s, j, l), j)
    requires s.vlansCreated ==> l.linkreq == s.links[j].linkreq && l.pc == s.links[j].pc
    requires HasReported(l.pc) == HasReported(s.links[j].pc)
    ensures Inv(SetLink(s, j, l))
  {
    var t := SetLink(s, j, l);
    forall k | 0 <= k < |t.links|
      ensures PlaceInv(t, k) && SweepInv(t, k)
    {
      assert PlaceInv(s, k) && SweepInv(s, k);
    }
    assert PlaceInv(s, j);
    BarrierKept(s, t);
    if t.starts == 1 && NobodySweeps(t) {
      assert s.vlansCreated && forall k :: 0 <= k < |s.links| ==> s.links[k].pc == t.links[k].pc;
      assert NobodySweeps(s);
    }
  }

  /** A thread that has reported, or is about to, may move on. */
  lemma PcMoves(l: Link, pc: Pc)
    requires LinkInv(l) && (HasReported(l.pc) || l.pc.Reporting?) && HasReported(pc)
    ensures LinkInv(l.(pc := pc))
  {
  }

  lemma NobodySweepsYet(s: Session, j: nat)
    requires Inv(s) && j < |s.links| && s.links[j].pc == Reporting
    ensures !s.vlansCreated && NobodySweeps(s)
    ensures forall k :: 0 <= k < |s.links| && HasReported(s.links[k].pc) ==> s.links[k].linkreq
    ensures s.links[j].linkreq
  {
    assert PlaceInv(s, j);
    forall k | 0 <= k < |s.links|
      ensures !Sweeps(s.links[k].pc) && (HasReported(s.links[k].pc) ==> s.links[k].linkreq)
    {
      assert PlaceInv(s, k);
    }
  }

  lemma ReportShape(s: Session, j: nat)
    requires j < |s.links|
    ensures var t := ReportLink(s, j);
            && |t.links| == |s.links| && t.links == s.links[j := s.links[j].(pc := t.links[j].pc)]
            && t.starts == s.starts && t.useAfterDelete == s.useAfterDelete
            && ((t.links[j].pc == Starting && t.vlansCreated) || t.links[j].pc == Ended)
  {
  }

  lemma ReportPlace(s: Session, j: nat, k: nat)
    requires Inv(s) && j < |s.links| && s.links[j].pc == Reporting && k < |s.links|
    ensures PlaceInv(ReportLink(s, j), k)
  {
    hide LinkInv, OwnAnswer;
    var t := ReportLink(s, j);
    NobodySweepsYet(s, j);
    ReportShape(s, j);
    if k == j {
      ReporterPlace(s, j);
    } else {
      assert PlaceInv(s, k) && s.links[k].id != s.links[j].id;
      assert t.unreported == Without(s.unreported, s.links[j].id) && (t.vlansCreated ==> t.unreported == []);
      hide ReportLink, Inv;
    }
  }

  lemma ReporterPlace(s: Session, j: nat)
    requires Inv(s) && j < |s.links| && s.links[j].pc == Reporting
    ensures PlaceInv(ReportLink(s, j), j)
  {
    var t := ReportLink(s, j);
    NobodySweepsYet(s, j);
    assert s.starts == 0 && LinkInv(s.links[j]) by {
      assert PlaceInv(s, j);
    }
    hide Inv, LinkInv;
    PcMoves(s.links[j], t.links[j].pc);
    ReportShape(s, j);
    assert t.unreported == Without(s.unreported, s.links[j].id);
    hide ReportLink;
  }

  /** When this report opens the barrier, every link has reported and is unanswered. */
  lemma OpeningReport(s: Session, j: nat, m: nat)
    requires Inv(s) && j < |s.links| && s.links[j].pc == Reporting && m < |s.links| && ReportLink(s, j).vlansCreated
    ensures ReportLink(s, j).links[m].linkreq
  {
    ReportPlace(s, j, m);
    NobodySweepsYet(s, j);
  }

  lemma ReportSweep(s: Session, j: nat, k: nat)
    requires Inv(s) && j < |s.links| && s.links[j].pc == Reporting && k < |s.links|
    ensures SweepInv(ReportLink(s, j), k)
  {
    var t := ReportLink(s, j);
    NobodySweepsYet(s, j);
    ReportShape(s, j);
    if t.vlansCreated {
      forall m | 0 <= m < |t.links| ensures t.links[m].linkreq {
        OpeningReport(s, j, m);
      }
    }
    hide ReportLink, Inv;
  }

  lemma ReportInv(s: Session, j: nat)
    requires Inv(s) && j < |s.links| && s.links[j].pc == Reporting
    ensures Inv(ReportLink(s, j))
  {
    var t := ReportLink(s, j);
    forall k | 0 <= k < |t.links| ensures PlaceInv(t, k) && SweepInv(t, k) {
      ReportPlace(s, j, k);
      ReportSweep(s, j, k);
    }
    ReportBarrier(s, j);
    ReportShape(s, j);
    assert s.starts == 0 by {
      NobodySweepsYet(s, j);
    }
    hide ReportLink, PlaceInv, SweepInv, BarrierInv;
  }

  /** The last report opens the barrier. */
  lemma ReportBarrier(s: Session, j: nat)
    requires Inv(s) && j < |s.links| && s.links[j].pc == Reporting
    ensures BarrierInv(ReportLink(s, j))
  {
    NobodySweepsYet(s, j);
    var t := ReportLink(s, j);
    forall id | id in t.unreported
      ensures exists k :: 0 <= k < |t.links| && t.links[k].id == id && !HasReported(t.links[k].pc)
    {
      var k :| 0 <= k < |s.links| && s.links[k].id == id;
      assert PlaceInv(s, k);
      assert t.links[k].id == id;
    }
    if t.unreported != [] {
      assert t.unreported[0] in t.unreported;
    } else {
      assert IsStarting(t, j);
    }
  }

  lemma EarlierReport(s: Session, j: nat, k: nat)
    requires Inv(s) && j < |s.links| && k < |s.links| && k != j && !HasReported(s.links[k].pc)
    ensures !IsStarting(ReportLink(s, j), j)
  {
    assert PlaceInv(s, k) && s.links[k].id != s.links[j].id;
    assert s.links[k].id in Without(s.unreported, s.links[j].id);
  }

  lemma LastReport(s: Session, j: nat)
    requires Inv(s) && j < |s.links| && s.links[j].pc == Reporting
    requires forall k :: 0 <= k < |s.links| && k != j ==> HasReported(s.links[k].pc)
    ensures IsStarting(ReportLink(s, j), j)
  {
    var t := ReportLink(s, j);
    NobodySweepsYet(s, j);
    assert t.vlansCreated ==> IsStarting(t, j);
    ReportShape(s, j);
    hide ReportLink, PlaceInv, SweepInv;
    ReportInv(s, j);
    assert t.links != [] && AllReported(t);
  }

  /** The last link to report is told to start the VLANs, and no other. */
  lemma OnlyLastReportStarts(s: Session, j: nat)
    requires Inv(s) && j < |s.links| && s.links[j].pc == Reporting
    ensures IsStarting(ReportLink(s, j), j) <==>
            forall k :: 0 <= k < |s.links| && k != j ==> HasReported(s.links[k].pc)
  {
    hide Inv, ReportLink;
    if k :| 0 <= k < |s.links| && k != j && !HasReported(s.links[k].pc) {
      EarlierReport(s, j, k);
    } else {
      LastReport(s, j);
    }
  }

  lemma StartInv(s: Session, j: nat, ok: bool)
    requires Inv(s) && j < |s.links| && s.links[j].pc == Starting
    ensures Inv(Step(s, StartVlans(j, ok)))
  {
    var t := Step(s, StartVlans(j, ok));
    assert PlaceInv(s, j) && SweepInv(s, j);
    assert Sweeps(t.links[j].pc);
    assert BarrierInv(t) by {
      forall id | id in t.unreported
        ensures exists k :: 0 <= k < |t.links| && t.links[k].id == id
      {
        var k :| 0 <= k < |s.links| && s.links[k].id == id;
        assert t.links[k].id == id;
      }
    }
    forall k | 0 <= k < |t.links|
      ensures PlaceInv(t, k) && SweepInv(t, k)
    {
      assert PlaceInv(s, k) && SweepInv(s, k);
    }
  }

  /** What a stage of completing a link that has reported makes of it. */
  lemma StageKeeps(l: Link, stage: Stage, ok: bool)
    requires LinkInv(l) && HasReported(l.pc) && (stage == Answer ==> l.linkreq)
    ensures var m := StageLink(l, stage, ok);
            && LinkInv(m) && m.id == l.id && m.pc == l.pc && m.portsAdded == l.portsAdded
            && m.linkreq == (l.linkreq && stage != Answer)
  {
    if stage != Answer {
      hide LinkInv;
      SettlingKeeps(l);
    }
  }

  /** The parts of a link that its own invariant is about. */
  predicate SameProgress(l: Link, m: Link) {
    && m.id == l.id && m.linkreq == l.linkreq && m.compsDone == l.compsDone && m.pc == l.pc
    && m.portsAdded == l.portsAdded && m.inits == l.inits && m.answers == l.answers
  }

  lemma SameProgressInv(l: Link, m: Link)
    requires LinkInv(l) && SameProgress(l, m)
    ensures LinkInv(m)
  {
  }

  lemma SettlingKeeps(l: Link)
    requires LinkInv(l)
    ensures SameProgress(l, Settled(l)) && LinkInv(Settled(l))
    ensures SameProgress(l, Refreshed(l)) && LinkInv(Refreshed(l))
  {
    hide LinkInv;
    SameProgressInv(l, Settled(l));
    SameProgressInv(l, Refreshed(l));
  }

  /** Which links the sweep has passed after a stage. */
  lemma PassedMoves(l: Link, pc: Pc, m: nat)
    requires pc.Sweep?
    ensures NextPc(pc, NextStage(l, pc.stage)).Sweep?
    ensures Passed(NextPc(pc, NextStage(l, pc.stage)), m) <==> Passed(pc, m) || m == pc.next
  {
  }

  /** Where the sweep goes from a stage. */
  function SweepsOn(s: Session, pc: Pc): Pc
    requires pc.Sweep?
  {
    if pc.next < |s.links| then NextPc(pc, NextStage(s.links[pc.next], pc.stage)) else Ended
  }

  lemma SweepShape(s: Session, b: nat)
    requires b < |s.links| && s.links[b].pc.Sweep?
    ensures var pc := s.links[b].pc;
            AdvanceLink(s, b) ==
            SetPc(if pc.next < |s.links| then RunStage(s, pc.next, pc.stage, pc.ok) else s, b, SweepsOn(s, pc))
  {
    hide RunStage, NextStage, NextPc, SetPc;
  }

  lemma StageShape(s: Session, k: nat, stage: Stage, ok: bool)
    requires k < |s.links|
    ensures var t := RunStage(s, k, stage, ok);
            && |t.links| == |s.links|
            && t.vlansCreated == s.vlansCreated && t.starts == s.starts && t.unreported == s.unreported
  {
  }

  /** The sweep reaches the next stage of link `k`. */
  lemma SweepStepInv(s: Session, b: nat)
    requires Inv(s) && b < |s.links| && s.links[b].pc.Sweep?
    ensures Inv(AdvanceLink(s, b))
  {
    var t := AdvanceLink(s, b);
    var pc := s.links[b].pc;
    assert PlaceInv(s, b) && SweepInv(s, b);
    hide LinkInv, AdvanceLink, Passed, NextStage, NextPc, RunStage;
    SweepShape(s, b);
    if pc.next < |s.links| {
      StageShape(s, pc.next, pc.stage, pc.ok);
    }
    SweepLinks(s, b);
    forall m | 0 <= m < |t.links|
      ensures PlaceInv(t, m) && SweepInv(t, m)
    {
      assert PlaceInv(s, m) && SweepInv(s, m);
      forall x | 0 <= x < |t.links| && pc.next < |s.links|
        ensures Passed(t.links[b].pc, x) <==> Passed(pc, x) || x == pc.next
      {
        PassedMoves(s.links[pc.next], pc, x);
      }
    }
    hide PlaceInv;
    BarrierKept(s, t);
    if pc.next >= |s.links| {
      forall m | 0 <= m < |t.links| ensures !t.links[m].linkreq {
        AllPassed(pc, m);
      }
    }
    assert pc.next < |s.links| ==> Sweeps(t.links[b].pc) by {
      if pc.next < |s.links| {
        PassedMoves(s.links[pc.next], pc, 0);
      }
    }
  }

  lemma AllPassed(pc: Pc, m: nat)
    requires pc.Sweep? && m < pc.next
    ensures Passed(pc, m)
  {
  }

  /** What a stage of the sweep makes of each link. */
  lemma SweepLinks(s: Session, b: nat)
    requires Inv(s) && b < |s.links| && s.links[b].pc.Sweep?
    ensures var t, k := AdvanceLink(s, b), s.links[b].pc.next;
            && |t.links| == |s.links| && HasReported(t.links[b].pc) && !t.links[b].pc.Starting?
            && !t.useAfterDelete
            && forall m :: 0 <= m < |t.links| ==>
                 && t.links[m].id == s.links[m].id
                 && LinkInv(t.links[m]) && (m != b ==> t.links[m].pc == s.links[m].pc)
                 && t.links[m].linkreq == (s.links[m].linkreq && m != k)
  {
    var pc := s.links[b].pc;
    assert PlaceInv(s, b) && SweepInv(s, b) && (pc.next < |s.links| ==> PlaceInv(s, pc.next));
    forall m | 0 <= m < |s.links| ensures LinkInv(s.links[m]) {
      assert PlaceInv(s, m);
    }
    hide LinkInv, Inv, PlaceInv, StageLink, NextStage, AdvanceLink;
    SweepShape(s, b);
    var u := if pc.next < |s.links| then RunStage(s, pc.next, pc.stage, pc.ok) else s;
    if pc.next < |s.links| {
      StageKeeps(s.links[pc.next], pc.stage, pc.ok);
    }
    PcMoves(u.links[b], SweepsOn(s, pc));
  }

  /** A link that completes on its own, on to its next stage. */
  function Directed(l: Link, stage: Stage): Link {
    var next := NextStage(l, stage);
    StageLink(l, stage, true).(pc := if next == [] then Quit else Direct(next[0]))
  }

  lemma DirectedKeeps(l: Link, stage: Stage)
    requires LinkInv(l) && l.pc == Direct(stage) && (l.linkreq <==> stage == Answer)
    ensures var m := Directed(l, stage);
            LinkInv(m) && m.id == l.id && (m.pc.Direct? || m.pc.Quit?) && !m.linkreq && OwnAnswer(m)
  {
    assert l.inits == 1;
    if stage != Answer {
      SettlingKeeps(l);
      assert SameProgress(l.(pc := Directed(l, stage).pc), Directed(l, stage));
      SameProgressInv(l.(pc := Directed(l, stage).pc), Directed(l, stage));
    }
  }

  lemma DirectStepInv(s: Session, j: nat)
    requires Inv(s) && j < |s.links| && s.links[j].pc.Direct?
    ensures Inv(AdvanceLink(s, j))
  {
    var l := s.links[j];
    assert PlaceInv(s, j);
    var m := Directed(l, l.pc.stage);
    assert AdvanceLink(s, j) == SetLink(s, j, m) by {
      hide LinkInv, StageLink, NextStage;
    }
    hide LinkInv, Directed;
    DirectedKeeps(l, l.pc.stage);
    OneLinkInv(s, j, m);
  }

  lemma StepInv(s: Session, e: Event)
    requires Inv(s)
    ensures Inv(Step(s, e))
  {
    if e.j < |s.links| {
      var pc := s.links[e.j].pc;
      match e
      case Report(j) => if pc.Reporting? { ReportInv(s, j); }
      case StartVlans(j, ok) => if pc.Starting? { StartInv(s, j, ok); }
      case Advance(j) =>
        if pc.Sweep? {
          SweepStepInv(s, j);
        } else if pc.Direct? {
          DirectStepInv(s, j);
        }
      case _ => PlainStepInv(s, e);
    }
  }

  predicate LinkKept(l: Link, m: Link) {
    && LinkInv(m) && m.id == l.id
    && HasReported(m.pc) == HasReported(l.pc)
    && (HasReported(l.pc) ==> m.pc == l.pc && m.linkreq == l.linkreq)
    && ((l.linkreq <==> !OwnAnswer(l)) ==> (m.linkreq <==> !OwnAnswer(m)))
  }

  /** Until the link is being initialised. */
  lemma InitializedKeeps(l: Link, threadStarted: bool)
    requires LinkInv(l) && l.pc.InitCalled?
    ensures LinkKept(l, Initialized(l, threadStarted))
  {
  }

  lemma CleanedUpKeeps(l: Link)
    requires LinkInv(l) && l.pc.Cleaning?
    ensures LinkKept(l, CleanedUp(l))
  {
  }

  lemma EarlyStepKeeps(l: Link, e: Event)
    requires LinkInv(l) && (e.CompDone? || e.Initialize? || e.Cleanup?)
    ensures LinkKept(l, LinkStep(l, e))
  {
    hide Initialized, CleanedUp;
    match e
    case CompDone(_) =>
    case Initialize(_, threadStarted) => if l.pc.InitCalled? { InitializedKeeps(l, threadStarted); }
    case Cleanup(_) => if l.pc.Cleaning? { CleanedUpKeeps(l); }
  }

  lemma LateStepKeeps(l: Link, e: Event)
    requires LinkInv(l) && !e.CompDone? && !e.Initialize? && !e.Cleanup?
    ensures LinkKept(l, LinkStep(l, e))
  {
    if e.Close? {
      ClosedKeeps(l);
    }
  }

  lemma ClosedKeeps(l: Link)
    requires LinkInv(l)
    ensures LinkKept(l, Closed(l))
  {
    hide LinkInv;
    SameProgressInv(l, Closed(l));
  }

  lemma LinkStepKeeps(l: Link, e: Event)
    requires LinkInv(l)
    ensures LinkKept(l, LinkStep(l, e))
  {
    hide LinkInv, LinkKept, LinkStep;
    if e.CompDone? || e.Initialize? || e.Cleanup? {
      EarlyStepKeeps(l, e);
    } else {
      LateStepKeeps(l, e);
    }
  }

  /** The steps inside one link. */
  lemma PlainStepInv(s: Session, e: Event)
    requires Inv(s) && e.j < |s.links| && !e.Report? && !e.StartVlans? && !e.Advance?
    ensures Inv(Step(s, e))
  {
    assert PlaceInv(s, e.j);
    LinkStepKeeps(s.links[e.j], e);
    OneLinkInv(s, e.j, LinkStep(s.links[e.j], e));
  }

  lemma {:induction false} RunInv(s: Session, es: seq<Event>)
    requires Inv(s)
    ensures Inv(Run(s, es))
  {
    if es != [] {
      RunInv(s, es[..|es| - 1]);
      StepInv(Run(s, es[..|es| - 1]), es[|es| - 1]);
    }
  }

  // ------------------------------------------------------------- what becomes of a link

  /** What the answer to the link's request says, once there is one: its ports are fine and, unless the link completes on
      its own, so was the start of the session's VLANs. */
  predicate Fine(l: Link, startFine: bool) {
    l.portsAdded && l.portsFine && (l.pc.Quit? || l.pc.Direct? || startFine)
  }

  /** Status and state of a link, each by what has happened to it. */
  predicate StatusOk(l: Link, startFine: bool) {
    && l.vlanFine == (if l.linkreq then l.portsAdded && l.portsFine else l.status)
    && (!l.linkreq ==> l.status == Fine(l, startFine))
    && (l.pc.Sweep? ==> l.pc.ok == startFine)
  }

  predicate StateOk(l: Link) {
    && (l.needsRefresh ==> l.closed && l.inits == 1)
    && (l.inits == 0 ==> !l.portsAdded && l.state == if l.closed then Refreshing else New)
    && (l.inits == 1 ==> !l.state.New?)
    && (l.inits == 1 && l.state.Initializing? ==> l.needsRefresh == l.closed)
    && (l.inits == 1 && !l.state.Initializing? ==>
          && !l.linkreq && (l.state.Failed? <==> !l.status) && (l.state.Refreshing? ==> l.closed))
  }

  /** A link on its way, or one that completes on its own. */
  predicate PlaceOk(l: Link) {
    && (l.pc.Idle? || l.pc.InitCalled? || l.pc.Cleaning? || l.pc.AddingPorts? ==> l.linkreq && !l.portsAdded)
    && (l.pc.Cleaning? || l.pc.AddingPorts? || l.pc.Deciding? || l.pc.Reporting? ==> l.state.Initializing? && l.linkreq)
    && (l.pc.Direct? ==> l.closed && (l.linkreq <==> l.pc.stage == Answer) &&
                         (l.state.Initializing? <==> l.pc.stage != Refresh))
    && (l.pc.Quit? && l.inits == 1 ==> Completed(l) && (l.portsAdded ==> l.closed))
  }

  /** Nothing is left to do for the link. */
  predicate Completed(l: Link) {
    !l.state.Initializing? && (l.closed ==> !l.state.Active?)
  }

  predicate Fate(l: Link, startFine: bool) {
    StatusOk(l, startFine) && StateOk(l) && PlaceOk(l)
  }

  /** The sweep has settled link `k`. */
  predicate SettledBy(pc: Pc, k: nat) {
    pc.Sweep? && (k < pc.next || (k == pc.next && pc.stage == Refresh))
  }

  /** Link `k` half-way through the sweep of the thread at `pc`. */
  predicate HalfWay(l: Link, pc: Pc, k: nat) {
    && (l.state.Initializing? <==> !SettledBy(pc, k))
    && (l.closed && l.state.Active? ==> pc.Sweep? && k == pc.next)
    && (pc.Sweep? && k == pc.next && pc.stage == Refresh ==> l.closed)
  }

  /** A link that has reported stays initializing until the sweep settles it. */
  ghost predicate SweepFate(s: Session, k: nat)
    requires k < |s.links|
  {
    HasReported(s.links[k].pc) ==>
      && (s.starts == 0 ==> s.links[k].state.Initializing?)
      && (forall b :: 0 <= b < |s.links| && s.links[b].pc.Sweep? ==> HalfWay(s.links[k], s.links[b].pc, k))
      && (s.starts == 1 && NobodySweeps(s) ==> Completed(s.links[k]))
  }

  ghost predicate Fates(s: Session) {
    forall k :: 0 <= k < |s.links| ==> Fate(s.links[k], s.startFine) && SweepFate(s, k)
  }

  lemma EarlyFate(l: Link, e: Event, startFine: bool)
    requires LinkInv(l) && Fate(l, startFine) && (e.CompDone? || e.Initialize? || e.Cleanup?)
    ensures Fate(LinkStep(l, e), startFine)
  {
    match e
    case CompDone(_) =>
    case Initialize(_, _) =>
    case Cleanup(_) =>
  }

  lemma LateFate(l: Link, e: Event, startFine: bool)
    requires LinkInv(l) && Fate(l, startFine) && (e.AddPorts? || e.Decide?)
    ensures Fate(LinkStep(l, e), startFine)
  {
  }

  lemma CloseFate(l: Link, startFine: bool)
    requires LinkInv(l) && Fate(l, startFine)
    ensures Fate(Closed(l), startFine)
  {
  }

  lemma DirectFate(l: Link, stage: Stage, startFine: bool)
    requires LinkInv(l) && Fate(l, startFine) && l.pc == Direct(stage)
    ensures Fate(Directed(l, stage), startFine)
  {
    match stage
    case Answer =>
    case Settle =>
    case Refresh =>
  }

  /** The sweep takes a link through its stages; only then does its state change. */
  lemma StageFate(l: Link, stage: Stage, ok: bool)
    requires LinkInv(l) && HasReported(l.pc) && Fate(l, ok)
    requires (stage == Answer <==> l.linkreq) && (l.state.Initializing? <==> stage != Refresh)
    requires stage == Refresh ==> l.closed
    ensures var m := StageLink(l, stage, ok);
            && Fate(m, ok) && (m.state.Initializing? <==> stage == Answer)
            && (stage == Settle && !l.needsRefresh ==> Completed(m))
            && (stage == Refresh ==> Completed(m))
  {
    match stage
    case Answer =>
    case Settle =>
    case Refresh =>
  }

  /** A step of one link that has not begun to report, or only notes that it is closed. */
  lemma OneLinkFate(s: Session, j: nat, l: Link)
    requires Inv(s) && Fates(s) && j < |s.links| && Fate(l, s.startFine)
    requires || l == Closed(s.links[j]) || (!HasReported(s.links[j].pc) && !HasReported(l.pc))
             || (l.pc == s.links[j].pc && l.state == s.links[j].state && l.closed == s.links[j].closed)
    ensures Fates(SetLink(s, j, l))
  {
    var t := SetLink(s, j, l);
    hide Fate, LinkInv, Inv, PlaceInv, SweepInv;
    SameSweeps(s, j, l);
    hide NobodySweeps;
    forall k | 0 <= k < |t.links| ensures Fate(t.links[k], t.startFine) && SweepFate(t, k) {
      assert Fate(s.links[k], s.startFine) && SweepFate(s, k);
    }
  }

  /** The thread of a link that only takes a step of its own neither begins nor ends a sweep. */
  lemma SameSweeps(s: Session, j: nat, l: Link)
    requires j < |s.links| && Sweeps(s.links[j].pc) == Sweeps(l.pc)
    ensures NobodySweeps(SetLink(s, j, l)) == NobodySweeps(s)
  {
    var t := SetLink(s, j, l);
    assert forall m :: 0 <= m < |s.links| ==> Sweeps(s.links[m].pc) == Sweeps(t.links[m].pc);
  }

  lemma ReportedFate(l: Link, pc: Pc, startFine: bool)
    requires Fate(l, startFine) && (l.pc.Reporting? || HasReported(l.pc))
    requires HasReported(pc) && (pc.Sweep? ==> pc.ok == startFine)
    ensures Fate(l.(pc := pc), startFine) && (l.pc.Reporting? ==> l.state.Initializing?)
  {
  }

  lemma ReportFate(s: Session, j: nat)
    requires Inv(s) && Fates(s) && j < |s.links| && s.links[j].pc == Reporting
    ensures Fates(ReportLink(s, j))
  {
    var t := ReportLink(s, j);
    assert PlaceInv(s, j) && s.starts == 0;
    forall k | 0 <= k < |t.links| ensures !t.links[k].pc.Sweep? {
      assert PlaceInv(s, k);
    }
    ReportedFate(s.links[j], t.links[j].pc, s.startFine);
    hide Inv, Fate;
    forall k | 0 <= k < |t.links| ensures Fate(t.links[k], t.startFine) && SweepFate(t, k) {
      assert Fate(s.links[k], s.startFine) && SweepFate(s, k);
    }
  }

  lemma StartFate(s: Session, j: nat, ok: bool)
    requires Inv(s) && Fates(s) && j < |s.links| && s.links[j].pc == Starting
    ensures Fates(Step(s, StartVlans(j, ok)))
  {
    var t := Step(s, StartVlans(j, ok));
    assert PlaceInv(s, j) && SweepInv(s, j) && s.starts == 0;
    forall k | 0 <= k < |t.links| ensures Fate(t.links[k], t.startFine) && SweepFate(t, k) {
      assert Fate(s.links[k], s.startFine) && SweepFate(s, k) && PlaceInv(s, k);
    }
  }

  /** What a stage of the sweep makes of the link it has come to. */
  lemma SweepStageFate(s: Session, b: nat)
    requires Inv(s) && Fates(s) && b < |s.links| && s.links[b].pc.Sweep? && s.links[b].pc.next < |s.links|
    ensures var pc := s.links[b].pc;
            var l := s.links[pc.next];
            var m := StageLink(l, pc.stage, pc.ok);
            && pc.ok == s.startFine && RunStage(s, pc.next, pc.stage, pc.ok) == SetLink(s, pc.next, m)
            && Fate(m, s.startFine) && m.pc == l.pc
            && (m.state.Initializing? <==> pc.stage == Answer)
            && (NextStage(l, pc.stage) == [] ==> Completed(m))
            && (NextStage(l, pc.stage) == [Refresh] ==> m.closed)
  {
    var pc := s.links[b].pc;
    var l := s.links[pc.next];
    assert PlaceInv(s, b) && SweepInv(s, b) && PlaceInv(s, pc.next);
    assert Fate(l, s.startFine) && SweepFate(s, pc.next);
    assert HalfWay(l, pc, pc.next);
    hide Inv, Fates;
    StageFate(l, pc.stage, pc.ok);
  }

  lemma SweepMeansStarted(s: Session, b: nat)
    requires Inv(s) && b < |s.links| && s.links[b].pc.Sweep?
    ensures s.starts == 1
    ensures forall k :: 0 <= k < |s.links| ==> HasReported(s.links[k].pc) && (Sweeps(s.links[k].pc) <==> k == b)
  {
    assert PlaceInv(s, b) && SweepInv(s, b);
    forall k | 0 <= k < |s.links| ensures HasReported(s.links[k].pc) {
      assert PlaceInv(s, k);
    }
    assert forall k: nat :: IsStarting(s, k) ==> k == b;
  }

  lemma SweepStepFate(s: Session, b: nat)
    requires Inv(s) && Fates(s) && b < |s.links| && s.links[b].pc.Sweep?
    ensures Fates(AdvanceLink(s, b))
  {
    var pc := s.links[b].pc;
    if pc.next >= |s.links| {
      SweepEndFate(s, b);
    } else {
      var pc' := NextPc(pc, NextStage(s.links[pc.next], pc.stage));
      var t := AdvanceLink(s, b);
      SweepStageFate(s, b);
      SweepShape(s, b);
      hide AdvanceLink, Inv, Fates, StageLink, NextStage, RunStage, NextPc;
      assert t == SetPc(SetLink(s, pc.next, StageLink(s.links[pc.next], pc.stage, pc.ok)), b, pc');
      SweepMeansStarted(s, b);
      forall x | 0 <= x < |t.links|
        ensures (t.links[x].pc.Sweep? <==> x == b) && Fate(t.links[x], t.startFine) && HalfWay(t.links[x], pc', x)
      {
        SweptFate(s, b, x);
      }
      hide Fate, HalfWay;
      OneSweepFates(t, b);
    }
  }

  lemma OneSweepFates(t: Session, b: nat)
    requires t.starts == 1 && b < |t.links|
    requires forall x :: 0 <= x < |t.links| ==>
               && (t.links[x].pc.Sweep? <==> x == b)
               && Fate(t.links[x], t.startFine) && HalfWay(t.links[x], t.links[b].pc, x)
    ensures Fates(t)
  {
    hide Fate, HalfWay;
    assert Sweeps(t.links[b].pc);
  }

  /** Where the next stage leaves link `x`. */
  lemma SweptFate(s: Session, b: nat, x: nat)
    requires Inv(s) && Fates(s) && b < |s.links| && s.links[b].pc.Sweep? && s.links[b].pc.next < |s.links| && x < |s.links|
    ensures var pc := s.links[b].pc;
            var pc' := NextPc(pc, NextStage(s.links[pc.next], pc.stage));
            var l := if x == pc.next then StageLink(s.links[x], pc.stage, pc.ok) else s.links[x];
            var m := if x == b then l.(pc := pc') else l;
            Fate(m, s.startFine) && HalfWay(m, pc', x)
  {
    var pc := s.links[b].pc;
    var next := NextStage(s.links[pc.next], pc.stage);
    var l := if x == pc.next then StageLink(s.links[x], pc.stage, pc.ok) else s.links[x];
    SweepMeansStarted(s, b);
    SweepStageFate(s, b);
    assert Fate(s.links[x], s.startFine) && SweepFate(s, x) && HalfWay(s.links[x], pc, x);
    hide Inv, Fates, Fate, StageLink, HalfWay, SweepFate;
    HalfWayMoves(s.links[x], l, pc, next, x);
    var pc' := NextPc(pc, next);
    ReportedFate(l, if x == b then pc' else l.pc, s.startFine);
    SamePlace(l, pc', pc', x);
  }

  /** Where the sweep is with a link does not depend on the link's own thread. */
  lemma SamePlace(l: Link, own: Pc, pc: Pc, x: nat)
    ensures HalfWay(l.(pc := own), pc, x) <==> HalfWay(l, pc, x)
  {
  }

  lemma StepFate(s: Session, e: Event)
    requires Inv(s) && Fates(s)
    ensures Fates(Step(s, e))
  {
    if e.j < |s.links| {
      var l := s.links[e.j];
      assert PlaceInv(s, e.j) && Fate(l, s.startFine);
      match e
      case Report(j) => if l.pc.Reporting? { ReportFate(s, j); }
      case StartVlans(j, ok) => if l.pc.Starting? { StartFate(s, j, ok); }
      case Advance(j) =>
        if l.pc.Sweep? {
          SweepStepFate(s, j);
        } else if l.pc.Direct? {
          DirectStepFate(s, j);
        }
      case Close(j) =>
        CloseFate(l, s.startFine);
        OneLinkFate(s, j, Closed(l));
      case _ => PlainStepFate(s, e);
    }
  }

  /** Before it is with a sweep a link changes in its own steps; after that only its count of components does. */
  lemma PlainStepMoves(l: Link, e: Event)
    requires LinkInv(l) && (e.CompDone? || e.Initialize? || e.Cleanup? || e.AddPorts? || e.Decide?)
    ensures var m := LinkStep(l, e);
            || (!HasReported(l.pc) && !HasReported(m.pc))
            || (m.pc == l.pc && m.state == l.state && m.closed == l.closed)
  {
    assert l.compsDone < 2 <==> l.pc.Idle?;
    hide LinkInv;
    match e
    case CompDone(_) =>
    case Initialize(_, _) =>
    case Cleanup(_) =>
    case AddPorts(_, _) =>
    case Decide(_) =>
  }

  lemma PlainStepFate(s: Session, e: Event)
    requires Inv(s) && Fates(s) && e.j < |s.links|
    requires e.CompDone? || e.Initialize? || e.Cleanup? || e.AddPorts? || e.Decide?
    ensures Fates(Step(s, e))
  {
    var l := s.links[e.j];
    assert PlaceInv(s, e.j) && Fate(l, s.startFine);
    hide Fate, Fates, Inv, LinkStep;
    if e.AddPorts? || e.Decide? {
      LateFate(l, e, s.startFine);
    } else {
      EarlyFate(l, e, s.startFine);
    }
    PlainStepMoves(l, e);
    hide LinkInv;
    OneLinkFate(s, e.j, LinkStep(l, e));
  }

  lemma DirectStepFate(s: Session, j: nat)
    requires Inv(s) && Fates(s) && j < |s.links| && s.links[j].pc.Direct?
    ensures Fates(AdvanceLink(s, j))
  {
    var l := s.links[j];
    assert PlaceInv(s, j) && Fate(l, s.startFine);
    var m := Directed(l, l.pc.stage);
    assert AdvanceLink(s, j) == SetLink(s, j, m) by {
      hide LinkInv, Fate, StageLink, NextStage;
    }
    DirectFate(l, l.pc.stage, s.startFine);
    hide Fate, LinkInv;
    OneLinkFate(s, j, m);
  }

  lemma {:induction false} RunFate(ids: seq<nat>, es: seq<Event>)
    requires forall i, j :: 0 <= i < j < |ids| ==> ids[i] != ids[j]
    ensures Inv(Run(InitSession(ids), es)) && Fates(Run(InitSession(ids), es))
  {
    if es == [] {
      InitInv(ids);
    } else {
      RunFate(ids, es[..|es| - 1]);
      var s := Run(InitSession(ids), es[..|es| - 1]);
      hide Inv, Fates;
      StepInv(s, es[|es| - 1]);
      StepFate(s, es[|es| - 1]);
    }
  }

  // ------------------------------------------------------------- main results

  /** Under every interleaving of links coming up and the session closing: the session's VLANs are started at
      most once, and only when every link has finished adding its ports; each link is initialised at most once, and
      only after two components were done with it; each request is answered at most once, never after its deletion.
      And when every link has reported, the VLANs have been started or the last one to report is doing it. */
  lemma StartedOnceAnsweredOnce(requests: seq<nat>, es: seq<Event>)
    ensures var s := Run(InitSession(Accepted(requests)), es);
            && s.starts <= 1
            && (s.starts == 1 ==> forall k :: 0 <= k < |s.links| ==> s.links[k].portsAdded)
            && (forall k :: 0 <= k < |s.links| ==>
                  && s.links[k].inits <= 1 && (s.links[k].inits == 1 ==> s.links[k].compsDone >= 2)
                  && s.links[k].answers <= 1 && (s.links[k].linkreq <==> s.links[k].answers == 0))
            && !s.useAfterDelete
            && (s.links != [] && AllReported(s) ==> s.starts == 1 || exists k :: IsStarting(s, k))
  {
    var s0 := InitSession(Accepted(requests));
    InitInv(Accepted(requests));
    RunInv(s0, es);
    var s := Run(s0, es);
    forall k | 0 <= k < |s.links|
      ensures LinkInv(s.links[k]) && (s.vlansCreated ==> HasReported(s.links[k].pc))
    {
      assert PlaceInv(s, k);
    }
  }

  /** And in every run: once the VLANs have been started and the thread that did it has gone through all links, the
      request of every link has been answered, exactly once. */
  lemma AllAnsweredAfterSweep(requests: seq<nat>, es: seq<Event>, k: nat)
    requires var s := Run(InitSession(Accepted(requests)), es);
             k < |s.links| && s.starts == 1 && NobodySweeps(s)
    ensures Run(InitSession(Accepted(requests)), es).links[k].answers == 1
  {
    var s0 := InitSession(Accepted(requests));
    InitInv(Accepted(requests));
    RunInv(s0, es);
    assert PlaceInv(Run(s0, es), k);
  }

  lemma FateMeans(l: Link, startFine: bool)
    requires LinkInv(l) && Fate(l, startFine)
    ensures var fine := l.portsAdded && l.portsFine && (l.pc.Quit? || l.pc.Direct? || startFine);
            && (l.answers == 1 ==> l.status == fine)
            && (l.inits == 1 && l.state != Initializing ==>
                  && l.answers == 1
                  && if fine then l.state == Active || (l.state == Refreshing && l.closed) else l.state == Failed)
            && (l.inits == 0 ==> l.answers == 0 && l.state == if l.closed then Refreshing else New)
            && (l.pc.Direct? || (l.pc == Quit && l.portsAdded) ==> l.closed)
  {
  }

  /** And in every run, whatever becomes of a link: it is answered that it is up if and only if its ports were fine and,
      unless it completed on its own because the session had been closed, the start of the session's VLANs was. Once it is
      settled it is active, or refreshing if the session has been closed, in that case, and failed in the other. It is
      settled when its own thread is done with it or the sweep is over, and by then no link of a closed session is active. */
  lemma EveryLinkSettles(requests: seq<nat>, es: seq<Event>, k: nat)
    requires k < |Run(InitSession(Accepted(requests)), es).links|
    ensures var s := Run(InitSession(Accepted(requests)), es);
            var l := s.links[k];
            var fine := l.portsAdded && l.portsFine && (l.pc.Quit? || l.pc.Direct? || s.startFine);
            && (l.answers == 1 ==> l.status == fine)
            && (l.inits == 1 && l.state != Initializing ==>
                  && l.answers == 1
                  && if fine then l.state == Active || (l.state == Refreshing && l.closed) else l.state == Failed)
            && ((l.pc == Quit && l.inits == 1) || (s.starts == 1 && NobodySweeps(s)) ==>
                  l.state != Initializing && !(l.state == Active && l.closed))
            && (l.inits == 0 ==> l.answers == 0 && l.state == if l.closed then Refreshing else New)
            && (l.pc.Direct? || (l.pc == Quit && l.portsAdded) ==> l.closed)
  {
    var s := Run(InitSession(Accepted(requests)), es);
    RunFate(Accepted(requests), es);
    assert PlaceInv(s, k) && Fate(s.links[k], s.startFine) && SweepFate(s, k);
    var l := s.links[k];
    assert (l.pc == Quit && l.inits == 1) || (s.starts == 1 && NobodySweeps(s)) ==> Completed(l) by {
      assert s.starts == 1 && NobodySweeps(s) ==> HasReported(l.pc);
    }
    FateMeans(l, s.startFine);
    hide Inv, Fates, LinkInv, Fate, SweepFate, NobodySweeps;
  }

  /** A link whose ports have been added completes on its own if the session has been closed by then, and reports if not. */
  lemma DecidesByClosing(requests: seq<nat>, es: seq<Event>, j: nat)
    requires var s := Run(InitSession(Accepted(requests)), es); j < |s.links| && s.links[j].pc == Deciding
    ensures var s := Run(InitSession(Accepted(requests)), es);
            Step(s, Decide(j)).links[j] == s.links[j].(pc := if s.links[j].closed then Direct(Answer) else Reporting)
  {
    var s := Run(InitSession(Accepted(requests)), es);
    hide LinkInv, Fate, Run;
    RunFate(Accepted(requests), es);
    assert PlaceInv(s, j) && Fate(s.links[j], s.startFine);
    NotesClosing(s.links[j], s.startFine);
  }

  lemma NotesClosing(l: Link, startFine: bool)
    requires LinkInv(l) && Fate(l, startFine) && l.pc == Deciding
    ensures l.needsRefresh == l.closed
  {
  }
}
