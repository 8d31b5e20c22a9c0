/** `session_manager::delete_vlan` of crd/onlcrd_session_manager.cc, called for one VLAN by any number of
    threads: the flag `is_deleted`, set and cleared under the lock, around a request sent without it. */
module DeleteGuard {

  datatype Pc = Entering | InFlight | Undoing | Returned(ok: bool)

  /** What the daemon's answer to the delete request is; none within the time limit is the first case. */
  datatype Reply = Silence | Refused | Done

  /** `sent` and `heard` are history: whether the call sent a delete, and what came back. */
  datatype Caller = Caller(pc: Pc, sent: bool, heard: seq<Reply>)

  datatype State = State(isDeleted: bool, callers: seq<Caller>)

  datatype Event =
    | Call                             // another thread calls delete_vlan
    | Enter(c: nat)                    // looks at the flag, under the lock
    | Receive(c: nat, reply: Reply)    // send_and_wait returns
    | Undo(c: nat)                     // clears the flag, under the lock

  function Entered(testing: bool, isDeleted: bool, l: Caller): Caller {
    if isDeleted || testing then l.(pc := Returned(true)) else l.(pc := InFlight, sent := true)
  }

  function Received(l: Caller, reply: Reply): Caller {
    l.(pc := if reply == Silence then Undoing else Returned(reply == Done), heard := l.heard + [reply])
  }

  function Step(testing: bool, s: State, e: Event): State {
    match e
    case Call => s.(callers := s.callers + [Caller(Entering, false, [])])
    case Enter(c) =>
      if c >= |s.callers| || s.callers[c].pc != Entering then s
      else State(true, s.callers[c := Entered(testing, s.isDeleted, s.callers[c])])
    case Receive(c, reply) =>
      if c >= |s.callers| || s.callers[c].pc != InFlight then s
      else s.(callers := s.callers[c := Received(s.callers[c], reply)])
    case Undo(c) =>
      if c >= |s.callers| || s.callers[c].pc != Undoing then s
      else State(false, s.callers[c := s.callers[c].(pc := Returned(false))])
  }

  function Run(testing: bool, s: State, es: seq<Event>): State {
    if es == [] then s else Step(testing, Run(testing, s, es[..|es| - 1]), es[|es| - 1])
  }

  /** A VLAN just allocated. */
  const FRESH := State(false, [])

  /** Caller `c` has sent a delete whose outcome is open. */
  predicate Open(s: State, c: nat) {
    c < |s.callers| && (s.callers[c].pc == InFlight || s.callers[c].pc == Undoing)
  }

  /** The daemon has answered caller `c`. */
  predicate Answered(s: State, c: nat) {
    c < |s.callers| && (Refused in s.callers[c].heard || Done in s.callers[c].heard)
  }

  /** What has happened to a caller so far. */
  predicate CallerOk(testing: bool, l: Caller) {
    && (l.sent ==> !testing)
    && match l.pc
       case Entering => !l.sent && l.heard == []
       case InFlight => l.sent && l.heard == []
       case Undoing => l.sent && l.heard == [Silence]
       case Returned(ok) =>
         if l.sent then l.heard == [if ok then Done else if l.heard == [Silence] then Silence else Refused]
         else ok && l.heard == []
  }

  ghost predicate Inv(testing: bool, s: State) {
    && (forall c :: 0 <= c < |s.callers| ==> CallerOk(testing, s.callers[c]))
    && (forall c, d :: Open(s, c) && Open(s, d) ==> c == d)
    && (forall c, d :: Answered(s, c) ==> !Open(s, d))
    && (forall c :: Open(s, c) || Answered(s, c) ==> s.isDeleted)
  }

  /** Who has a delete open, and who has been answered, after a step. */
  lemma StepOpens(testing: bool, t: State, e: Event)
    requires Inv(testing, t)
    ensures var u := Step(testing, t, e);
            && |t.callers| <= |u.callers|
            && (forall c: nat :: e.Call? || c != e.c ==>
                  (Open(u, c) <==> Open(t, c)) && (Answered(u, c) <==> Answered(t, c)))
            && match e
               case Call => u.isDeleted == t.isDeleted
               case Enter(d) =>
                 && (Answered(u, d) <==> Answered(t, d))
                 && (u == t || (u.isDeleted && (Open(u, d) ==> !t.isDeleted)))
               case Receive(d, reply) =>
                 && u.isDeleted == t.isDeleted
                 && (u == t || (Open(t, d) && (Answered(u, d) <==> !Open(u, d))))
               case Undo(d) => (Answered(u, d) <==> Answered(t, d)) && (u == t || (Open(t, d) && !Open(u, d)))
  {
  }

  lemma StepCallers(testing: bool, t: State, e: Event)
    requires Inv(testing, t)
    ensures var u := Step(testing, t, e); forall c :: 0 <= c < |u.callers| ==> CallerOk(testing, u.callers[c])
  {
  }

  lemma StepInv(testing: bool, t: State, e: Event)
    requires Inv(testing, t)
    ensures Inv(testing, Step(testing, t, e))
  {
    StepOpens(testing, t, e);
    StepCallers(testing, t, e);
    hide Step, Open, Answered;
  }

  lemma {:induction false} RunInv(testing: bool, es: seq<Event>)
    ensures Inv(testing, Run(testing, FRESH, es))
  {
    if es == [] {
      assert forall c: nat :: !Answered(FRESH, c) && !Open(FRESH, c);
    } else {
      RunInv(testing, es[..|es| - 1]);
      StepInv(testing, Run(testing, FRESH, es[..|es| - 1]), es[|es| - 1]);
    }
  }

  /** For any interleaving of callers: at most one delete of a VLAN is outstanding, the flag is set while it is, and
      none is outstanding once one has been answered. */
  lemma OneDeleteAtATime(testing: bool, es: seq<Event>, c: nat, d: nat)
    ensures var s := Run(testing, FRESH, es);
            && (Open(s, c) && Open(s, d) ==> c == d)
            && (Open(s, c) ==> s.isDeleted && !Answered(s, d))
            && (Answered(s, c) ==> s.isDeleted)
  {
    RunInv(testing, es);
  }

  /** Once a delete has been answered, whatever the answer, nobody sends another. */
  lemma {:induction false} NoneSentAfterAnswer(testing: bool, es: seq<Event>, i: nat, c: nat, d: nat)
    requires i <= |es| && Answered(Run(testing, FRESH, es[..i]), c)
    ensures var s, t := Run(testing, FRESH, es[..i]), Run(testing, FRESH, es);
            && Answered(t, c)
            && (d < |t.callers| && t.callers[d].sent ==> d < |s.callers| && s.callers[d].sent)
  {
    if i == |es| {
      assert es[..i] == es;
    } else {
      var init := es[..|es| - 1];
      assert init[..i] == es[..i];
      NoneSentAfterAnswer(testing, init, i, c, d);
      RunInv(testing, init);
      AnsweredStays(testing, Run(testing, FRESH, init), es[|es| - 1], c, d);
    }
  }

  lemma AnsweredStays(testing: bool, t: State, e: Event, c: nat, d: nat)
    requires Inv(testing, t) && Answered(t, c)
    ensures var u := Step(testing, t, e);
            Answered(u, c) && (d < |u.callers| && u.callers[d].sent ==> d < |t.callers| && t.callers[d].sent)
  {
    assert t.isDeleted;
  }

  /** What a call returns: that the VLAN is gone, if and only if it sent no delete or its own was done. */
  lemma ReturnsWhatItHeard(testing: bool, es: seq<Event>, c: nat)
    requires c < |Run(testing, FRESH, es).callers| && Run(testing, FRESH, es).callers[c].pc.Returned?
    ensures var l := Run(testing, FRESH, es).callers[c];
            && (l.pc.ok <==> !l.sent || l.heard == [Done])
            && (l.sent <==> |l.heard| == 1)
            && (l.sent ==> !testing)
  {
    RunInv(testing, es);
  }

  /** A call sends a delete exactly when it finds the flag clear, outside testing, and leaves it set in any case. */
  lemma SendsIffClear(testing: bool, es: seq<Event>, c: nat)
    requires var s := Run(testing, FRESH, es); c < |s.callers| && s.callers[c].pc == Entering
    ensures var s, t := Run(testing, FRESH, es), Run(testing, FRESH, es + [Enter(c)]);
            && t.isDeleted && |t.callers| == |s.callers|
            && (t.callers[c].sent <==> !s.isDeleted && !testing)
            && (t.callers[c].sent <==> t.callers[c].pc == InFlight)
  {
    RunInv(testing, es);
    assert (es + [Enter(c)])[..|es|] == es;
  }

  /** The flag says exactly that a delete is open or has been answered; so a caller that is told the VLAN is
      deleted already came after another one's delete. */
  lemma {:induction false} FlagMeans(es: seq<Event>)
    ensures var s := Run(false, FRESH, es);
            s.isDeleted <==> exists c: nat :: Open(s, c) || Answered(s, c)
  {
    RunInv(false, es);
    if es != [] {
      FlagMeans(es[..|es| - 1]);
      RunInv(false, es[..|es| - 1]);
      var t, e := Run(false, FRESH, es[..|es| - 1]), es[|es| - 1];
      var u := Step(false, t, e);
      StepOpens(false, t, e);
      if u.isDeleted {
        if t.isDeleted {
          var c: nat :| Open(t, c) || Answered(t, c);
          assert Open(u, c) || Answered(u, c);
        } else {
          assert Open(u, e.c);
        }
      }
    }
  }
}
