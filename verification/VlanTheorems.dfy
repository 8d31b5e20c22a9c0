/** The main results about the VLAN table: every id is free or owned exactly once, closing a session
    touches that session only, and ids are reused first in, first out. */
module VlanTheorems {
  import opened Lists
  import opened SwitchCommands
  import opened VlanTable
  import opened VlanClearing
  import opened VlanInvariant

  lemma {:induction false} RunSize(t: Table, rs: seq<Request>)
    requires Inv(t)
    ensures |Run(t, rs).pool.vlans| == |t.pool.vlans|
  {
    if rs != [] {
      RunSize(t, rs[..|rs| - 1]);
      RunInv(t, rs[..|rs| - 1]);
      StepSize(Run(t, rs[..|rs| - 1]), rs[|rs| - 1]);
    }
  }

  lemma StepSize(t: Table, r: Request)
    requires Inv(t)
    ensures |Step(t, r).pool.vlans| == |t.pool.vlans|
  {
    if r.DeleteVlan? || r.EndSession? {
      StepReturns(t, r);
    }
  }

  /** Of the ids 2..n+1, in every state a run of requests reaches, each is either in the free list, blank
      and on no session's lists, or in use and on the lists of exactly one session, the one it records. */
  lemma EveryIdFreeOrOwned(n: nat, rs: seq<Request>, v: VlanId)
    requires 2 <= v <= n + 1
    ensures var t := Run(InitTable(n), rs);
            && InRange(t.pool, v)
            && NoDup(t.pool.free)
            && if v in t.pool.free then
                 Rec(t.pool, v) == BLANK && forall k :: !ListedBy(t, k, v)
               else
                 && Rec(t.pool, v).inUse
                 && exists k :: && ListedBy(t, k, v)
                                && t.sessions[k].sid == Rec(t.pool, v).sid
                                && NoDup(Held(t.sessions[k]))
                                && forall j :: ListedBy(t, j, v) ==> j == k
  {
    InitInv(n);
    RunInv(InitTable(n), rs);
    RunSize(InitTable(n), rs);
    var t := Run(InitTable(n), rs);
    assert InRange(t.pool, v);
    if v in t.pool.free {
      forall k
        ensures !ListedBy(t, k, v)
      {
        if 0 <= k < |t.sessions| {
          assert SessionInv(t.pool, t.sessions[k]);
        }
      }
    } else {
      var k :| ListedBy(t, k, v);
      assert SessionInv(t.pool, t.sessions[k]);
      forall j | ListedBy(t, j, v)
        ensures j == k
      {
        HeldOnce(t, j, k, v);
      }
    }
  }

  // ------------------------------------------------------------- closing a session

  /** The request closes the session: it ends it, or deletes its last active VLAN. */
  predicate Closes(t: Table, r: Request, sid: string) {
    match r
    case EndSession(s) => s == sid && Find(t.sessions, sid) < |t.sessions|
    case DeleteVlan(v, s) =>
      var k := Find(t.sessions, sid);
      s == sid && k < |t.sessions| && RemoveVlan(t.sessions[k], v).active == []
    case _ => false
  }

  /** Which ids a request puts back, in the order in which it does. */
  function Returned(t: Table, r: Request): seq<VlanId> {
    var after := Step(t, r).pool.free;
    if (r.EndSession? || r.DeleteVlan?) && |t.pool.free| <= |after| then after[|t.pool.free|..] else []
  }

  /** Every VLAN the session holds is blank and back in the free list, each once; no other VLAN and
      no other session has changed. */
  ghost predicate Closed(t: Table, t': Table, sid: string) {
    var k := Find(t.sessions, sid);
    && k < |t.sessions|
    && t'.sessions == RemoveAt(t.sessions, k)
    && |t'.pool.vlans| == |t.pool.vlans|
    && t.pool.free <= t'.pool.free && NoDup(t'.pool.free)
    && forall v :: InRange(t.pool, v) ==>
        var mine := Rec(t.pool, v).inUse && Rec(t.pool, v).sid == sid;
        && Rec(t'.pool, v) == (if mine then BLANK else Rec(t.pool, v))
        && (v in t'.pool.free[|t.pool.free|..] <==> mine)
  }

  /** What a session's lists hold is what the records say is its. */
  lemma HeldIsRecorded(t: Table, k: nat, v: VlanId)
    requires Inv(t) && k < |t.sessions| && InRange(t.pool, v)
    ensures v in Held(t.sessions[k]) <==> Rec(t.pool, v).inUse && Rec(t.pool, v).sid == t.sessions[k].sid
  {
    assert SessionInv(t.pool, t.sessions[k]);
    if Rec(t.pool, v).inUse && Rec(t.pool, v).sid == t.sessions[k].sid {
      var j :| ListedBy(t, j, v);
      assert SessionInv(t.pool, t.sessions[j]);
    }
  }

  lemma CloseIsolates(t: Table, r: Request, sid: string)
    requires Inv(t) && Closes(t, r, sid)
    ensures Closed(t, Step(t, r), sid)
  {
    var k := Find(t.sessions, sid);
    var s := t.sessions[k];
    assert SessionInv(t.pool, s);
    var last := if r.DeleteVlan? then RemoveVlan(s, r.vlan) else s;
    if r.DeleteVlan? {
      RemoveVlanKeeps(t.pool, s, r.vlan);
      SameFind(t.sessions, t.sessions[k := last], sid);
      assert RemoveAt(t.sessions[k := last], k) == RemoveAt(t.sessions, k);
    }
    ClearPoolMeans(t.pool, last);
    forall v | InRange(t.pool, v)
      ensures v in Held(last) <==> Rec(t.pool, v).inUse && Rec(t.pool, v).sid == sid
    {
      HeldIsRecorded(t, k, v);
    }
  }

  /** A VLAN stays its session's until a request closes the session. */
  lemma HeldUntilClosed(t: Table, r: Request, v: VlanId)
    requires Inv(t) && InRange(t.pool, v) && Rec(t.pool, v).inUse
    requires !Closes(t, r, Rec(t.pool, v).sid)
    ensures var t' := Step(t, r);
            InRange(t'.pool, v) && Rec(t'.pool, v).inUse && Rec(t'.pool, v).sid == Rec(t.pool, v).sid
  {
    if r.DeleteVlan? || r.EndSession? {
      if Closes(t, r, r.sid) {
        CloseIsolates(t, r, r.sid);
      } else {
        NotClosing(t, r);
      }
    } else if r.AddVlan? {
      AddInv(t, r.sid);
      assert t.pool.free != [] ==> t.pool.free[0] in t.pool.free;
    }
  }

  lemma NotClosing(t: Table, r: Request)
    requires Inv(t) && (r.DeleteVlan? || r.EndSession?) && !Closes(t, r, r.sid)
    ensures Step(t, r).pool == t.pool
  {
    var k := Find(t.sessions, r.sid);
    if k < |t.sessions| {
      assert SessionInv(t.pool, t.sessions[k]);
    }
  }

  // ------------------------------------------------------------- reuse of ids

  lemma StepReturns(t: Table, r: Request)
    requires Inv(t) && (r.DeleteVlan? || r.EndSession?)
    ensures |Step(t, r).pool.vlans| == |t.pool.vlans|
    ensures Step(t, r).pool.free == t.pool.free + Returned(t, r)
  {
    if Closes(t, r, r.sid) {
      CloseIsolates(t, r, r.sid);
    } else {
      NotClosing(t, r);
    }
  }

  /** Which id a request is answered with. */
  function Given(t: Table, r: Request): seq<VlanId> {
    if r.AddVlan? then Allocated(t) else []
  }

  function AllGiven(t: Table, rs: seq<Request>): seq<VlanId> {
    if rs == [] then []
    else AllGiven(t, rs[..|rs| - 1]) + Given(Run(t, rs[..|rs| - 1]), rs[|rs| - 1])
  }

  function AllReturned(t: Table, rs: seq<Request>): seq<VlanId> {
    if rs == [] then []
    else AllReturned(t, rs[..|rs| - 1]) + Returned(Run(t, rs[..|rs| - 1]), rs[|rs| - 1])
  }

  lemma StepConserves(t: Table, r: Request)
    requires Inv(t)
    ensures Given(t, r) + Step(t, r).pool.free == t.pool.free + Returned(t, r)
  {
    if r.AddVlan? {
      AddInv(t, r.sid);
    } else if r.DeleteVlan? || r.EndSession? {
      StepReturns(t, r);
    }
  }

  /** Conservation over a whole run: what was handed out followed by what is free now is what was
      free at first followed by what was put back, in order. */
  lemma {:induction false} RunConserves(t: Table, rs: seq<Request>)
    requires Inv(t)
    ensures AllGiven(t, rs) + Run(t, rs).pool.free == t.pool.free + AllReturned(t, rs)
  {
    if rs != [] {
      var init, r := rs[..|rs| - 1], rs[|rs| - 1];
      RunConserves(t, init);
      RunInv(t, init);
      var mid := Run(t, init);
      StepConserves(mid, r);
      Chain(AllGiven(t, init), Given(mid, r), Step(mid, r).pool.free, mid.pool.free,
            t.pool.free, AllReturned(t, init), Returned(mid, r));
    }
  }

  lemma Chain<T>(a: seq<T>, g: seq<T>, n: seq<T>, m: seq<T>, f: seq<T>, c: seq<T>, d: seq<T>)
    requires a + m == f + c && g + n == m + d
    ensures (a + g) + n == f + (c + d)
  {
    assert (a + g) + n == a + (g + n);
    assert a + (m + d) == (a + m) + d;
    assert (f + c) + d == f + (c + d);
  }

  /** An id that waits behind `k` others is not handed out before those `k` are, in their order. */
  lemma FirstFreedFirstReused(t: Table, rs: seq<Request>, k: nat)
    requires Inv(t) && k < |t.pool.free|
    requires t.pool.free[k] in AllGiven(t, rs)
    ensures k < |AllGiven(t, rs)| && AllGiven(t, rs)[..k + 1] == t.pool.free[..k + 1]
  {
    RunConserves(t, rs);
    InOrder(AllGiven(t, rs), Run(t, rs).pool.free, t.pool.free, AllReturned(t, rs), k);
  }

  /** What is taken from the front of a queue comes in the order of the queue. */
  lemma InOrder<T>(given: seq<T>, left: seq<T>, free: seq<T>, returned: seq<T>, k: nat)
    requires given + left == free + returned && NoDup(free) && k < |free| && free[k] in given
    ensures k < |given| && given[..k + 1] == free[..k + 1]
  {
    var all := given + left;
    var j :| 0 <= j < |given| && given[j] == free[k];
    assert all[j] == free[k] && (j < |free| ==> all[j] == free[j]);
    assert given[..k + 1] == all[..k + 1] && (free + returned)[..k + 1] == free[..k + 1];
  }

  // ------------------------------------------------------------- what a session was given

  /** The ids a session was given in a run, since it was last closed. */
  function GivenSince(t: Table, rs: seq<Request>, sid: string): seq<VlanId> {
    if rs == [] then []
    else
      var init, r := rs[..|rs| - 1], rs[|rs| - 1];
      var before := Run(t, init);
      if Closes(before, r, sid) then []
      else GivenSince(t, init, sid) + if r == AddVlan(sid) then Given(before, r) else []
  }

  predicate IsRecorded(t: Table, v: VlanId, sid: string) {
    InRange(t.pool, v) && Rec(t.pool, v).inUse && Rec(t.pool, v).sid == sid
  }

  /** What one request changes of what a session is recorded to hold. */
  ghost predicate Records(t: Table, r: Request, v: VlanId, sid: string) {
    IsRecorded(Step(t, r), v, sid) <==>
    !Closes(t, r, sid) && (IsRecorded(t, v, sid) || (r == AddVlan(sid) && v in Given(t, r)))
  }

  lemma AddRecords(t: Table, asker: string, v: VlanId, sid: string)
    requires Inv(t)
    ensures Records(t, AddVlan(asker), v, sid)
  {
    AddGivesToAsker(t, asker);
    if t.pool.free != [] {
      assert t.pool.free[0] in t.pool.free && !Rec(t.pool, t.pool.free[0]).inUse;
    }
    hide Inv, Step, Given;
  }

  lemma AddToRecords(t: Table, w: VlanId, port: SwitchPort, asker: string, v: VlanId, sid: string)
    requires Inv(t)
    ensures Records(t, AddToVlan(w, port, asker), v, sid)
  {
    hide Inv, Step, Held;
    AddToReachesOnlyHeld(t, w, port, asker);
  }

  lemma CloseRecords(t: Table, r: Request, v: VlanId, sid: string)
    requires Inv(t) && (r.DeleteVlan? || r.EndSession?)
    ensures Records(t, r, v, sid)
  {
    hide Inv, Step, Find;
    if Closes(t, r, r.sid) {
      CloseIsolates(t, r, r.sid);
    } else {
      NotClosing(t, r);
    }
  }

  lemma StepRecords(t: Table, r: Request, v: VlanId, sid: string)
    requires Inv(t)
    ensures Records(t, r, v, sid)
  {
    match r
    case AddVlan(asker) => AddRecords(t, asker, v, sid);
    case AddToVlan(w, port, asker) => AddToRecords(t, w, port, asker, v, sid);
    case StartSession(_) =>
    case _ => CloseRecords(t, r, v, sid);
  }

  lemma {:induction false} RunRecords(n: nat, rs: seq<Request>, v: VlanId, sid: string)
    ensures IsRecorded(Run(InitTable(n), rs), v, sid) <==> v in GivenSince(InitTable(n), rs, sid)
  {
    if rs != [] {
      var init := rs[..|rs| - 1];
      RunRecords(n, init, v, sid);
      InitInv(n);
      RunInv(InitTable(n), init);
      StepRecords(Run(InitTable(n), init), rs[|rs| - 1], v, sid);
    }
  }

  /** In every state a run reaches, what a session holds is exactly what it was given since it was last closed. So
      closing it, which frees what it holds, frees everything it was ever given. */
  lemma HeldIsAllGiven(n: nat, rs: seq<Request>, k: nat, v: VlanId)
    requires k < |Run(InitTable(n), rs).sessions|
    ensures var t := Run(InitTable(n), rs);
            v in Held(t.sessions[k]) <==> v in GivenSince(InitTable(n), rs, t.sessions[k].sid)
  {
    var t := Run(InitTable(n), rs);
    InitInv(n);
    RunInv(InitTable(n), rs);
    assert SessionInv(t.pool, t.sessions[k]);
    RunRecords(n, rs, v, t.sessions[k].sid);
    if InRange(t.pool, v) {
      HeldIsRecorded(t, k, v);
    }
  }

  // ------------------------------------------------------------- what one request does

  /** An id goes to the session that asks, as the next of its active VLANs and without ports; all else stays. With no
      free id nothing changes at all. */
  lemma AddGivesToAsker(t: Table, sid: string)
    requires Inv(t)
    ensures var t' := Step(t, AddVlan(sid));
            var k := Find(t.sessions, sid);
            if t.pool.free == [] then t' == t && Given(t, AddVlan(sid)) == []
            else
              var v := t.pool.free[0];
              && Given(t, AddVlan(sid)) == [v] && t'.pool.free == t.pool.free[1..]
              && InRange(t.pool, v) && |t'.pool.vlans| == |t.pool.vlans|
              && (forall w :: InRange(t.pool, w) ==>
                    Rec(t'.pool, w) == if w == v then VlanRec(true, sid, []) else Rec(t.pool, w))
              && k < |t'.sessions| && t'.sessions[k].sid == sid
              && (if k < |t.sessions| then t'.sessions[k].active == t.sessions[k].active + [v]
                  else t'.sessions[k].active == [v])
              && (forall j :: 0 <= j < |t.sessions| && j != k ==> t'.sessions[j] == t.sessions[j])
  {
    if t.pool.free != [] {
      var k, v := Find(t.sessions, sid), t.pool.free[0];
      AddInv(t, sid);
      assert v in t.pool.free;
      if k < |t.sessions| {
        HeldIsRecorded(t, k, v);
      }
    }
  }

  /** A port is added exactly when the asking session holds the VLAN: then to that VLAN alone, last, and the port's
      switch is from then on among the session's. */
  lemma AddToReachesOnlyHeld(t: Table, v: VlanId, port: SwitchPort, sid: string)
    requires Inv(t)
    ensures var t' := Step(t, AddToVlan(v, port, sid));
            var k := Find(t.sessions, sid);
            if k < |t.sessions| && v in Held(t.sessions[k]) then
              && InRange(t.pool, v) && |t'.pool.vlans| == |t.pool.vlans| && |t'.sessions| == |t.sessions|
              && (forall w :: InRange(t.pool, w) ==>
                    Rec(t'.pool, w) == if w == v then Rec(t.pool, v).(ports := Rec(t.pool, v).ports + [port])
                                       else Rec(t.pool, w))
              && port.switchId in t'.sessions[k].switches
              && Held(t'.sessions[k]) == Held(t.sessions[k])
              && (forall j :: 0 <= j < |t.sessions| && j != k ==> t'.sessions[j] == t.sessions[j])
            else t' == t
  {
    var k := Find(t.sessions, sid);
    if k < |t.sessions| {
      assert SessionInv(t.pool, t.sessions[k]);
      if InRange(t.pool, v) {
        HeldIsRecorded(t, k, v);
      }
    }
  }

  /** Deleting a VLAN that is not the session's last active one only sets it aside: it stays held, with its ports. */
  lemma DeleteSetsAside(t: Table, v: VlanId, sid: string)
    requires Inv(t) && !Closes(t, DeleteVlan(v, sid), sid)
    ensures var t' := Step(t, DeleteVlan(v, sid));
            var k := Find(t.sessions, sid);
            && t'.pool == t.pool && |t'.sessions| == |t.sessions|
            && (forall j :: 0 <= j < |t.sessions| && j != k ==> t'.sessions[j] == t.sessions[j])
            && (k < |t.sessions| ==>
                  && (forall w :: w in t'.sessions[k].active <==> w in t.sessions[k].active && w != v)
                  && (forall w :: w in Held(t'.sessions[k]) <==> w in Held(t.sessions[k])))
  {
    NotClosing(t, DeleteVlan(v, sid));
    var k := Find(t.sessions, sid);
    if k < |t.sessions| {
      assert SessionInv(t.pool, t.sessions[k]);
    }
  }
}
