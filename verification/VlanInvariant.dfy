/** What every run of requests keeps, and what the free list says about the order of reuse. */
module VlanInvariant {
  import opened Lists
  import opened SwitchCommands
  import opened VlanTable
  import opened VlanClearing

  lemma InitInv(n: nat)
    ensures Inv(InitTable(n))
  {
    var t := InitTable(n);
    forall v | InRange(t.pool, v)
      ensures v in t.pool.free && Rec(t.pool, v) == BLANK
    {
      assert t.pool.free[v - 2] == v;
    }
  }

  /** Two sessions never hold the same VLAN. */
  lemma HeldOnce(t: Table, j: int, k: int, v: VlanId)
    requires SessionsInv(t) && ListedBy(t, j, v) && ListedBy(t, k, v)
    ensures j == k
  {
    assert SessionInv(t.pool, t.sessions[j]) && SessionInv(t.pool, t.sessions[k]);
  }

  lemma NoDupSplit<T>(s: seq<T>, k: nat)
    requires NoDup(s) && k < |s|
    ensures s[k] !in s[..k] && s[k] !in s[k + 1..]
    ensures NoDup(s[..k]) && NoDup(s[k + 1..])
    ensures forall x :: x in s <==> x in s[..k] || x == s[k] || x in s[k + 1..]
  {
    assert s == s[..k] + [s[k]] + s[k + 1..];
  }

  /** Taking the oldest free id into use. */
  lemma AllocPoolInv(pool: Pool, sid: string)
    requires PoolInv(pool) && pool.free != []
    ensures var v := pool.free[0];
            && InRange(pool, v) && Rec(pool, v) == BLANK
            && PoolInv(SetRec(pool.(free := pool.free[1..]), v, BLANK.(inUse := true, sid := sid)))
  {
    var v := pool.free[0];
    NoDupSplit(pool.free, 0);
    assert v in pool.free;
    var q := SetRec(pool.(free := pool.free[1..]), v, BLANK.(inUse := true, sid := sid));
    forall w | w in q.free
      ensures InRange(q, w)
    {
      assert w in pool.free;
    }
    forall w | InRange(q, w)
      ensures w in q.free <==> !Rec(q, w).inUse
      ensures w in q.free ==> Rec(q, w) == BLANK
    {
      assert InRange(pool, w);
    }
  }

  /** A session keeps its invariant when the records it relies on do. */
  lemma SessionKept(p: Pool, q: Pool, s: SessionRec)
    requires SessionInv(p, s) && |p.vlans| == |q.vlans|
    requires forall v :: v in Held(s) && InRange(p, v) ==> Rec(q, v) == Rec(p, v)
    ensures SessionInv(q, s)
  {
  }

  /** The lists still cover the VLANs in use when none shrinks and only `v`, put on one, is new. */
  lemma StillListed(t: Table, t': Table, v: VlanId, k: nat)
    requires AllListed(t) && |t'.pool.vlans| == |t.pool.vlans| && |t.sessions| <= |t'.sessions|
    requires forall w :: InRange(t.pool, w) && w != v ==> Rec(t'.pool, w).inUse == Rec(t.pool, w).inUse
    requires forall j, w :: ListedBy(t, j, w) ==> ListedBy(t', j, w)
    requires ListedBy(t', k, v)
    ensures AllListed(t')
  {
    forall w | InRange(t'.pool, w) && Rec(t'.pool, w).inUse
      ensures exists j :: ListedBy(t', j, w)
    {
      assert InRange(t.pool, w);
      if w == v {
        assert ListedBy(t', k, v);
      } else {
        var j :| ListedBy(t, j, w);
        assert ListedBy(t', j, w);
      }
    }
  }

  lemma AddSessionsInv(t: Table, sid: string)
    requires Inv(t) && t.pool.free != []
    requires Allocated(t) == [t.pool.free[0]] && Rec(t.pool, t.pool.free[0]) == BLANK
    ensures SessionsInv(StepAdd(t, sid))
  {
    var v, t', k := t.pool.free[0], StepAdd(t, sid), Find(t.sessions, sid);
    forall j | 0 <= j < |t'.sessions|
      ensures SessionInv(t'.pool, t'.sessions[j])
    {
      if j < |t.sessions| {
        assert SessionInv(t.pool, t.sessions[j]);
        assert v !in Held(t.sessions[j]);
        SessionKept(t.pool, t'.pool, t.sessions[j]);
        if j == k {
          assert Held(t'.sessions[j]) == Held(t.sessions[j]) + [v];
        }
      } else {
        assert Held(t'.sessions[j]) == [v];
      }
    }
  }

  lemma AddInv(t: Table, sid: string)
    requires Inv(t)
    ensures Inv(StepAdd(t, sid))
    ensures t.pool.free != [] ==> Allocated(t) == [t.pool.free[0]]
  {
    if t.pool.free != [] {
      AllocPoolInv(t.pool, sid);
      AddSessionsInv(t, sid);
      StillListed(t, StepAdd(t, sid), t.pool.free[0], Find(t.sessions, sid));
    }
  }

  lemma AddToSessionsInv(t: Table, v: VlanId, port: SwitchPort, sid: string)
    requires Inv(t) && MayAddTo(t, v, sid)
    ensures ListedBy(t, Find(t.sessions, sid), v)
    ensures SessionsInv(StepAddTo(t, v, port, sid))
  {
    hide PoolInv;
    var t', k := StepAddTo(t, v, port, sid), Find(t.sessions, sid);
    var holder :| ListedBy(t, holder, v);
    assert SessionInv(t.pool, t.sessions[holder]);
    assert holder == k;
    forall j | 0 <= j < |t'.sessions|
      ensures SessionInv(t'.pool, t'.sessions[j])
    {
      assert SessionInv(t.pool, t.sessions[j]);
      if j != k {
        assert v !in Held(t.sessions[j]);
        SessionKept(t.pool, t'.pool, t.sessions[j]);
      } else {
        assert Held(t'.sessions[j]) == Held(t.sessions[j]);
      }
    }
  }

  lemma AddToInv(t: Table, v: VlanId, port: SwitchPort, sid: string)
    requires Inv(t)
    ensures Inv(StepAddTo(t, v, port, sid))
  {
    if MayAddTo(t, v, sid) {
      var t' := StepAddTo(t, v, port, sid);
      AddToSessionsInv(t, v, port, sid);
      assert forall w :: InRange(t'.pool, w) ==> InRange(t.pool, w);
      StillListed(t, t', v, Find(t.sessions, sid));
    }
  }

  lemma {:induction false} WithoutIs(s: seq<VlanId>, v: VlanId)
    requires NoDup(s)
    ensures NoDup(Without(s, v))
  {
    if s != [] {
      NoDupSplit(s, |s| - 1);
      WithoutIs(s[..|s| - 1], v);
    }
  }

  /** Deleting a VLAN moves it inside what the session holds. */
  lemma RemoveVlanKeeps(pool: Pool, s: SessionRec, v: VlanId)
    requires ListsInv(pool, s)
    ensures ListsInv(pool, RemoveVlan(s, v))
    ensures forall w :: w in Held(RemoveVlan(s, v)) <==> w in Held(s)
  {
    if v in s.active {
      var rest := Without(s.active, v);
      NoDupParts(s.removed, s.active);
      WithoutIs(s.active, v);
      NoDupJoin(s.removed + [v], rest);
    }
  }

  lemma NoDupParts<T>(a: seq<T>, b: seq<T>)
    requires NoDup(a + b)
    ensures NoDup(a) && NoDup(b) && forall x :: !(x in a && x in b)
  {
    forall i, j | 0 <= i < |a| && 0 <= j < |b|
      ensures a[i] != b[j]
    {
      assert (a + b)[i] == a[i] && (a + b)[|a| + j] == b[j];
    }
    forall i, j | 0 <= i < j < |b|
      ensures b[i] != b[j]
    {
      assert (a + b)[|a| + i] == b[i] && (a + b)[|a| + j] == b[j];
    }
    forall i, j | 0 <= i < j < |a|
      ensures a[i] != a[j]
    {
      assert (a + b)[i] == a[i] && (a + b)[j] == a[j];
    }
  }

  lemma NoDupJoin<T>(a: seq<T>, b: seq<T>)
    requires NoDup(a) && NoDup(b) && forall x :: !(x in a && x in b)
    ensures NoDup(a + b)
  {
    forall i, j | 0 <= i < j < |a + b|
      ensures (a + b)[i] != (a + b)[j]
    {
      assert i < |a| ==> (a + b)[i] in a;
      assert j >= |a| ==> (a + b)[j] in b;
    }
  }

  /** Closing the session at position `k`, whose lists are consistent even if its last active
      VLAN has just been deleted. */
  ghost predicate InvBut(t: Table, k: nat) {
    && k < |t.sessions|
    && PoolInv(t.pool)
    && (forall i, j :: 0 <= i < j < |t.sessions| ==> t.sessions[i].sid != t.sessions[j].sid)
    && (forall j :: 0 <= j < |t.sessions| && j != k ==> SessionInv(t.pool, t.sessions[j]))
    && ListsInv(t.pool, t.sessions[k]) && !t.sessions[k].cleared
    && AllListed(t)
  }

  lemma EndInv(t: Table, sid: string)
    requires InvBut(t, Find(t.sessions, sid))
    ensures Inv(StepEnd(t, sid))
  {
    hide ClearPool, Merge, Find;
    var k := Find(t.sessions, sid);
    var t', s := StepEnd(t, sid), t.sessions[k];
    ClearPoolMeans(t.pool, s);
    assert t'.pool.free == t.pool.free + t'.pool.free[|t.pool.free|..];
    forall j | 0 <= j < |t'.sessions|
      ensures SessionInv(t'.pool, t'.sessions[j])
    {
      var i := if j < k then j else j + 1;
      assert t'.sessions[j] == t.sessions[i];
      assert SessionInv(t.pool, t.sessions[i]);
    }
    assert AllListed(t') by {
      EndAllListed(t, sid);
    }
  }

  lemma EndAllListed(t: Table, sid: string)
    requires InvBut(t, Find(t.sessions, sid))
    ensures AllListed(StepEnd(t, sid))
  {
    var k, t' := Find(t.sessions, sid), StepEnd(t, sid);
    ClearPoolMeans(t.pool, t.sessions[k]);
    forall v | InRange(t'.pool, v) && Rec(t'.pool, v).inUse
      ensures exists j :: ListedBy(t', j, v)
    {
      assert InRange(t.pool, v);
      assert Rec(t'.pool, v) == Rec(t.pool, v);
      var i :| ListedBy(t, i, v);
      assert ListedBy(t', if i < k then i else i - 1, v);
    }
  }

  /** A session's lists may be rearranged, as long as they hold the same VLANs. */
  lemma RearrangedInv(t: Table, k: nat, s: SessionRec)
    requires Inv(t) && k < |t.sessions| && s.sid == t.sessions[k].sid && !s.cleared && ListsInv(t.pool, s)
    requires forall w :: w in Held(s) <==> w in Held(t.sessions[k])
    ensures InvBut(t.(sessions := t.sessions[k := s]), k)
    ensures s.active != [] ==> Inv(t.(sessions := t.sessions[k := s]))
  {
    hide ListsInv, PoolInv, Held;
    var t1 := t.(sessions := t.sessions[k := s]);
    forall j, w ensures ListedBy(t1, j, w) <==> ListedBy(t, j, w) {
    }
    forall w | InRange(t1.pool, w) && Rec(t1.pool, w).inUse ensures exists j :: ListedBy(t1, j, w) {
      var j :| ListedBy(t, j, w);
      assert ListedBy(t1, j, w);
    }
  }

  lemma DeleteInv(t: Table, v: VlanId, sid: string)
    requires Inv(t)
    ensures Inv(StepDelete(t, v, sid))
  {
    var k := Find(t.sessions, sid);
    if k < |t.sessions| {
      assert SessionInv(t.pool, t.sessions[k]);
      var s := RemoveVlan(t.sessions[k], v);
      assert s.sid == sid && s.cleared == t.sessions[k].cleared;
      hide StepEnd, RemoveVlan, Inv, InvBut;
      RemoveVlanKeeps(t.pool, t.sessions[k], v);
      SameFind(t.sessions, t.sessions[k := s], sid);
      RearrangedInv(t, k, s);
      if s.active == [] || s.cleared {
        EndInv(t.(sessions := t.sessions[k := s]), sid);
      }
    }
  }

  lemma {:induction false} SameFind(a: seq<SessionRec>, b: seq<SessionRec>, sid: string)
    requires |a| == |b| && forall i :: 0 <= i < |a| ==> a[i].sid == b[i].sid
    ensures Find(a, sid) == Find(b, sid)
  {
  }

  lemma StepInv(t: Table, r: Request)
    requires Inv(t)
    ensures Inv(Step(t, r))
  {
    match r
    case AddVlan(sid) => AddInv(t, sid);
    case AddToVlan(v, port, sid) => AddToInv(t, v, port, sid);
    case DeleteVlan(v, sid) => DeleteInv(t, v, sid);
    case StartSession(_) =>
    case EndSession(sid) =>
      var k := Find(t.sessions, sid);
      if k < |t.sessions| {
        assert SessionInv(t.pool, t.sessions[k]);
        EndInv(t, sid);
      }
  }

  lemma {:induction false} RunInv(t: Table, rs: seq<Request>)
    requires Inv(t)
    ensures Inv(Run(t, rs))
  {
    if rs != [] {
      RunInv(t, rs[..|rs| - 1]);
      StepInv(Run(t, rs[..|rs| - 1]), rs[|rs| - 1]);
    }
  }
}
