/** What `session::clear_session` does to the VLAN records and the free list. */
module VlanClearing {
  import opened SwitchCommands
  import opened VlanTable

  /** `p` is `p0` part-way through clearing the VLANs `vs`: each of them either still has some of its
      ports, or is blank and back in the free list; the other VLANs are as they were. */
  ghost predicate Clearing(p0: Pool, p: Pool, vs: seq<VlanId>) {
    && |p.vlans| == |p0.vlans|
    && p0.free <= p.free && NoDup(p.free)
    && (forall v :: v in p.free[|p0.free|..] ==> v in vs)
    && forall v :: InRange(p0, v) ==>
        if v in vs && v in p.free then Rec(p, v) == BLANK
        else if v in vs then Remains(Rec(p0, v), Rec(p, v))
        else Rec(p, v) == Rec(p0, v)
  }

  /** The same VLAN with some ports gone. */
  ghost predicate Remains(was: VlanRec, now: VlanRec) {
    now.inUse == was.inUse && now.sid == was.sid && forall p :: p in now.ports ==> p in was.ports
  }

  /** The VLANs about to be cleared: each once, in use, and not yet free. */
  ghost predicate Clearable(pool: Pool, vs: seq<VlanId>) {
    && NoDup(pool.free) && NoDup(vs)
    && forall v :: v in vs ==> InRange(pool, v) && Rec(pool, v).inUse && v !in pool.free
  }

  /** A VLAN part-way through that still has ports is not back in the free list. */
  lemma StillHeld(p0: Pool, p: Pool, vs: seq<VlanId>, v: VlanId)
    requires Clearable(p0, vs) && Clearing(p0, p, vs) && v in vs && Rec(p, v).ports != []
    ensures v !in p.free && Remains(Rec(p0, v), Rec(p, v))
  {
  }

  /** It goes back to the free list with its last port. */
  lemma LastPortsGo(p0: Pool, p: Pool, vs: seq<VlanId>, v: VlanId)
    requires Clearable(p0, vs) && Clearing(p0, p, vs) && v in vs && v !in p.free
    ensures Clearing(p0, SetRec(p, v, BLANK).(free := p.free + [v]), vs)
  {
    assert (p.free + [v])[|p0.free|..] == p.free[|p0.free|..] + [v];
  }

  lemma SomePortsGo(p0: Pool, p: Pool, vs: seq<VlanId>, v: VlanId, rest: seq<SwitchPort>)
    requires Clearable(p0, vs) && Clearing(p0, p, vs) && v in vs && v !in p.free
    requires forall q :: q in rest ==> q in Rec(p, v).ports
    ensures Clearing(p0, SetRec(p, v, Rec(p, v).(ports := rest)), vs)
  {
  }

  lemma ClearOnStep(p0: Pool, p: Pool, vs: seq<VlanId>, v: VlanId, s: SwitchId)
    requires Clearable(p0, vs) && Clearing(p0, p, vs) && v in vs
    ensures var q := ClearOn(p, v, s);
            && Clearing(p0, q, vs)
            && PortsOn(Rec(q, v).ports, s) == []
            && forall w :: InRange(p0, w) && w != v ==> Rec(q, w) == Rec(p, w)
  {
    var on := PortsOn(Rec(p, v).ports, s);
    var rest := PortsOff(Rec(p, v).ports, s);
    if on != [] {
      First(on);
      StillHeld(p0, p, vs, v);
      if PortsOn(rest, s) != [] {
        First(PortsOn(rest, s));
      }
      assert |p.vlans| == |p0.vlans|;
      hide Clearing, Clearable;
      if rest == [] {
        LastPortsGo(p0, p, vs, v);
      } else {
        SomePortsGo(p0, p, vs, v, rest);
      }
    }
  }

  lemma ClearIfEmptyStep(p0: Pool, p: Pool, vs: seq<VlanId>, v: VlanId)
    requires Clearable(p0, vs) && Clearing(p0, p, vs) && v in vs && Rec(p, v).ports == []
    ensures var q := ClearIfEmpty(p, v);
            && Clearing(p0, q, vs)
            && v in q.free
            && p.free <= q.free
            && forall w :: InRange(p0, w) && w != v ==> Rec(q, w) == Rec(p, w)
  {
    if Rec(p, v).inUse {
      assert v !in p.free;
      assert (p.free + [v])[|p0.free|..] == p.free[|p0.free|..] + [v];
    } else {
      assert v in p.free;
    }
  }

  lemma First<T>(s: seq<T>)
    requires s != []
    ensures s[0] in s
  {
  }

  /** No VLAN of `vs` has a port left on the switches `sws`. */
  ghost predicate Gone(p: Pool, vs: seq<VlanId>, sws: seq<SwitchId>) {
    forall v, s :: v in vs && s in sws && InRange(p, v) ==> PortsOn(Rec(p, v).ports, s) == []
  }

  lemma FewerPortsOn(was: seq<SwitchPort>, now: seq<SwitchPort>, s: SwitchId)
    requires PortsOn(was, s) == []
    requires forall p :: p in now ==> p in was
    ensures PortsOn(now, s) == []
  {
    if PortsOn(now, s) != [] {
      First(PortsOn(now, s));
    }
  }

  lemma {:induction false} ClearVlansOnStep(p0: Pool, p: Pool, vs: seq<VlanId>, part: seq<VlanId>, s: SwitchId)
    requires Clearable(p0, vs) && Clearing(p0, p, vs) && forall v :: v in part ==> v in vs
    ensures var q := ClearVlansOn(p, part, s);
            && Clearing(p0, q, vs)
            && (forall v :: v in part ==> PortsOn(Rec(q, v).ports, s) == [])
            && forall w :: InRange(p0, w) ==> forall x :: x in Rec(q, w).ports ==> x in Rec(p, w).ports
  {
    if part != [] {
      var init, v := part[..|part| - 1], part[|part| - 1];
      assert part == init + [v];
      ClearVlansOnStep(p0, p, vs, init, s);
      var mid := ClearVlansOn(p, init, s);
      ClearOnStep(p0, mid, vs, v, s);
    }
  }

  lemma {:induction false} ClearSwitchesStep(p0: Pool, vs: seq<VlanId>, sws: seq<SwitchId>)
    requires Clearable(p0, vs)
    ensures var q := ClearSwitches(p0, vs, sws);
            Clearing(p0, q, vs) && Gone(q, vs, sws)
  {
    if sws != [] {
      var init, s := sws[..|sws| - 1], sws[|sws| - 1];
      assert sws == init + [s];
      ClearSwitchesStep(p0, vs, init);
      var mid := ClearSwitches(p0, vs, init);
      ClearVlansOnStep(p0, mid, vs, vs, s);
      var q := ClearVlansOn(mid, vs, s);
      forall v, r | v in vs && r in sws
        ensures PortsOn(Rec(q, v).ports, r) == []
      {
        if r != s {
          FewerPortsOn(Rec(mid, v).ports, Rec(q, v).ports, r);
        }
      }
    }
  }

  lemma {:induction false} ClearEmptiesStep(p0: Pool, p: Pool, vs: seq<VlanId>, part: seq<VlanId>)
    requires Clearable(p0, vs) && Clearing(p0, p, vs) && forall v :: v in part ==> v in vs
    requires forall v :: v in vs ==> Rec(p, v).ports == []
    ensures var q := ClearEmpties(p, part);
            && Clearing(p0, q, vs)
            && (forall v :: v in vs ==> Rec(q, v).ports == [])
            && forall v :: v in part ==> v in q.free
  {
    if part != [] {
      var init, v := part[..|part| - 1], part[|part| - 1];
      assert part == init + [v];
      ClearEmptiesStep(p0, p, vs, init);
      ClearIfEmptyStep(p0, ClearEmpties(p, init), vs, v);
    }
  }

  /** For a session whose lists have no repetition, moving the active VLANs over appends them. */
  lemma {:induction false} MergeIsHeld(removed: seq<VlanId>, active: seq<VlanId>)
    requires NoDup(removed + active)
    ensures Merge(removed, active) == removed + active
  {
    if active == [] {
      assert removed + active == removed;
    } else {
      var init, v := active[..|active| - 1], active[|active| - 1];
      assert removed + active == removed + init + [v];
      assert NoDup(removed + init) by {
        assert removed + init == (removed + active)[..|removed| + |init|];
      }
      MergeIsHeld(removed, init);
      assert forall j :: 0 <= j < |removed + init| ==> (removed + init)[j] == (removed + active)[j];
      assert (removed + active)[|removed + init|] == v;
    }
  }

  /** Clearing a session blanks and frees every VLAN it holds, each once, and nothing else. */
  lemma ClearPoolMeans(pool: Pool, s: SessionRec)
    requires PoolInv(pool) && ListsInv(pool, s)
    ensures var q := ClearPool(pool, s);
            && |q.vlans| == |pool.vlans|
            && pool.free <= q.free && NoDup(q.free)
            && (forall v :: v in q.free[|pool.free|..] <==> v in Held(s))
            && forall v :: InRange(pool, v) ==> Rec(q, v) == if v in Held(s) then BLANK else Rec(pool, v)
  {
    var vs := Held(s);
    MergeIsHeld(s.removed, s.active);
    ClearSwitchesStep(pool, vs, s.switches);
    var mid := ClearSwitches(pool, vs, s.switches);
    forall v | v in vs
      ensures Rec(mid, v).ports == []
    {
      if Rec(mid, v).ports != [] {
        First(Rec(mid, v).ports);
      }
    }
    ClearEmptiesStep(pool, mid, vs, vs);
    var q := ClearEmpties(mid, vs);
    forall v | v in vs
      ensures v in q.free[|pool.free|..]
    {
      assert v in q.free && v !in pool.free;
      assert q.free == pool.free + q.free[|pool.free|..];
    }
  }
}
