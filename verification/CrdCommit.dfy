/** The VLAN part of `session::commit` in crd/onlcrd_session.cc: every connected set of virtual switches gets
    one VLAN, by the recursive walk `set_vlans`, and every link that touches no virtual switch its own. */
module CrdCommit {

  /** `crd_vlan`, shared by pointer; id 0 stands for no VLAN. */
  class CrdVlan {
    const vlanid: nat
    var isDeleted: bool

    constructor (id: nat, isDeleted: bool)
      ensures vlanid == id && this.isDeleted == isDeleted
    {
      vlanid, this.isDeleted := id, isDeleted;
    }
  }

  class CrdComponent {
    const name: string
    const isVgige: bool       // get_type() == "vgige"
    var links: seq<CrdLink>
    var marked: bool
    var vlan: CrdVlan         // of virtual switches only
    var allocVlan: bool

    constructor (name: string, isVgige: bool, noVlan: CrdVlan)
      ensures this.name == name && this.isVgige == isVgige
      ensures links == [] && !marked && vlan == noVlan && !allocVlan
    {
      this.name, this.isVgige := name, isVgige;
      links, marked, vlan, allocVlan := [], false, noVlan, false;
    }

    /** `set_vlan` does nothing on components that are not virtual switches. */
    method SetVlan(v: CrdVlan)
      modifies this`vlan
      ensures vlan == if isVgige then v else old(vlan)
    {
      if isVgige {
        vlan := v;
      }
    }
  }

  class CrdLink {
    const node1: CrdComponent
    const node2: CrdComponent
    var marked: bool
    var linkVlan: CrdVlan
    var allocVlan: bool

    constructor (n1: CrdComponent, n2: CrdComponent, noVlan: CrdVlan)
      ensures node1 == n1 && node2 == n2 && !marked && linkVlan == noVlan && allocVlan
    {
      node1, node2 := n1, n2;
      marked, linkVlan, allocVlan := false, noVlan, true;
    }

    method SetVlan(v: CrdVlan)
      modifies this`linkVlan, this`allocVlan
      ensures linkVlan == v && !allocVlan
    {
      linkVlan, allocVlan := v, false;
    }
  }

  // ------------------------------------------------------------- connected sets of virtual switches

  type Edges = set<(string, string)>

  predicate Adjacent(es: Edges, a: string, b: string) {
    (a, b) in es || (b, a) in es
  }

  /** A walk along links from virtual switch to virtual switch, by name. */
  predicate IsPath(es: Edges, p: seq<string>) {
    p != [] && forall i :: 0 <= i < |p| - 1 ==> Adjacent(es, p[i], p[i + 1])
  }

  predicate Links(es: Edges, p: seq<string>, a: string, b: string) {
    IsPath(es, p) && p[0] == a && p[|p| - 1] == b
  }

  ghost predicate Connected(es: Edges, a: string, b: string) {
    exists p :: Links(es, p, a, b)
  }

  lemma ConnectedSelf(es: Edges, a: string)
    ensures Connected(es, a, a)
  {
    assert Links(es, [a], a, a);
  }

  lemma ConnectedStep(es: Edges, a: string, b: string, c: string)
    requires Adjacent(es, a, b) && Connected(es, b, c)
    ensures Connected(es, a, c)
  {
    var p :| Links(es, p, b, c);
    var q := [a] + p;
    assert forall i :: 0 <= i < |q| - 1 ==> Adjacent(es, q[i], q[i + 1]) by {
      assert forall i :: 1 <= i < |q| - 1 ==> q[i] == p[i - 1] && q[i + 1] == p[i];
    }
    assert Links(es, q, a, c);
  }

  lemma {:induction false} PathTrans(es: Edges, p: seq<string>, c: string)
    requires IsPath(es, p) && Connected(es, p[|p| - 1], c)
    ensures Connected(es, p[0], c)
    decreases |p|
  {
    if |p| > 1 {
      PathTrans(es, p[1..], c);
      ConnectedStep(es, p[0], p[1], c);
    }
  }

  lemma ConnectedTrans(es: Edges, a: string, b: string, c: string)
    requires Connected(es, a, b) && Connected(es, b, c)
    ensures Connected(es, a, c)
  {
    var p :| Links(es, p, a, b);
    PathTrans(es, p, c);
  }

  lemma {:induction false} PathSym(es: Edges, p: seq<string>)
    requires IsPath(es, p)
    ensures Connected(es, p[|p| - 1], p[0])
    decreases |p|
  {
    if |p| == 1 {
      ConnectedSelf(es, p[0]);
    } else {
      PathSym(es, p[1..]);
      ConnectedSelf(es, p[0]);
      ConnectedStep(es, p[1], p[0], p[0]);
      ConnectedTrans(es, p[|p| - 1], p[1], p[0]);
    }
  }

  lemma ConnectedSym(es: Edges, a: string, b: string)
    requires Connected(es, a, b)
    ensures Connected(es, b, a)
  {
    var p :| Links(es, p, a, b);
    PathSym(es, p);
  }

  /** A set of names closed under adjacency contains what is connected to its members. */
  lemma {:induction false} PathStays(es: Edges, p: seq<string>, s: set<string>)
    requires IsPath(es, p) && p[0] in s
    requires forall a, b :: a in s && Adjacent(es, a, b) ==> b in s
    ensures p[|p| - 1] in s
    decreases |p|
  {
    if |p| > 1 {
      assert p[1] in s;
      PathStays(es, p[1..], s);
    }
  }

  // ------------------------------------------------------------- the walk

  class Session {
    const comps: seq<CrdComponent>
    const links: seq<CrdLink>

    /** The components and links as commit() builds them: links join components of the session, each component
        lists its links, and no component shares a virtual switch's name. */
    ghost predicate WellFormed()
      reads comps`links
    {
      && (forall l :: l in links ==> l.node1 in comps && l.node2 in comps && l in l.node1.links && l in l.node2.links)
      && (forall c, l :: c in comps && l in c.links ==> l in links && (c == l.node1 || c == l.node2))
      && (forall c, d :: c in comps && d in comps && c.isVgige && c.name == d.name ==> c == d)
    }

    /** The links between virtual switches. */
    ghost function GetEdges(): Edges {
      set l | l in links && l.node1.isVgige && l.node2.isVgige :: (l.node1.name, l.node2.name)
    }

    ghost predicate Done(c: CrdComponent)
      reads c`links, links`marked
    {
      forall l :: l in c.links && l in links ==> l.marked
    }

    /** A virtual switch at the end of a marked link is marked and has the link's VLAN. */
    ghost predicate Settled(l: CrdLink, c: CrdComponent)
      reads l, c
    {
      c.isVgige ==> c.marked && c.vlan == l.linkVlan
    }

    ghost predicate LinkOk(l: CrdLink)
      reads l, l.node1, l.node2
    {
      l.marked ==> Settled(l, l.node1) && Settled(l, l.node2) && !l.allocVlan && (l.node1.isVgige || l.node2.isVgige)
    }

    ghost predicate Consistent()
      reads comps, links
      requires WellFormed()
    {
      forall l :: l in links ==> LinkOk(l)
    }

    /** Every marked virtual switch has had all its links marked, unless the walk giving out `v` is at it. */
    ghost predicate DoneBut(v: CrdVlan)
      reads comps`links, comps`marked, comps`vlan, links`marked
    {
      forall c :: c in comps && c.isVgige && c.marked ==> Done(c) || c.vlan == v
    }

    /** What a walk from `root` giving out `v` does to a component: a marked one stays as it is, and a newly marked
        virtual switch is finished, has VLAN `v` and is connected to the root. */
    twostate predicate CompStep(root: CrdComponent, v: CrdVlan, c: CrdComponent)
      reads c, links
    {
      && (old(c.marked) ==> c.marked)
      && (if c.isVgige && c.marked && !old(c.marked) then
            c.vlan == v && Connected(GetEdges(), root.name, c.name) && Done(c)
          else c.vlan == old(c.vlan))
    }

    /** A link is left alone, or gets VLAN `v` and both its ends are marked. */
    twostate predicate LinkStep(v: CrdVlan, l: CrdLink)
      reads l, l.node1`marked, l.node2`marked
    {
      if l.marked && !old(l.marked) then l.linkVlan == v && l.node1.marked && l.node2.marked
      else l.marked == old(l.marked) && l.linkVlan == old(l.linkVlan) && l.allocVlan == old(l.allocVlan)
    }

    twostate predicate Walked(root: CrdComponent, v: CrdVlan)
      reads comps, links, set l <- links :: l.node1, set l <- links :: l.node2
    {
      && (forall c :: c in comps ==> CompStep(root, v, c))
      && (forall l :: l in links ==> LinkStep(v, l))
    }

    ghost function Unmarked(): set<CrdComponent>
      reads comps
    {
      set c | c in comps && c.isVgige && !c.marked
    }

    /** Before a walk starts at `comp`, only the link it came along may already lead to it. */
    ghost predicate LinkOkBut(l: CrdLink, comp: CrdComponent, v: CrdVlan)
      reads l, l.node1, l.node2
    {
      l.marked ==>
        && (Settled(l, l.node1) || (l.node1 == comp && l.linkVlan == v))
        && (Settled(l, l.node2) || (l.node2 == comp && l.linkVlan == v))
        && !l.allocVlan && (l.node1.isVgige || l.node2.isVgige)
    }

    /** `set_vlans`. */
    method SetVlans(comp: CrdComponent, v: CrdVlan)
      requires WellFormed()
      requires comp in comps && comp.isVgige && !comp.marked
      requires forall l :: l in links ==> LinkOkBut(l, comp, v)
      requires DoneBut(v)
      modifies comps`marked, comps`vlan, links`marked, links`linkVlan, links`allocVlan
      ensures WellFormed() && Consistent() && DoneBut(v)
      ensures comp.marked && Walked(comp, v)
      decreases Unmarked(), 0
    {
      Enter(comp, v);
      label entered:
      FollowAll(comp, v);
      forall c | c in comps
        ensures CompStep(comp, v, c)
      {
        assert CompStep@entered(comp, v, c);
      }
      forall k | k in links
        ensures LinkStep(v, k)
      {
        assert LinkStep@entered(v, k);
      }
    }

    /** Marks the virtual switch a walk has come to. */
    method Enter(comp: CrdComponent, v: CrdVlan)
      requires WellFormed()
      requires comp in comps && comp.isVgige && !comp.marked
      requires forall l :: l in links ==> LinkOkBut(l, comp, v)
      requires DoneBut(v)
      modifies comp`marked, comp`vlan
      ensures Consistent() && DoneBut(v) && comp.marked && comp.vlan == v
      ensures Connected(GetEdges(), comp.name, comp.name)
      ensures Unmarked() < old(Unmarked())
    {
      comp.marked := true;
      comp.SetVlan(v);
      ConnectedSelf(GetEdges(), comp.name);
      assert forall l :: l in links ==> old(LinkOkBut(l, comp, v)) && LinkOk(l);
      assert comp in old(Unmarked()) && comp !in Unmarked();
    }

    /** The loop of `set_vlans` over the links of the virtual switch. */
    method FollowAll(comp: CrdComponent, v: CrdVlan)
      requires WellFormed() && Consistent() && DoneBut(v)
      requires comp in comps && comp.isVgige && comp.marked && comp.vlan == v
      modifies comps`marked, comps`vlan, links`marked, links`linkVlan, links`allocVlan
      ensures WellFormed() && Consistent() && DoneBut(v)
      ensures Walked(comp, v) && Done(comp)
      decreases Unmarked(), 3
    {
      hide LinkOk, Connected;
      var clinks := comp.links;
      for i := 0 to |clinks|
        invariant clinks == comp.links && WellFormed() && Consistent() && DoneBut(v)
        invariant Walked(comp, v) && Unmarked() <= old(Unmarked())
        invariant forall j :: 0 <= j < i ==> clinks[j].marked
      {
        var l := clinks[i];
        assert l in comp.links && CompStep(comp, v, comp);
        if !l.marked {
          label before:
          FollowLink(comp, l, v);
          forall k | k in links
            ensures LinkStep(v, k) && (old@before(k.marked) ==> k.marked)
          {
            assert LinkStep@before(v, k);
          }
          assert forall j :: 0 <= j < i ==> clinks[j] in comp.links;
          forall c | c in comps
            ensures CompStep(comp, v, c)
          {
            assert CompStep@before(comp, v, c);
          }
        }
      }
    }

    /** The body of the loop of `set_vlans`, for a link not yet marked. */
    method FollowLink(comp: CrdComponent, l: CrdLink, v: CrdVlan)
      requires WellFormed() && Consistent() && DoneBut(v)
      requires comp in comps && comp.isVgige && comp.marked && comp.vlan == v
      requires l in comp.links && !l.marked
      modifies comps`marked, comps`vlan, links`marked, links`linkVlan, links`allocVlan
      ensures WellFormed() && Consistent() && DoneBut(v)
      ensures l.marked && Walked(comp, v)
      ensures Unmarked() <= old(Unmarked())
      decreases Unmarked(), 2
    {
      hide LinkOk, LinkOkBut, Settled, Connected, Adjacent, DoneBut, Consistent;
      assert l in links;
      var otherEnd := MarkLink(comp, l, v);
      label marked:
      if !otherEnd.marked {
        if otherEnd.isVgige {
          FollowTo(comp, otherEnd, v);
        } else {
          MarkPlain(otherEnd, v);
        }
        assert LinkStep@marked(v, l);
        forall c | c in comps
          ensures CompStep(comp, v, c)
        {
          assert CompStep@marked(comp, v, c);
        }
        forall k | k in links
          ensures LinkStep(v, k)
        {
          assert LinkStep@marked(v, k);
        }
      }
    }

    /** Walks on from a neighbour of `comp`: what the walk connects to the neighbour is connected to `comp`. */
    method FollowTo(comp: CrdComponent, otherEnd: CrdComponent, v: CrdVlan)
      requires WellFormed() && DoneBut(v)
      requires otherEnd in comps && otherEnd.isVgige && !otherEnd.marked
      requires forall l :: l in links ==> LinkOkBut(l, otherEnd, v)
      requires Adjacent(GetEdges(), comp.name, otherEnd.name)
      modifies comps`marked, comps`vlan, links`marked, links`linkVlan, links`allocVlan
      ensures WellFormed() && Consistent() && DoneBut(v)
      ensures Walked(comp, v) && otherEnd.marked && Unmarked() <= old(Unmarked())
      decreases Unmarked(), 1
    {
      hide LinkOk, LinkOkBut, Settled, Connected, Adjacent;
      SetVlans(otherEnd, v);
      forall c | c in comps
        ensures CompStep(comp, v, c)
      {
        assert CompStep(otherEnd, v, c);
        if Connected(GetEdges(), otherEnd.name, c.name) {
          ConnectedStep(GetEdges(), comp.name, otherEnd.name, c.name);
        }
      }
    }

    /** Marks a component that is no virtual switch. */
    method MarkPlain(otherEnd: CrdComponent, v: CrdVlan)
      requires WellFormed() && Consistent() && DoneBut(v)
      requires otherEnd in comps && !otherEnd.isVgige
      modifies otherEnd`marked
      ensures WellFormed() && Consistent() && DoneBut(v) && Unmarked() == old(Unmarked())
      ensures otherEnd.marked
    {
      otherEnd.marked := true;
      assert forall l :: l in links ==> old(LinkOk(l)) && LinkOk(l);
    }

    /** Marks a link of `comp` and finds its other end. */
    method MarkLink(comp: CrdComponent, l: CrdLink, v: CrdVlan) returns (otherEnd: CrdComponent)
      requires WellFormed() && Consistent() && DoneBut(v)
      requires comp in comps && comp.isVgige && comp.marked && comp.vlan == v
      requires l in comp.links && !l.marked
      modifies l`marked, l`linkVlan, l`allocVlan
      ensures l.marked && l.linkVlan == v && otherEnd in comps
      ensures DoneBut(v) && forall k :: k in links ==> LinkOkBut(k, otherEnd, v)
      ensures otherEnd.marked || !otherEnd.isVgige ==> Consistent()
      ensures otherEnd.isVgige ==> Adjacent(GetEdges(), comp.name, otherEnd.name)
      ensures (l.node1, l.node2) == (comp, otherEnd) || (l.node1, l.node2) == (otherEnd, comp)
    {
      assert l in links;
      l.marked := true;
      l.SetVlan(v);
      otherEnd := l.node1;
      if otherEnd.name == comp.name {
        otherEnd := l.node2;
      }
      assert forall k :: k in links ==> old(LinkOk(k)) && LinkOkBut(k, otherEnd, v);
    }

    // ----------------------------------------------------------- commit

    /** No component or link has a VLAN yet. */
    ghost predicate Untouched()
      reads comps, links
    {
      && (forall c :: c in comps ==> !c.marked && !c.allocVlan)
      && (forall l :: l in links ==> !l.marked && l.allocVlan && l.linkVlan.vlanid == 0)
    }

    /** `c` is finished, and connected to `root`, the virtual switch that allocated the VLAN they share. */
    ghost predicate HasRoot(issued: set<nat>, c: CrdComponent, root: CrdComponent)
      reads c`links, c`vlan, root`vlan, root`allocVlan, links`marked
    {
      && root in comps && root.allocVlan && root.vlan == c.vlan
      && c.vlan.vlanid in issued && Done(c) && Connected(GetEdges(), root.name, c.name)
    }

    ghost predicate Rooted(issued: set<nat>, c: CrdComponent)
      reads comps`vlan, comps`allocVlan, c`links, c`vlan, c`marked, links`marked
    {
      c.isVgige && c.marked ==> exists root :: root in comps && HasRoot(issued, c, root)
    }

    ghost predicate SoleOwner(c: CrdComponent)
      reads comps`vlan, comps`allocVlan, c`vlan, c`allocVlan, c`marked
    {
      c.allocVlan ==> c.isVgige && c.marked && forall d :: d in comps && d.allocVlan && d.vlan.vlanid == c.vlan.vlanid ==> d == c
    }

    /** Every VLAN issued so far was allocated by one virtual switch, and all switches that have it are connected to it. */
    ghost predicate SwitchesOk(issued: set<nat>)
      reads comps`links, comps`vlan, comps`allocVlan, comps`marked, links`marked
    {
      && (forall c :: c in comps ==> Rooted(issued, c) && SoleOwner(c))
      && (forall v :: v in issued ==> exists c :: c in comps && c.allocVlan && c.vlan.vlanid == v)
    }

    /** Links the walks did not reach still wait for a VLAN. */
    ghost predicate Waiting(l: CrdLink)
      reads l
    {
      !l.marked ==> l.allocVlan && l.linkVlan.vlanid == 0
    }

    ghost predicate AllMarked()
      reads comps`marked
    {
      forall c :: c in comps && c.isVgige ==> c.marked
    }

    ghost predicate AllWaiting()
      reads links
    {
      forall l :: l in links ==> Waiting(l)
    }

    /** The first `n` components are marked if they are virtual switches. */
    ghost predicate MarkedUpTo(n: nat)
      reads comps`marked
      requires n <= |comps|
    {
      forall j :: 0 <= j < n && comps[j].isVgige ==> comps[j].marked
    }

    /** No component or link has changed. */
    twostate predicate Unmoved()
      reads comps, links
    {
      && (forall c :: c in comps ==> c.marked == old(c.marked) && c.vlan == old(c.vlan) && c.allocVlan == old(c.allocVlan))
      && (forall l :: l in links ==>
            l.marked == old(l.marked) && l.linkVlan == old(l.linkVlan) && l.allocVlan == old(l.allocVlan))
    }

    /** One round of the first loop: a VLAN for the connected set of an unmarked virtual switch. */
    method AllocateSet(comp: CrdComponent, manager: SessionManager)
      requires WellFormed() && Consistent() && SwitchesOk(manager.issued) && manager.Valid()
      requires comp in comps && comp.isVgige && !comp.marked
      requires AllWaiting()
      modifies comps`marked, comps`vlan, comps`allocVlan, links`marked, links`linkVlan, links`allocVlan, manager
      ensures WellFormed() && Consistent() && SwitchesOk(manager.issued) && manager.Valid()
      ensures AllWaiting()
      ensures forall c :: c in comps && c.isVgige && old(c.marked) ==> c.marked
      ensures manager.AlwaysAnswers() ==> comp.marked
      ensures manager.Answer(old(manager.asked)) == 0 ==> Unmoved()
    {
      hide WellFormed, Consistent, SwitchesOk, AllWaiting;
      var v := manager.AddVlan();
      if v.vlanid != 0 {
        WalkFrom(comp, v, old(manager.issued));
      }
    }

    /** The walk from a virtual switch that has just been given the new VLAN `v`. */
    method WalkFrom(comp: CrdComponent, v: CrdVlan, ghost issued: set<nat>)
      requires WellFormed() && Consistent() && SwitchesOk(issued) && v.vlanid !in issued
      requires comp in comps && comp.isVgige && !comp.marked
      requires AllWaiting()
      modifies comps`marked, comps`vlan, comps`allocVlan, links`marked, links`linkVlan, links`allocVlan
      ensures WellFormed() && Consistent() && SwitchesOk(issued + {v.vlanid}) && comp.marked
      ensures AllWaiting()
      ensures forall c :: c in comps && old(c.marked) && c.isVgige ==> c.marked
    {
      AllDone(issued);
      TakeAndWalk(comp, v);
      forall c | c in comps
        ensures Rooted(issued + {v.vlanid}, c)
      {
        assert old(Rooted(issued, c)) && CompStep(comp, v, c);
        if c.isVgige && c.marked {
          if old(c.marked) {
            var root :| root in comps && old(HasRoot(issued, c, root));
            assert old(SoleOwner(root)) && CompStep(comp, v, root);
            assert HasRoot(issued + {v.vlanid}, c, root);
          } else {
            assert HasRoot(issued + {v.vlanid}, c, comp);
          }
        }
      }
      forall d | d in comps && d.allocVlan && d != comp
        ensures d.isVgige && d.marked && d.vlan == old(d.vlan) && d.vlan.vlanid in issued
      {
        assert old(SoleOwner(d)) && CompStep(comp, v, d) && old(Rooted(issued, d));
      }
      forall c | c in comps
        ensures SoleOwner(c)
      {
        assert old(SoleOwner(c)) && CompStep(comp, v, c);
      }
      forall w | w in issued
        ensures exists c :: c in comps && c.allocVlan && c.vlan.vlanid == w
      {
        var c :| c in comps && old(c.allocVlan) && old(c.vlan).vlanid == w;
        assert old(SoleOwner(c)) && CompStep(comp, v, c);
      }
    }

    method TakeAndWalk(comp: CrdComponent, v: CrdVlan)
      requires WellFormed() && Consistent() && DoneBut(v)
      requires comp in comps && comp.isVgige && !comp.marked
      requires AllWaiting()
      modifies comps`marked, comps`vlan, comp`allocVlan, links`marked, links`linkVlan, links`allocVlan
      ensures WellFormed() && Consistent() && Walked(comp, v)
      ensures comp.marked && comp.allocVlan
      ensures AllWaiting()
    {
      comp.allocVlan := true;
      assert forall l :: l in links ==> LinkOk(l);
      label before:
      SetVlans(comp, v);
      forall c | c in comps
        ensures CompStep(comp, v, c)
      {
        assert CompStep@before(comp, v, c);
      }
      forall l | l in links
        ensures LinkStep(v, l) && Waiting(l)
      {
        assert LinkStep@before(v, l) && old(Waiting(l));
      }
    }

    lemma AllDone(issued: set<nat>)
      requires WellFormed() && SwitchesOk(issued)
      ensures forall c :: c in comps && c.isVgige && c.marked ==> Done(c) && c.vlan.vlanid in issued
    {
      forall c | c in comps && c.isVgige && c.marked
        ensures Done(c) && c.vlan.vlanid in issued
      {
        assert Rooted(issued, c);
      }
    }

    lemma NothingYet()
      requires WellFormed() && Untouched()
      ensures Consistent() && SwitchesOk({}) && AllWaiting()
    {
      assert forall l :: l in links ==> LinkOk(l);
      assert forall c :: c in comps ==> Rooted({}, c) && SoleOwner(c);
    }

    method AllocateSets(manager: SessionManager)
      requires WellFormed() && Untouched() && manager.Valid() && manager.issued == {}
      modifies comps`marked, comps`vlan, comps`allocVlan, links`marked, links`linkVlan, links`allocVlan, manager
      ensures WellFormed() && Consistent() && SwitchesOk(manager.issued) && manager.Valid()
      ensures AllWaiting()
      ensures manager.AlwaysAnswers() ==> AllMarked()
    {
      NothingYet();
      for i := 0 to |comps|
        invariant WellFormed() && Consistent() && SwitchesOk(manager.issued) && manager.Valid() && AllWaiting()
        invariant manager.AlwaysAnswers() ==> MarkedUpTo(i)
      {
        AllocateNext(i, manager);
      }
    }

    /** The body of the loop. */
    method AllocateNext(i: nat, manager: SessionManager)
      requires WellFormed() && Consistent() && SwitchesOk(manager.issued) && manager.Valid() && AllWaiting()
      requires i < |comps|
      modifies comps`marked, comps`vlan, comps`allocVlan, links`marked, links`linkVlan, links`allocVlan, manager
      ensures WellFormed() && Consistent() && SwitchesOk(manager.issued) && manager.Valid() && AllWaiting()
      ensures manager.AlwaysAnswers() && old(MarkedUpTo(i)) ==> MarkedUpTo(i + 1)
    {
      hide WellFormed, Consistent, SwitchesOk, AllWaiting;
      if !comps[i].marked && comps[i].isVgige {
        AllocateSet(comps[i], manager);
      }
    }

    /** What commit() has given out: the ids `forSets` to virtual switches, the other `issued` ones each to a link
        no walk reached. */
    ghost predicate Committed(forSets: set<nat>, issued: set<nat>)
      reads comps, links
    {
      WellFormed() && Consistent() && SwitchesOk(forSets) && LinksCommitted(forSets, issued)
    }

    ghost predicate LinksCommitted(forSets: set<nat>, issued: set<nat>)
      reads links
    {
      && forSets <= issued && 0 !in issued
      && (forall l :: l in links ==> OwnVlan(l, issued - forSets))
      && (forall l, k :: l in links && k in links && SameOwnVlan(l, k) ==> l == k)
      && (forall v :: v in issued - forSets ==> exists l :: l in links && !l.marked && l.linkVlan.vlanid == v)
    }

    ghost predicate OwnVlan(l: CrdLink, ids: set<nat>)
      reads l
    {
      !l.marked ==> l.allocVlan && (l.linkVlan.vlanid == 0 || l.linkVlan.vlanid in ids)
    }

    ghost predicate SameOwnVlan(l: CrdLink, k: CrdLink)
      reads l, k
    {
      !l.marked && !k.marked && l.linkVlan.vlanid == k.linkVlan.vlanid != 0
    }

    lemma MustAllocate(forSets: set<nat>, issued: set<nat>, l: CrdLink)
      requires Committed(forSets, issued) && l in links && !l.marked
      ensures l.allocVlan
    {
      assert OwnVlan(l, issued - forSets);
    }

    /** `crd_link::allocate_vlan`. */
    method AllocateLink(l: CrdLink, manager: SessionManager, ghost forSets: set<nat>)
      requires Committed(forSets, manager.issued) && manager.Valid() && l in links && !l.marked
      modifies l`linkVlan, manager
      ensures Committed(forSets, manager.issued) && manager.Valid()
      ensures manager.AlwaysAnswers() && !manager.testing ==> l.linkVlan.vlanid != 0
      ensures old(l.linkVlan.vlanid) != 0 ==> l.linkVlan == old(l.linkVlan)
      ensures old(AllMarked()) ==> AllMarked()
    {
      hide Committed, AllMarked, SessionManager.Valid;
      MustAllocate(forSets, manager.issued, l);
      if !manager.testing && l.allocVlan && l.linkVlan.vlanid == 0 {
        var v := manager.AddVlan();
        assert old(AllMarked()) ==> AllMarked();
        TakeVlan(l, v, forSets, old(manager.issued));
      }
    }

    method StoreVlan(l: CrdLink, v: CrdVlan)
      modifies l`linkVlan
      ensures l.linkVlan == v && (old(AllMarked()) ==> AllMarked())
    {
      l.linkVlan := v;
    }

    method TakeVlan(l: CrdLink, v: CrdVlan, ghost forSets: set<nat>, ghost issued: set<nat>)
      requires Committed(forSets, issued) && v.vlanid !in issued
      requires l in links && !l.marked && l.allocVlan && l.linkVlan.vlanid == 0
      modifies l`linkVlan
      ensures Committed(forSets, if v.vlanid != 0 then issued + {v.vlanid} else issued)
      ensures l.linkVlan == v && (old(AllMarked()) ==> AllMarked())
    {
      StoreVlan(l, v);
      ghost var now := if v.vlanid != 0 then issued + {v.vlanid} else issued;
      assert forall k :: k in links ==> old(LinkOk(k)) && LinkOk(k);
      assert forall k :: k in links ==> old(OwnVlan(k, issued - forSets)) && OwnVlan(k, now - forSets);
      forall k, m | k in links && m in links && SameOwnVlan(k, m)
        ensures k == m
      {
        assert k != l && m != l ==> old(SameOwnVlan(k, m));
      }
      forall w | w in now - forSets
        ensures exists k :: k in links && !k.marked && k.linkVlan.vlanid == w
      {
        if w in issued {
          assert w in issued - forSets;
          var k :| k in links && old(!k.marked && k.linkVlan.vlanid == w);
          assert k != l;
        }
      }
    }

    /** The first `n` links have a VLAN. */
    ghost predicate ServedUpTo(n: nat)
      reads links`marked, links`linkVlan
      requires n <= |links|
    {
      forall j :: 0 <= j < n ==> links[j].marked || links[j].linkVlan.vlanid != 0
    }

    /** The second loop: the links no walk reached. */
    method AllocateLinks(manager: SessionManager, ghost forSets: set<nat>)
      requires Committed(forSets, manager.issued) && manager.Valid()
      modifies links`linkVlan, manager
      ensures Committed(forSets, manager.issued) && manager.Valid()
      ensures old(AllMarked()) ==> AllMarked()
      ensures manager.AlwaysAnswers() && !manager.testing ==> ServedUpTo(|links|)
    {
      for i := 0 to |links|
        invariant Committed(forSets, manager.issued) && manager.Valid()
        invariant old(AllMarked()) ==> AllMarked()
        invariant manager.AlwaysAnswers() && !manager.testing ==> ServedUpTo(i)
      {
        AllocateNextLink(i, manager, forSets);
      }
    }

    method AllocateNextLink(i: nat, manager: SessionManager, ghost forSets: set<nat>)
      requires Committed(forSets, manager.issued) && manager.Valid() && i < |links|
      modifies links`linkVlan, manager
      ensures Committed(forSets, manager.issued) && manager.Valid()
      ensures old(AllMarked()) ==> AllMarked()
      ensures manager.AlwaysAnswers() && !manager.testing && old(ServedUpTo(i)) ==> ServedUpTo(i + 1)
    {
      if !links[i].marked {
        AllocateLink(links[i], manager, forSets);
      }
    }

    lemma NoLinksYet(issued: set<nat>)
      requires WellFormed() && Consistent() && SwitchesOk(issued) && 0 !in issued
      requires AllWaiting()
      ensures Committed(issued, issued)
    {
      assert forall l :: l in links ==> Waiting(l) && OwnVlan(l, {});
      assert issued - issued == {};
      assert forall l, k :: l in links && k in links ==> !SameOwnVlan(l, k);
    }

    /** The VLAN part of commit(). */
    method Commit(manager: SessionManager) returns (ghost forSets: set<nat>)
      requires WellFormed() && Untouched() && manager.Valid() && manager.issued == {}
      modifies comps`marked, comps`vlan, comps`allocVlan, links`marked, links`linkVlan, links`allocVlan,
               manager
      ensures Committed(forSets, manager.issued) && manager.Valid()
      ensures manager.AlwaysAnswers() ==> AllMarked()
      ensures manager.AlwaysAnswers() && !manager.testing ==> ServedUpTo(|links|)
    {
      AllocateSets(manager);
      forSets := manager.issued;
      NoLinksYet(forSets);
      AllocateLinks(manager, forSets);
    }

    // ----------------------------------------------------------- what commit() promises

    /** A virtual switch that got a VLAN shares it with exactly the virtual switches it is connected to. */
    lemma SameVlanIffConnected(forSets: set<nat>, c: CrdComponent, d: CrdComponent)
      requires WellFormed() && Consistent() && SwitchesOk(forSets)
      requires c in comps && d in comps && c.isVgige && d.isVgige && c.marked
      ensures Connected(GetEdges(), c.name, d.name) <==> d.marked && c.vlan.vlanid == d.vlan.vlanid
    {
      if Connected(GetEdges(), c.name, d.name) {
        var p :| Links(GetEdges(), p, c.name, d.name);
        var s := set e | e in comps && e.isVgige && e.marked && e.vlan == c.vlan :: e.name;
        SpreadsAlongLinks(forSets, c.vlan, s);
        PathStays(GetEdges(), p, s);
      }
      if d.marked && c.vlan.vlanid == d.vlan.vlanid {
        assert Rooted(forSets, c) && Rooted(forSets, d);
        var r :| r in comps && HasRoot(forSets, c, r);
        var q :| q in comps && HasRoot(forSets, d, q);
        assert SoleOwner(r);
        assert r == q;
        ConnectedSym(GetEdges(), r.name, c.name);
        ConnectedTrans(GetEdges(), c.name, r.name, d.name);
      }
    }

    /** Along a link between virtual switches the VLAN is the same. */
    lemma SpreadsAlongLinks(forSets: set<nat>, v: CrdVlan, s: set<string>)
      requires WellFormed() && Consistent() && SwitchesOk(forSets)
      requires s == set e | e in comps && e.isVgige && e.marked && e.vlan == v :: e.name
      ensures forall a, b :: a in s && Adjacent(GetEdges(), a, b) ==> b in s
    {
      AllDone(forSets);
      forall a, b | a in s && Adjacent(GetEdges(), a, b)
        ensures b in s
      {
        var e :| e in comps && e.isVgige && e.marked && e.vlan == v && e.name == a;
        var l :| l in links && l.node1.isVgige && l.node2.isVgige &&
                 ((l.node1.name == a && l.node2.name == b) || (l.node1.name == b && l.node2.name == a));
        assert LinkOk(l);
        assert l.node1 == e || l.node2 == e;
        assert l in e.links;
      }
    }

    /** Both links touch virtual switches of one connected set that got a VLAN. */
    ghost predicate TouchSameSet(l: CrdLink, k: CrdLink)
      reads comps`marked
    {
      exists c, d :: c in comps && d in comps && JoinedAt(l, k, c, d)
    }

    ghost predicate JoinedAt(l: CrdLink, k: CrdLink, c: CrdComponent, d: CrdComponent)
      reads c`marked
    {
      && c.isVgige && (c == l.node1 || c == l.node2) && c.marked
      && d.isVgige && (d == k.node1 || d == k.node2)
      && Connected(GetEdges(), c.name, d.name)
    }

    /** A link at a virtual switch that got a VLAN has that VLAN. */
    lemma LinkHasSwitchVlan(forSets: set<nat>, l: CrdLink, c: CrdComponent)
      requires WellFormed() && Consistent() && SwitchesOk(forSets)
      requires l in links && c in comps && c.isVgige && c.marked && (c == l.node1 || c == l.node2)
      ensures l.marked && l.linkVlan == c.vlan
    {
      AllDone(forSets);
      assert LinkOk(l);
      assert l in c.links;
    }

    /** Two links carry the same VLAN if and only if they touch the same connected set of virtual switches. */
    lemma SameLinkVlanIff(forSets: set<nat>, issued: set<nat>, l: CrdLink, k: CrdLink)
      requires Committed(forSets, issued) && l in links && k in links && l != k
      requires l.linkVlan.vlanid != 0 && k.linkVlan.vlanid != 0
      ensures l.linkVlan.vlanid == k.linkVlan.vlanid <==> TouchSameSet(l, k)
    {
      AllDone(forSets);
      assert LinkOk(l) && LinkOk(k) && OwnVlan(l, issued - forSets) && OwnVlan(k, issued - forSets);
      if TouchSameSet(l, k) {
        var c, d :| c in comps && d in comps && JoinedAt(l, k, c, d);
        SameVlanIffConnected(forSets, c, d);
        LinkHasSwitchVlan(forSets, l, c);
        LinkHasSwitchVlan(forSets, k, d);
      }
      if l.linkVlan.vlanid == k.linkVlan.vlanid {
        assert !SameOwnVlan(l, k);
        var c := if l.node1.isVgige then l.node1 else l.node2;
        var d := if k.node1.isVgige then k.node1 else k.node2;
        SameVlanIffConnected(forSets, c, d);
        assert JoinedAt(l, k, c, d);
      }
    }

    /** When every request for a VLAN was answered, commit() leaves no link without one. */
    lemma EveryLinkHasVlan(forSets: set<nat>, issued: set<nat>, l: CrdLink)
      requires Committed(forSets, issued) && AllMarked() && ServedUpTo(|links|) && l in links
      ensures l.linkVlan.vlanid in issued && l.linkVlan.vlanid != 0
    {
      AllDone(forSets);
      assert LinkOk(l) && OwnVlan(l, issued - forSets);
      if l.marked {
        var c := if l.node1.isVgige then l.node1 else l.node2;
        LinkHasSwitchVlan(forSets, l, c);
        assert Rooted(forSets, c);
      }
    }

    ghost predicate SwitchOwns(c: CrdComponent, v: nat)
      reads c
    {
      c in comps && c.allocVlan && c.vlan.vlanid == v
    }

    ghost predicate LinkOwns(l: CrdLink, v: nat)
      reads l
    {
      l in links && l.allocVlan && l.linkVlan.vlanid == v
    }

    /** Every VLAN allocated at commit has exactly one owner: the virtual switch its walk started at, or one link. */
    lemma OneOwner(forSets: set<nat>, issued: set<nat>, v: nat)
      requires Committed(forSets, issued) && v in issued
      ensures if v in forSets then
                (exists c :: SwitchOwns(c, v) && forall d :: SwitchOwns(d, v) ==> d == c) && forall l :: !LinkOwns(l, v)
              else
                (exists l :: LinkOwns(l, v) && forall k :: LinkOwns(k, v) ==> k == l) && forall c :: !SwitchOwns(c, v)
    {
      forall l
        ensures LinkOwns(l, v) ==> !l.marked && v !in forSets
      {
        assert l in links ==> LinkOk(l) && OwnVlan(l, issued - forSets);
      }
      forall c
        ensures SwitchOwns(c, v) ==> v in forSets
      {
        assert c in comps ==> SoleOwner(c) && Rooted(forSets, c);
      }
      if v in forSets {
        var c :| c in comps && c.allocVlan && c.vlan.vlanid == v;
        assert SwitchOwns(c, v) && SoleOwner(c);
      } else {
        assert v in issued - forSets;
        var l :| l in links && !l.marked && l.linkVlan.vlanid == v;
        assert OwnVlan(l, issued - forSets);
        assert LinkOwns(l, v);
        forall k | LinkOwns(k, v)
          ensures k == l
        {
          assert SameOwnVlan(k, l);
        }
      }
    }
  }

  /** The part of `session_manager` that asks the network management daemon for VLANs. */
  class SessionManager {
    const testing: bool
    const answer: nat -> nat      // the daemon's answers: the id it allocates, 0 for a failure
    const firstTestVlan: nat
    var testVlan: nat
    var numPortsOnVlan: map<nat, nat>
    var asked: nat
    ghost var issued: set<nat>    // the ids of the VLANs handed to the session

    /** The id of the `i`th VLAN asked for: the daemon's answer or, in testing mode, the next number. */
    function Answer(i: nat): nat {
      if testing then firstTestVlan + i + 1 else answer(i)
    }

    /** The daemon does not hand out an id again while the session commits. */
    ghost predicate Valid()
      reads this
    {
      && (forall i, j :: 0 <= i < j && Answer(i) != 0 ==> Answer(i) != Answer(j))
      && (forall v :: v in issued <==> v != 0 && exists i :: 0 <= i < asked && v == Answer(i))
      && testVlan == (if testing then firstTestVlan + asked else firstTestVlan)
      && issued <= numPortsOnVlan.Keys
    }

    ghost predicate AlwaysAnswers() {
      forall i: nat :: Answer(i) != 0
    }

    /** A VLAN nobody else has, with no ports yet; when the daemon does not allocate one, the null VLAN, which counts
        as deleted. */
    method AddVlan() returns (v: CrdVlan)
      requires Valid()
      modifies `testVlan, `numPortsOnVlan, `asked, `issued
      ensures Valid() && fresh(v)
      ensures v.vlanid == Answer(old(asked)) && asked == old(asked) + 1
      ensures v.vlanid !in old(issued) && v.isDeleted == (v.vlanid == 0)
      ensures issued == if v.vlanid != 0 then old(issued) + {v.vlanid} else old(issued)
      ensures numPortsOnVlan == if v.vlanid != 0 then old(numPortsOnVlan)[v.vlanid := 0] else old(numPortsOnVlan)
    {
      var vlan: nat;
      var index := asked;
      asked := asked + 1;
      if !testing {
        vlan := answer(index);
        if vlan == 0 {
          v := new CrdVlan(0, true);
          return;
        }
      } else {
        testVlan := testVlan + 1;
        vlan := testVlan;
      }
      numPortsOnVlan := numPortsOnVlan[vlan := 0];
      issued := issued + {vlan};
      v := new CrdVlan(vlan, false);
    }
  }
}
