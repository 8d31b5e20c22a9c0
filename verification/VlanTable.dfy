/** The bookkeeping of nmd/nmd_types.cc on values: the VLAN records, the list of free ids and
    the sessions, the effect of each request on them, and what every run of requests keeps. */
module VlanTable {
  import opened Lists
  import opened SwitchCommands

  // ------------------------------------------------------------- state

  /** `vlan`: a record of the table; its id is its position plus 2. */
  datatype VlanRec = VlanRec(inUse: bool, sid: string, ports: seq<SwitchPort>)

  const BLANK := VlanRec(false, "", [])

  datatype Pool = Pool(vlans: seq<VlanRec>, free: seq<VlanId>)

  /** `session`. */
  datatype SessionRec = SessionRec(sid: string, switches: seq<SwitchId>, active: seq<VlanId>,
                                   removed: seq<VlanId>, cleared: bool)

  /** `vlan_set`. */
  datatype Table = Table(pool: Pool, sessions: seq<SessionRec>)

  predicate NoDup<T(==)>(s: seq<T>) {
    forall i, j :: 0 <= i < j < |s| ==> s[i] != s[j]
  }

  predicate InRange(pool: Pool, v: VlanId) {
    2 <= v < 2 + |pool.vlans|
  }

  function Rec(pool: Pool, v: VlanId): VlanRec
    requires InRange(pool, v)
  {
    pool.vlans[v - 2]
  }

  function SetRec(pool: Pool, v: VlanId, r: VlanRec): Pool
    requires InRange(pool, v)
  {
    pool.(vlans := pool.vlans[v - 2 := r])
  }

  /** The VLANs a session was given and has not returned to the free list. */
  function Held(s: SessionRec): seq<VlanId> {
    s.removed + s.active
  }

  // ------------------------------------------------------------- requests

  datatype Request =
    | AddVlan(sid: string)
    | AddToVlan(vlan: VlanId, port: SwitchPort, sid: string)
    | DeleteVlan(vlan: VlanId, sid: string)
    | StartSession(sid: string)
    | EndSession(sid: string)

  function InitTable(n: nat): Table {
    Table(Pool(seq(n, _ => BLANK), seq(n, i => i + 2)), [])
  }

  function Push<T(==)>(s: seq<T>, x: T): seq<T> {
    if x in s then s else s + [x]
  }

  /** `vlan_set::get_session`: the position of the first session with this id, or none. */
  function Find(sessions: seq<SessionRec>, sid: string): (k: nat)
    ensures k <= |sessions|
    ensures forall i :: 0 <= i < k ==> sessions[i].sid != sid
    ensures k < |sessions| ==> sessions[k].sid == sid
  {
    if sessions == [] then 0
    else if sessions[0].sid == sid then 0
    else 1 + Find(sessions[1..], sid)
  }

  /** What a failing `add_vlan` leaves in its result. */
  const NO_FREE_VLANS: VlanId := 0xFFFF_FFFF

  /** The id `alloc_vlan` hands out: the oldest free one, when its record is not in use. */
  function Allocated(t: Table): (ids: seq<VlanId>) {
    if t.pool.free == [] || !InRange(t.pool, t.pool.free[0]) || Rec(t.pool, t.pool.free[0]).inUse then []
    else [t.pool.free[0]]
  }

  function WithSession(sessions: seq<SessionRec>, sid: string, v: VlanId): seq<SessionRec> {
    var k := Find(sessions, sid);
    if k < |sessions| then sessions[k := sessions[k].(active := Push(sessions[k].active, v))]
    else sessions + [SessionRec(sid, [], [v], [], false)]
  }

  function StepAdd(t: Table, sid: string): Table {
    if t.pool.free == [] then t
    else
      var v, pool := t.pool.free[0], t.pool.(free := t.pool.free[1..]);
      if Allocated(t) == [] then t.(pool := pool)
      else
        Table(SetRec(pool, v, Rec(pool, v).(inUse := true, sid := sid)), WithSession(t.sessions, sid, v))
  }

  /** `add_to_vlan` does what it is asked only for a VLAN in use by the asking session. */
  predicate MayAddTo(t: Table, v: VlanId, sid: string) {
    Find(t.sessions, sid) < |t.sessions| && InRange(t.pool, v) && Rec(t.pool, v).inUse && Rec(t.pool, v).sid == sid
  }

  function StepAddTo(t: Table, v: VlanId, port: SwitchPort, sid: string): Table {
    if !MayAddTo(t, v, sid) then t
    else
      var k := Find(t.sessions, sid);
      var sess := t.sessions[k];
      Table(SetRec(t.pool, v, Rec(t.pool, v).(ports := Rec(t.pool, v).ports + [port])),
            t.sessions[k := if sess.cleared then sess else sess.(switches := Push(sess.switches, port.switchId))])
  }

  /** The bookkeeping of `vlan::get_clear_vlan_cmd`: the ports on switch `s` go, and a VLAN
      that loses its last port goes back to the free list. */
  function ClearOn(pool: Pool, v: VlanId, s: SwitchId): Pool {
    if !InRange(pool, v) || PortsOn(Rec(pool, v).ports, s) == [] then pool
    else
      var rest := PortsOff(Rec(pool, v).ports, s);
      if rest == [] then SetRec(pool, v, BLANK).(free := Push(pool.free, v))
      else SetRec(pool, v, Rec(pool, v).(ports := rest))
  }

  /** The loop over the removed VLANs, for one switch. */
  function ClearVlansOn(pool: Pool, vs: seq<VlanId>, s: SwitchId): Pool {
    if vs == [] then pool
    else ClearOn(ClearVlansOn(pool, vs[..|vs| - 1], s), vs[|vs| - 1], s)
  }

  /** The loop over the switches. */
  function ClearSwitches(pool: Pool, vs: seq<VlanId>, sws: seq<SwitchId>): Pool {
    if sws == [] then pool
    else ClearVlansOn(ClearSwitches(pool, vs, sws[..|sws| - 1]), vs, sws[|sws| - 1])
  }

  /** `vlan::clear_if_empty`. */
  function ClearIfEmpty(pool: Pool, v: VlanId): Pool {
    if InRange(pool, v) && Rec(pool, v).inUse && Rec(pool, v).ports == [] then
      SetRec(pool, v, BLANK).(free := Push(pool.free, v))
    else pool
  }

  function ClearEmpties(pool: Pool, vs: seq<VlanId>): Pool {
    if vs == [] then pool
    else ClearIfEmpty(ClearEmpties(pool, vs[..|vs| - 1]), vs[|vs| - 1])
  }

  /** `clear_session` first moves the active VLANs it does not find there to the removed ones. */
  function Merge(removed: seq<VlanId>, active: seq<VlanId>): seq<VlanId> {
    if active == [] then removed
    else Push(Merge(removed, active[..|active| - 1]), active[|active| - 1])
  }

  function ClearPool(pool: Pool, sess: SessionRec): Pool {
    var vs := Merge(sess.removed, sess.active);
    ClearEmpties(ClearSwitches(pool, vs, sess.switches), vs)
  }

  function StepEnd(t: Table, sid: string): Table {
    var k := Find(t.sessions, sid);
    if k == |t.sessions| then t
    else
      Table(if t.sessions[k].cleared then t.pool else ClearPool(t.pool, t.sessions[k]), RemoveAt(t.sessions, k))
  }

  function RemoveVlan(sess: SessionRec, v: VlanId): SessionRec {
    if v in sess.active then sess.(active := Without(sess.active, v), removed := sess.removed + [v]) else sess
  }

  function StepDelete(t: Table, v: VlanId, sid: string): Table {
    var k := Find(t.sessions, sid);
    if k == |t.sessions| then t
    else
      var sess := RemoveVlan(t.sessions[k], v);
      var t1 := t.(sessions := t.sessions[k := sess]);
      if sess.active == [] || sess.cleared then StepEnd(t1, sid) else t1
  }

  function Step(t: Table, r: Request): Table {
    match r
    case AddVlan(sid) => StepAdd(t, sid)
    case AddToVlan(v, port, sid) => StepAddTo(t, v, port, sid)
    case DeleteVlan(v, sid) => StepDelete(t, v, sid)
    case StartSession(_) => t
    case EndSession(sid) => StepEnd(t, sid)
  }

  function Run(t: Table, rs: seq<Request>): Table {
    if rs == [] then t else Step(Run(t, rs[..|rs| - 1]), rs[|rs| - 1])
  }

  // ------------------------------------------------------------- the invariant

  /** `v` is listed by session number `k` of the table. */
  predicate ListedBy(t: Table, k: int, v: VlanId) {
    0 <= k < |t.sessions| && v in Held(t.sessions[k])
  }

  /** What a session's lists say is what the records say. */
  ghost predicate ListsInv(pool: Pool, s: SessionRec) {
    && NoDup(Held(s)) && NoDup(s.switches)
    && forall v :: v in Held(s) ==>
        && InRange(pool, v) && Rec(pool, v).inUse && Rec(pool, v).sid == s.sid
        && forall p :: p in Rec(pool, v).ports ==> p.switchId in s.switches
  }

  ghost predicate SessionInv(pool: Pool, s: SessionRec) {
    !s.cleared && s.active != [] && ListsInv(pool, s)
  }

  ghost predicate PoolInv(pool: Pool) {
    && NoDup(pool.free)
    && (forall v :: v in pool.free ==> InRange(pool, v))
    && forall v :: InRange(pool, v) ==>
        && (v in pool.free <==> !Rec(pool, v).inUse)
        && (v in pool.free ==> Rec(pool, v) == BLANK)
  }

  ghost predicate SessionsInv(t: Table) {
    && (forall j, k :: 0 <= j < k < |t.sessions| ==> t.sessions[j].sid != t.sessions[k].sid)
    && forall k :: 0 <= k < |t.sessions| ==> SessionInv(t.pool, t.sessions[k])
  }

  /** Every VLAN in use is on the lists of some session. */
  ghost predicate AllListed(t: Table) {
    forall v :: InRange(t.pool, v) && Rec(t.pool, v).inUse ==> exists k :: ListedBy(t, k, v)
  }

  ghost predicate Inv(t: Table) {
    PoolInv(t.pool) && SessionsInv(t) && AllListed(t)
  }
}
