/** Rendezvous matching over every interleaving of the threads that use one dispatcher. A registration is two critical
    sections, drawing a number and entering the key in the table; clearing is one, and so is a lookup
    (shared/dispatcher.cc, shared/message.cc). */
module DispatcherRuns {
  import opened Wire
  import opened Dispatching

  /** A request can be registered twice at once: for the response it waits for, and as a periodic request. */
  datatype Slot = Outgoing | Returning

  datatype Reg = Reg(req: nat, slot: Slot)

  datatype Holding = Idle | Drawn(key: Key) | Listed(key: Key)

  datatype Issue = Issue(reg: Reg, key: Key)

  /** `issued` is the history of all registrations; the dispatcher does not store it. */
  datatype State = State(nextSeq: seq<U32>, rendMap: map<Key, nat>, holds: map<Reg, Holding>, issued: seq<Issue>)

  datatype Event =
    | Draw(reg: Reg, op: Byte)
    | Enter(reg: Reg)
    | Clear(reg: Reg)

  function Start(): State {
    State(seq(256, _ => 1), map[], map[], [])
  }

  function Hold(s: State, reg: Reg): Holding {
    if reg in s.holds then s.holds[reg] else Idle
  }

  /** A request registers, enters its key and clears it, in that order. */
  predicate Enabled(s: State, e: Event) {
    match e
    case Draw(reg, _) => Hold(s, reg).Idle?
    case Enter(reg) => Hold(s, reg).Drawn?
    case Clear(reg) => Hold(s, reg).Listed?
  }

  function Step(s: State, e: Event): State
    requires |s.nextSeq| == 256
  {
    if !Enabled(s, e) then s
    else
      match e
      case Draw(reg, op) =>
        var key := Key(op, s.nextSeq[op]);
        s.(nextSeq := s.nextSeq[op := Next(s.nextSeq[op])], holds := s.holds[reg := Drawn(key)],
           issued := s.issued + [Issue(reg, key)])
      case Enter(reg) =>
        var key := Hold(s, reg).key;
        s.(rendMap := s.rendMap[key := reg.req], holds := s.holds[reg := Listed(key)])
      case Clear(reg) =>
        s.(rendMap := s.rendMap - {Hold(s, reg).key}, holds := s.holds[reg := Idle])
  }

  function Run(events: seq<Event>): (s: State)
    ensures |s.nextSeq| == 256
  {
    if events == [] then Start() else Step(Run(events[..|events| - 1]), events[|events| - 1])
  }

  /** How many registrations of an operation there have been. */
  function Count(issued: seq<Issue>, op: Byte): (n: nat)
    ensures n <= |issued|
  {
    if issued == [] then 0
    else Count(issued[..|issued| - 1], op) + if issued[|issued| - 1].key.id == op then 1 else 0
  }

  /** No operation has used up its 2^32 - 1 nonzero numbers. */
  ghost predicate WithinRange(issued: seq<Issue>) {
    forall op: Byte :: Count(issued, op) < SEQS
  }

  // ------------------------------------------------------------- invariant

  /** Numbers come in order from 1, whatever the operation. */
  ghost predicate NumbersInOrder(s: State) {
    && |s.nextSeq| == 256
    && (forall op: Byte :: Key(op, s.nextSeq[op]) == KeyOf(op, Count(s.issued, op)))
    && (forall i :: 0 <= i < |s.issued| ==> 1 <= s.issued[i].key.seqNum <= Count(s.issued, s.issued[i].key.id))
    && (forall i, j :: 0 <= i < j < |s.issued| ==> s.issued[i].key != s.issued[j].key)
  }

  /** Whoever holds a key was issued it. */
  ghost predicate HeldWereIssued(s: State) {
    forall reg :: WasIssued(s, reg)
  }

  predicate WasIssued(s: State, reg: Reg) {
    !Hold(s, reg).Idle? ==> Issue(reg, Hold(s, reg).key) in s.issued
  }

  /** The table lists exactly the entered keys, each with its request. */
  ghost predicate TableIsListed(s: State) {
    && (forall reg :: IsFound(s, reg))
    && (forall k :: k in s.rendMap ==> exists reg :: Hold(s, reg) == Listed(k))
  }

  predicate IsFound(s: State, reg: Reg) {
    Hold(s, reg).Listed? ==> Hold(s, reg).key in s.rendMap && s.rendMap[Hold(s, reg).key] == reg.req
  }

  ghost predicate Sound(s: State) {
    NumbersInOrder(s) && HeldWereIssued(s) && TableIsListed(s)
  }

  lemma HeldDistinct(s: State, a: Reg, b: Reg)
    requires Sound(s) && a != b && !Hold(s, a).Idle? && !Hold(s, b).Idle?
    ensures Hold(s, a).key != Hold(s, b).key
  {
    assert WasIssued(s, a) && WasIssued(s, b);
    var i :| 0 <= i < |s.issued| && s.issued[i] == Issue(a, Hold(s, a).key);
    var j :| 0 <= j < |s.issued| && s.issued[j] == Issue(b, Hold(s, b).key);
    assert i != j;
  }

  lemma CountGrows(issued: seq<Issue>, x: Issue, op: Byte)
    ensures Count(issued + [x], op) == Count(issued, op) + if x.key.id == op then 1 else 0
  {
    assert (issued + [x])[..|issued|] == issued;
  }

  lemma DrawKeepsNumbers(s: State, reg: Reg, op: Byte)
    requires NumbersInOrder(s) && Hold(s, reg).Idle?
    requires WithinRange(Step(s, Draw(reg, op)).issued)
    ensures NumbersInOrder(Step(s, Draw(reg, op)))
  {
    hide Count;
    var t := Step(s, Draw(reg, op));
    var n := |s.issued|;
    var x := t.issued[n];
    assert t.issued == s.issued + [x];
    forall o: Byte
      ensures Count(t.issued, o) == Count(s.issued, o) + if op == o then 1 else 0
    {
      CountGrows(s.issued, x, o);
    }
    assert Count(t.issued, op) < SEQS;
    assert x.key.seqNum == Count(t.issued, op);
    forall o: Byte ensures Key(o, t.nextSeq[o]) == KeyOf(o, Count(t.issued, o)) {
      assert Key(o, s.nextSeq[o]) == KeyOf(o, Count(s.issued, o));
    }
    forall i | 0 <= i < n ensures t.issued[i].key != x.key {
      assert t.issued[i] == s.issued[i];
    }
  }

  lemma DrawKeeps(s: State, reg: Reg, op: Byte)
    requires Sound(s) && Hold(s, reg).Idle? && WithinRange(Step(s, Draw(reg, op)).issued)
    ensures Sound(Step(s, Draw(reg, op)))
  {
    var t := Step(s, Draw(reg, op));
    hide NumbersInOrder, WithinRange;
    DrawKeepsNumbers(s, reg, op);
    forall r ensures WasIssued(t, r) && IsFound(t, r) {
      assert WasIssued(s, r) && IsFound(s, r);
      if r == reg {
        assert t.issued[|s.issued|] == Issue(r, Hold(t, r).key);
      } else {
        assert Hold(t, r) == Hold(s, r);
      }
    }
    forall k | k in t.rendMap ensures exists r :: Hold(t, r) == Listed(k) {
      var r :| Hold(s, r) == Listed(k);
      assert Hold(t, r) == Listed(k);
    }
  }

  lemma EnterKeeps(s: State, reg: Reg)
    requires Sound(s) && Hold(s, reg).Drawn?
    ensures Sound(Step(s, Enter(reg)))
  {
    var t := Step(s, Enter(reg));
    hide NumbersInOrder;
    assert NumbersInOrder(t) by {
      SameNumbers(s, t);
    }
    forall r ensures WasIssued(t, r) && IsFound(t, r) {
      assert WasIssued(s, r) && IsFound(s, r);
      if r != reg {
        assert Hold(t, r) == Hold(s, r);
        if !Hold(s, r).Idle? {
          HeldDistinct(s, r, reg);
        }
      }
    }
    forall k | k in t.rendMap ensures exists r :: Hold(t, r) == Listed(k) {
      if k == Hold(t, reg).key {
        assert Hold(t, reg) == Listed(k);
      } else {
        var r :| Hold(s, r) == Listed(k);
        assert Hold(t, r) == Listed(k);
      }
    }
  }

  lemma SameNumbers(s: State, t: State)
    requires NumbersInOrder(s) && t.nextSeq == s.nextSeq && t.issued == s.issued
    ensures NumbersInOrder(t)
  {
  }

  lemma ClearKeeps(s: State, reg: Reg)
    requires Sound(s) && Hold(s, reg).Listed?
    ensures Sound(Step(s, Clear(reg)))
  {
    var t := Step(s, Clear(reg));
    hide NumbersInOrder;
    assert NumbersInOrder(t) by {
      SameNumbers(s, t);
    }
    forall r ensures WasIssued(t, r) && IsFound(t, r) {
      assert WasIssued(s, r) && IsFound(s, r);
      if r != reg {
        assert Hold(t, r) == Hold(s, r);
        if !Hold(s, r).Idle? {
          HeldDistinct(s, r, reg);
        }
      }
    }
    forall k | k in t.rendMap ensures exists r :: Hold(t, r) == Listed(k) {
      var r :| Hold(s, r) == Listed(k);
      assert Hold(t, r) == Listed(k);
    }
  }

  lemma StepKeeps(s: State, e: Event)
    requires Sound(s) && WithinRange(Step(s, e).issued)
    ensures Sound(Step(s, e))
  {
    if Enabled(s, e) {
      match e {
        case Draw(reg, op) => DrawKeeps(s, reg, op);
        case Enter(reg) => EnterKeeps(s, reg);
        case Clear(reg) => ClearKeeps(s, reg);
      }
    }
  }

  lemma CountMonotone(events: seq<Event>, op: Byte)
    requires events != []
    ensures Count(Run(events[..|events| - 1]).issued, op) <= Count(Run(events).issued, op)
  {
    var s := Run(events[..|events| - 1]);
    var t := Run(events);
    if t.issued != s.issued {
      CountGrows(s.issued, t.issued[|s.issued|], op);
    }
  }

  lemma {:induction false} RunSound(events: seq<Event>)
    requires WithinRange(Run(events).issued)
    ensures Sound(Run(events))
  {
    if events != [] {
      var before := events[..|events| - 1];
      forall op: Byte ensures Count(Run(before).issued, op) < SEQS {
        CountMonotone(events, op);
      }
      RunSound(before);
      StepKeeps(Run(before), events[|events| - 1]);
    }
  }

  // ------------------------------------------------------------- theorems

  /** In every run in which no operation registers 2^32 times, no two registrations hold the same key at once, and
      none holds the default one. */
  lemma OutstandingKeysDistinct(events: seq<Event>, a: Reg, b: Reg)
    requires WithinRange(Run(events).issued)
    requires !Hold(Run(events), a).Idle? && !Hold(Run(events), b).Idle?
    ensures Hold(Run(events), a).key == Hold(Run(events), b).key <==> a == b
    ensures Hold(Run(events), a).key != Key(0, 0)
  {
    var s := Run(events);
    RunSound(events);
    assert WasIssued(s, a);
    if a != b {
      HeldDistinct(s, a, b);
    }
    var i :| 0 <= i < |s.issued| && s.issued[i] == Issue(a, Hold(s, a).key);
  }

  /** A response to any registration there ever was, however late, is handed to the request that registered, and only
      while that registration stands. */
  lemma LookupFindsRegistrant(events: seq<Event>, n: nat)
    requires WithinRange(Run(events).issued) && n < |Run(events).issued|
    ensures var s := Run(events);
            var x := s.issued[n];
            && (x.key in s.rendMap <==> Hold(s, x.reg) == Listed(x.key))
            && (x.key in s.rendMap ==> s.rendMap[x.key] == x.reg.req)
  {
    var s := Run(events);
    var x := s.issued[n];
    RunSound(events);
    assert IsFound(s, x.reg);
    if x.key in s.rendMap {
      var reg :| Hold(s, reg) == Listed(x.key);
      assert WasIssued(s, reg) && IsFound(s, reg);
      var i :| 0 <= i < |s.issued| && s.issued[i] == Issue(reg, x.key);
      assert i == n;
    }
  }

  /** Nothing is found under a key that was never issued. */
  lemma FoundWereIssued(events: seq<Event>, key: Key)
    requires WithinRange(Run(events).issued) && key in Run(events).rendMap
    ensures exists i :: 0 <= i < |Run(events).issued| && Run(events).issued[i].key == key
  {
    var s := Run(events);
    RunSound(events);
    var reg :| Hold(s, reg) == Listed(key);
    assert WasIssued(s, reg);
    var i :| 0 <= i < |s.issued| && s.issued[i] == Issue(reg, key);
  }

  /** While an operation has a nonzero number left, the one it draws next is in nobody's way: its key is not in the
      table, and nobody who has drawn it has yet to enter it. */
  lemma NextKeyIsFree(events: seq<Event>, op: Byte, reg: Reg)
    requires WithinRange(Run(events).issued) && Count(Run(events).issued, op) < SEQS - 1
    ensures var s := Run(events);
            var next := Key(op, s.nextSeq[op]);
            next !in s.rendMap && (!Hold(s, reg).Idle? ==> Hold(s, reg).key != next)
  {
    var s := Run(events);
    var next := Key(op, s.nextSeq[op]);
    RunSound(events);
    hide Run, HeldWereIssued, TableIsListed, WithinRange;
    assert HeldWereIssued(s) ==> WasIssued(s, reg) by {
      SomeWasIssued(s, reg);
    }
    NextKeyUnissued(s, op);
    if next in s.rendMap {
      FoundWereIssued(events, next);
    }
  }

  lemma SomeWasIssued(s: State, reg: Reg)
    ensures HeldWereIssued(s) ==> WasIssued(s, reg)
  {
  }

  lemma NextKeyUnissued(s: State, op: Byte)
    requires NumbersInOrder(s) && Count(s.issued, op) < SEQS - 1
    ensures forall x :: x in s.issued ==> x.key != Key(op, s.nextSeq[op])
  {
    hide Count;
    var next := Key(op, s.nextSeq[op]);
    assert next.seqNum == Count(s.issued, op) + 1;
    forall x | x in s.issued ensures x.key != next {
      var i :| 0 <= i < |s.issued| && s.issued[i] == x;
      assert s.issued[i].key.seqNum <= Count(s.issued, s.issued[i].key.id);
    }
  }

  /** Clearing takes out exactly the registration's own entry: every other one, the same request's periodic entry
      among them, is still found. */
  lemma ClearRemovesOnlyItsOwn(events: seq<Event>, reg: Reg, other: Reg)
    requires WithinRange(Run(events).issued) && Hold(Run(events), reg).Listed? && other != reg
    ensures var s, t := Run(events), Run(events + [Clear(reg)]);
            && Hold(s, reg).key !in t.rendMap
            && Hold(t, other) == Hold(s, other)
            && (Hold(s, other).Listed? ==> Hold(s, other).key in t.rendMap && t.rendMap[Hold(s, other).key] == other.req)
  {
    var s := Run(events);
    RunSound(events);
    assert (events + [Clear(reg)])[..|events|] == events;
    assert IsFound(s, other);
    if Hold(s, other).Listed? {
      HeldDistinct(s, reg, other);
    }
  }

  /** The key of a registration is given by how many there were of its operation before it. */
  predicate InOrderAt(issued: seq<Issue>, i: nat, op: Byte)
    requires i < |issued|
  {
    issued[i].key.id == op ==> issued[i].key == KeyOf(op, Count(issued[..i], op))
  }

  ghost predicate InOrder(s: State, op: Byte) {
    && |s.nextSeq| == 256
    && Key(op, s.nextSeq[op]) == KeyOf(op, Count(s.issued, op))
    && forall i :: 0 <= i < |s.issued| ==> InOrderAt(s.issued, i, op)
  }

  lemma NumberAfter(op: Byte, n: nat, seqNum: U32)
    requires Key(op, seqNum) == KeyOf(op, n)
    ensures Key(op, Next(seqNum)) == KeyOf(op, n + 1)
  {
  }

  lemma DrawInOrder(s: State, reg: Reg, o: Byte, op: Byte)
    requires InOrder(s, op) && Hold(s, reg).Idle?
    ensures InOrder(Step(s, Draw(reg, o)), op)
  {
    hide Count, KeyOf, Next;
    var t := Step(s, Draw(reg, o));
    var n := |s.issued|;
    assert t.issued == s.issued + [t.issued[n]] && t.issued[..n] == s.issued;
    CountGrows(s.issued, t.issued[n], op);
    NumberAfter(op, Count(s.issued, op), s.nextSeq[op]);
    forall i | 0 <= i <= n ensures InOrderAt(t.issued, i, op) {
      if i < n {
        assert InOrderAt(s.issued, i, op);
        assert t.issued[i] == s.issued[i] && t.issued[..i] == s.issued[..i];
      }
    }
  }

  /** This holds of every run, however long. */
  lemma {:induction false} RunInOrder(events: seq<Event>, op: Byte)
    ensures InOrder(Run(events), op)
  {
    if events != [] {
      var s, e := Run(events[..|events| - 1]), events[|events| - 1];
      RunInOrder(events[..|events| - 1], op);
      if e.Draw? && Enabled(s, e) {
        DrawInOrder(s, e.reg, e.op, op);
      }
    }
  }

  /** So the bound is exact: two registrations of a run get the same key if and only if they are of one operation and
      the numbers of its earlier registrations differ by a multiple of 2^32. */
  lemma SameKeyIff(events: seq<Event>, i: nat, j: nat)
    requires i < |Run(events).issued| && j < |Run(events).issued|
    ensures var issued := Run(events).issued;
            var a, b := issued[i].key, issued[j].key;
            a == b <==> a.id == b.id && (Count(issued[..i], a.id) - Count(issued[..j], b.id)) % 0x1_0000_0000 == 0
  {
    var issued := Run(events).issued;
    var a, b := issued[i].key, issued[j].key;
    RunInOrder(events, a.id);
    RunInOrder(events, b.id);
    assert InOrderAt(issued, i, a.id) && InOrderAt(issued, j, b.id);
    KeysClashIff(a.id, Count(issued[..i], a.id), b.id, Count(issued[..j], b.id));
  }
}
