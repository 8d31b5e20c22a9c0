/** Time arithmetic and the loop that handles a periodic request (shared/util.cc, shared/nccp_connection.cc,
    shared/message.cc). Seconds and nanoseconds are unbounded here. */
module Timespecs {
  import opened Wire

  const NANOS := 1_000_000_000

  datatype Timespec = Timespec(sec: int, nsec: int)

  /** The same time in nanoseconds. */
  function Ns(t: Timespec): int {
    t.sec * NANOS + t.nsec
  }

  predicate Normal(t: Timespec) {
    0 <= t.nsec < NANOS
  }

  /** The normalised time of that many nanoseconds. */
  function OfNs(n: int): (t: Timespec)
    ensures Normal(t) && Ns(t) == n
  {
    Timespec(n / NANOS, n % NANOS)
  }

  lemma OneNormalForm(a: Timespec, b: Timespec)
    requires Normal(a) && Normal(b)
    ensures a == b <==> Ns(a) == Ns(b)
  {
  }

  /** A sum of fields after the one carry that `timespec_add` makes. */
  function Carried(sec: int, nsec: int): Timespec {
    if nsec >= NANOS then Timespec(sec + 1, nsec - NANOS) else Timespec(sec, nsec)
  }

  /** Exact whatever the inputs; normalised inputs give a normalised result. */
  method TimespecAdd(t1: Timespec, t2: Timespec) returns (result: Timespec)
    ensures Ns(result) == Ns(t1) + Ns(t2) && result == Carried(t1.sec + t2.sec, t1.nsec + t2.nsec)
    ensures Normal(t1) && Normal(t2) ==> result == OfNs(Ns(t1) + Ns(t2))
  {
    var sec, nsec := t1.sec + t2.sec, t1.nsec + t2.nsec;
    if nsec >= NANOS {
      sec := sec + 1;
      nsec := nsec - NANOS;
    }
    result := Timespec(sec, nsec);
  }

  /** Exact whatever the inputs and whatever the sign; for normalised inputs the result is normalised, and the answer
      is whether `t1` is no earlier than `t2`. */
  method TimespecDiff(t1: Timespec, t2: Timespec) returns (result: Timespec, notEarlier: bool)
    ensures Ns(result) == Ns(t1) - Ns(t2)
    ensures Normal(t1) && Normal(t2) ==>
              result == OfNs(Ns(t1) - Ns(t2)) && (notEarlier <==> Ns(t1) >= Ns(t2))
  {
    var sec, nsec;
    if t1.sec == t2.sec {
      sec, nsec := 0, t1.nsec - t2.nsec;
      notEarlier := true;
      if nsec < 0 {
        sec := sec - 1;
        nsec := NANOS + nsec;
        notEarlier := false;
      }
    } else if t1.sec < t2.sec {
      sec := t1.sec - t2.sec + 1;
      nsec := -1 * (NANOS - t1.nsec + t2.nsec);
      if nsec <= -NANOS {
        sec := sec - 1;
        nsec := nsec + NANOS;
      }
      if nsec < 0 {
        sec := sec - 1;
        nsec := NANOS + nsec;
      }
      notEarlier := false;
    } else {
      sec := t1.sec - t2.sec - 1;
      nsec := t1.nsec + NANOS - t2.nsec;
      if nsec >= NANOS {
        sec := sec + 1;
        nsec := nsec - NANOS;
      }
      notEarlier := true;
    }
    result := Timespec(sec, nsec);
  }

  /** Taking away what was added gives back the same time, to the field. */
  method DiffUndoesAdd(t1: Timespec, t2: Timespec) returns (result: Timespec, notEarlier: bool)
    requires Normal(t1) && Normal(t2)
    ensures result == t1 && (notEarlier <==> Ns(t1) >= 0)
  {
    var sum := TimespecAdd(t1, t2);
    result, notEarlier := TimespecDiff(sum, t2);
    OneNormalForm(result, t1);
  }

  // ------------------------------------------------------------- the periodic loop

  /** The period of a request, from the microseconds it travels with. */
  function PeriodOf(p: Period): Timespec {
    Timespec(p.sec, p.usec * 1000)
  }

  /** Exactly the periods of at most a million microseconds beside their seconds keep every deadline normalised; for any
      larger one some normalised time, 999999999 nanoseconds past the second, is followed by one that is not. */
  lemma DeadlinesStayNormalIff(p: Period)
    ensures p.usec <= 1_000_000 <==>
            forall last: Timespec :: Normal(last) ==> Normal(Carried(last.sec + p.sec, last.nsec + p.usec * 1000))
  {
    var last := Timespec(0, NANOS - 1);
    if p.usec > 1_000_000 {
      assert Normal(last) && !Normal(Carried(last.sec + p.sec, last.nsec + p.usec * 1000));
    }
  }

  /** One round: what the clock says before and after the handler, whether the request is stopped by then, and whether
      the sleep fails for good. */
  datatype Round = Round(now: Timespec, done: Timespec, stopped: bool, sleepFails: bool)

  predicate ClocksNormal(rounds: seq<Round>) {
    forall k :: 0 <= k < |rounds| ==> Normal(rounds[k].now) && Normal(rounds[k].done)
  }

  /** `deadline` is `n` periods after `start`. */
  predicate IsDeadline(deadline: Timespec, start: Timespec, period: Period, n: nat) {
    Ns(deadline) == Ns(start) + n * (period.sec * 1_000_000_000 + period.usec * 1000)
  }

  /** The sleep lasts from when the handler was done to the deadline, if that is still to come. */
  predicate SleepsUntil(sleep: Timespec, done: Timespec, deadline: Timespec) {
    Normal(sleep) && Ns(sleep) == if Ns(done) <= Ns(deadline) then Ns(deadline) - Ns(done) else 0
  }

  lemma NextDeadline(last: Timespec, next: Timespec, start: Timespec, period: Period, n: nat)
    requires IsDeadline(last, start, period, n)
    requires Ns(next) == Ns(last) + period.sec * 1_000_000_000 + period.usec * 1000
    ensures IsDeadline(next, start, period, n + 1)
  {
  }

  /** The arithmetic of one round. */
  method FireTime(last: Timespec, ghost start: Timespec, period: Period, ghost n: nat) returns (next: Timespec)
    requires IsDeadline(last, start, period, n)
    ensures IsDeadline(next, start, period, n + 1)
    ensures Normal(last) && period.usec <= 1_000_000 ==> Normal(next)
  {
    next := TimespecAdd(last, PeriodOf(period));
    NextDeadline(last, next, start, period, n);
  }

  method SleepTime(next: Timespec, done: Timespec) returns (sleep: Timespec, inTime: bool)
    ensures Normal(next) && Normal(done) ==> SleepsUntil(if inTime then sleep else Timespec(0, 0), done, next)
  {
    sleep, inTime := TimespecDiff(next, done);
  }

  /** The `n`th deadline is the start plus `n` periods, however long the handlers take, and after a handler that is
      done in time the loop sleeps exactly until the deadline; after one that is late it does not sleep at all. For a
      period of more than a million microseconds beside its seconds only the deadlines are promised. The loop goes on until
      the request is stopped or a sleep fails. */
  method HandlePeriodic(period: Period, rounds: seq<Round>) returns (deadlines: seq<Timespec>, sleeps: seq<Timespec>)
    requires ClocksNormal(rounds)
    ensures |deadlines| == |sleeps| <= |rounds|
    ensures forall k :: 0 <= k < |deadlines| ==>
              Ns(deadlines[k]) == Ns(rounds[0].now) + (k + 1) * (period.sec * 1_000_000_000 + period.usec * 1000)
    ensures period.usec <= 1_000_000 ==>
              forall k :: 0 <= k < |deadlines| ==> SleepsUntil(sleeps[k], rounds[k].done, deadlines[k])
    ensures rounds != [] ==> deadlines != []
    ensures forall k :: 0 <= k < |deadlines| - 1 ==> !rounds[k].stopped
    ensures 0 < |deadlines| < |rounds| ==> rounds[|deadlines| - 1].stopped || rounds[|deadlines| - 1].sleepFails
  {
    hide Ns, PeriodOf, OfNs, SleepsUntil;
    deadlines, sleeps := [], [];
    var stopped := false;
    var lastFireTime := Timespec(0, 0);
    while |deadlines| < |rounds| && !stopped
      invariant |deadlines| == |sleeps| <= |rounds|
      invariant deadlines != [] ==> lastFireTime == deadlines[|deadlines| - 1]
      invariant deadlines != [] && period.usec <= 1_000_000 ==> Normal(lastFireTime)
      invariant forall k :: 0 <= k < |deadlines| ==> IsDeadline(deadlines[k], rounds[0].now, period, k + 1)
      invariant period.usec <= 1_000_000 ==>
                  forall k :: 0 <= k < |deadlines| ==> SleepsUntil(sleeps[k], rounds[k].done, deadlines[k])
      invariant forall k :: 0 <= k < |deadlines| - 1 ==> !rounds[k].stopped
      invariant stopped <==> deadlines != [] && rounds[|deadlines| - 1].stopped
    {
      var round := rounds[|deadlines|];
      var nextFireTime;
      if deadlines == [] {
        StartIsDeadline(round.now, period);
        nextFireTime := FireTime(round.now, rounds[0].now, period, 0);
      } else {
        nextFireTime := FireTime(lastFireTime, rounds[0].now, period, |deadlines|);
      }
      lastFireTime := nextFireTime;
      stopped := round.stopped;
      var sleepTime, inTime := SleepTime(nextFireTime, round.done);
      deadlines := deadlines + [nextFireTime];
      sleeps := sleeps + [if inTime then sleepTime else Timespec(0, 0)];
      if inTime && round.sleepFails {
        return;
      }
    }
  }

  lemma StartIsDeadline(start: Timespec, period: Period)
    ensures IsDeadline(start, start, period, 0)
  {
  }
}
