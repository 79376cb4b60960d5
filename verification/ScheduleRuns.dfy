/**
 Whole runs of the scheduler: batched ticks equal single ticks, and every armed timer fires exactly
 at its deadlines.
 */
module ScheduleRuns {
  import opened Schedule
  import opened Words

  // ----- tickn against tick1

  lemma {:induction false} TicksWithinPeriod(h: Handler, s: Sched, n: nat)
    requires Tame(h) && Valid(s) && InRange(s, n) && n < s.countdown
    ensures Ticks(h, s, n) == s.(countdown := s.countdown - n)
    decreases n
  {
    if n > 0 {
      TicksWithinPeriod(h, Tick1(h, s), n - 1);
    }
  }

  lemma {:induction false} TicksSplit(h: Handler, s: Sched, a: nat, b: nat)
    requires Tame(h) && Valid(s) && InRange(s, a + b)
    ensures Ticks(h, s, a + b) == Ticks(h, Ticks(h, s, a), b)
    decreases a
  {
    if a > 0 {
      TicksSplit(h, Tick1(h, s), a - 1, b);
    }
  }

  lemma LastTick(h: Handler, s: Sched)
    requires Tame(h) && Valid(s) && InRange(s, 1) && s.countdown == 1
    ensures Ticks(h, s, 1) == CountdownEvent(h, s.(countdown := 0))
  {
    hide CountdownEvent;
    assert Ticks(h, s, 1) == Ticks(h, Tick1(h, s), 0);
  }

  lemma TicksToEvent(h: Handler, s: Sched)
    requires Tame(h) && Valid(s) && InRange(s, s.countdown)
    ensures Ticks(h, s, s.countdown) == CountdownEvent(h, s.(countdown := 0))
  {
    hide CountdownEvent, Ticks, Tick1;
    var s1 := s.(countdown := 1);
    TicksWithinPeriod(h, s, s.countdown - 1);
    TicksSplit(h, s, s.countdown - 1, 1);
    LastTick(h, s1);
    assert s1.(countdown := 0) == s.(countdown := 0);
  }

  /** tickn(n) reaches the very state, history and device state that n calls of tick1 reach. */
  lemma {:induction false} BatchedTicksAreUnitTicks(h: Handler, s: Sched, n: nat)
    requires Tame(h) && Valid(s) && InRange(s, n)
    ensures TickN(h, s, n) == Ticks(h, s, n)
    ensures Now(TickN(h, s, n)) == Now(s) + n
    decreases n
  {
    hide CountdownEvent, Tick1, Ticks, Now;
    if n >= s.countdown {
      var c := s.countdown;
      BatchedTicksAreUnitTicks(h, CountdownEvent(h, s.(countdown := 0)), n - c);
      TicksToEvent(h, s);
      TicksSplit(h, s, c, n - c);
    } else {
      TicksWithinPeriod(h, s, n);
    }
    ClockIs(s);
    ClockIs(TickN(h, s, n));
  }

  // ----- when timers fire

  /** The times at which slot `i` was called. */
  function Times(trace: seq<Firing>, i: nat): seq<nat> {
    if trace == [] then []
    else (if trace[0].slot == i then [trace[0].time] else []) + Times(trace[1..], i)
  }

  lemma TimesHead(trace: seq<Firing>, i: nat)
    requires trace != []
    ensures Times(trace, i) == (if trace[0].slot == i then [trace[0].time] else []) + Times(trace[1..], i)
  {
  }

  lemma Regroup(a: seq<nat>, b: seq<nat>, c: seq<nat>)
    ensures a + (b + c) == (a + b) + c
  {
  }

  lemma {:induction false} TimesConcat(a: seq<Firing>, b: seq<Firing>, i: nat)
    ensures Times(a + b, i) == Times(a, i) + Times(b, i)
    decreases a
  {
    if a == [] {
      assert a + b == b;
    } else {
      hide Times;
      var head := if a[0].slot == i then [a[0].time] else [];
      assert (a + b)[1..] == a[1..] + b && (a + b)[0] == a[0];
      TimesConcat(a[1..], b, i);
      TimesHead(a + b, i);
      TimesHead(a, i);
      Regroup(head, Times(a[1..], i), Times(b, i));
    }
  }

  lemma {:induction false} TimesOfFirings(triggered: seq<bool>, k: nat, now: nat, i: nat)
    requires k <= |triggered|
    ensures Times(Firings(triggered, k, now), i) == if k <= i < |triggered| && triggered[i] then [now] else []
    decreases |triggered| - k
  {
    if k < |triggered| {
      var head := if triggered[k] then [Firing(k, now)] else [];
      TimesOfFirings(triggered, k + 1, now, i);
      TimesConcat(head, Firings(triggered, k + 1, now), i);
    }
  }

  /** One tick calls a timer exactly when its deadline is the tick being reached, whatever other callbacks do. */
  lemma TickFiresExactlyTheDue(h: Handler, s: Sched, i: nat)
    requires Tame(h) && Valid(s) && InRange(s, 1) && i < s.numTimers
    ensures Times(Tick1(h, s).trace, i)
         == Times(s.trace, i) + if Due(s.timers[i], Clock(s) + 1) then [Clock(s) + 1] else []
  {
    hide CountdownEvent, Valid, Triggered, Firings;
    if s.countdown == 1 {
      var s1 := s.(countdown := 0);
      LastBefore(s);
      LastTick(h, s);
      OneTick(h, s);
      EventFires(h, s1, i);
    } else {
      NotYetDue(h, s, i);
    }
  }

  lemma OneTick(h: Handler, s: Sched)
    requires Tame(h) && Valid(s) && InRange(s, 1)
    ensures Ticks(h, s, 1) == Tick1(h, s)
  {
    hide Tick1;
    assert Ticks(h, s, 1) == Ticks(h, Tick1(h, s), 0);
  }

  /** The state one tick before an event. */
  lemma LastBefore(s: Sched)
    requires Valid(s) && InRange(s, 1) && s.countdown == 1
    ensures var s1 := s.(countdown := 0);
            AtEvent(s1) && Tempered(s1) && InRange(s1, 0) && NextEvent(s1) == Clock(s) + 1 && |s.timers| >= s.numTimers
  {
  }

  lemma EventFires(h: Handler, s: Sched, i: nat)
    requires Tame(h) && AtEvent(s) && Tempered(s) && InRange(s, 0) && i < s.numTimers <= |s.timers|
    ensures Times(CountdownEvent(h, s).trace, i)
         == Times(s.trace, i) + if Due(s.timers[i], NextEvent(s)) then [NextEvent(s)] else []
  {
    hide Advance, CallAll, Firings, Shape, NoneMissed, Tempered, Tame;
    var triggered := Triggered(s.timers, s.numTimers, NextEvent(s));
    TimesConcat(s.trace, Firings(triggered, 0, NextEvent(s)), i);
    TimesOfFirings(triggered, 0, NextEvent(s), i);
  }

  lemma NotYetDue(h: Handler, s: Sched, i: nat)
    requires Tame(h) && Valid(s) && InRange(s, 1) && i < s.numTimers && s.countdown != 1
    ensures Tick1(h, s) == s.(countdown := s.countdown - 1) && !Due(s.timers[i], Clock(s) + 1)
  {
    hide CountdownEvent;
  }

  /** No callback arms or disarms slot `i`. */
  ghost predicate Spares(h: Handler, i: nat) {
    forall f, s {:trigger h(f, s)} :: forall c :: c in h(f, s).0 ==> c.slot != i
  }

  lemma {:induction false} PerformSpares(s: Sched, cmds: seq<Command>, i: nat)
    requires Valid(s) && InRange(s, 0) && i < s.numTimers
    requires forall c :: c in cmds ==> Legal(c, s) && c.slot != i
    ensures Perform(s, cmds).timers[i] == s.timers[i]
    decreases |cmds|
  {
    if cmds != [] {
      var c := cmds[0];
      assert c in cmds && Legal(c, s);
      assert forall d :: d in cmds[1..] ==> d in cmds && Legal(d, s);
      match c {
        case Activate(j, t, k) =>
          ActivateKeepsValid(s, j, t, k);
          PerformSpares(ActivateTicks(s, j, t, k), cmds[1..], i);
        case Deactivate(j) =>
          DeactivateKeepsValid(s, j);
          PerformSpares(DeactivateSlot(s, j), cmds[1..], i);
      }
    }
  }

  lemma CallSpares(h: Handler, s: Sched, k: nat, i: nat)
    requires Tame(h) && Spares(h, i) && Valid(s) && InRange(s, 0) && k < s.numTimers && i < s.numTimers
    ensures Call(h, s, k).timers[i] == s.timers[i]
  {
    if s.timers[k].funct != NULL_TIMER {
      var (cmds, dev) := h(s.timers[k].funct, s);
      assert forall c :: c in cmds ==> Legal(c, s);
      PerformSpares(s.(trace := s.trace + [Firing(k, s.ticksTotal)], devices := dev), cmds, i);
    }
  }

  lemma {:induction false} CallAllSpares(h: Handler, s: Sched, triggered: seq<bool>, k: nat, i: nat)
    requires Tame(h) && Spares(h, i) && Valid(s) && InRange(s, 0) && k <= |triggered| == s.numTimers && i < s.numTimers
    ensures CallAll(h, s, triggered, k).timers[i] == s.timers[i]
    decreases |triggered| - k
  {
    hide Call;
    if k < |triggered| {
      if triggered[k] {
        CallSpares(h, s, k, i);
        CallAllSpares(h, Call(h, s, k), triggered, k + 1, i);
      } else {
        CallAllSpares(h, s, triggered, k + 1, i);
      }
    }
  }

  lemma EventServices(h: Handler, s: Sched, i: nat)
    requires Tame(h) && Spares(h, i) && AtEvent(s) && Tempered(s) && InRange(s, 0) && i < s.numTimers
    ensures CountdownEvent(h, s).timers[i] == Serviced(s.timers[i], NextEvent(s))
  {
    hide CallAll, Nearest;
    AdvanceKeepsValid(s);
    AdvanceFields(s);
    EventClock(s);
    CallAllSpares(h, Advance(s), Triggered(s.timers, s.numTimers, NextEvent(s)), 0, i);
  }

  lemma TickServices(h: Handler, s: Sched, i: nat)
    requires Tame(h) && Spares(h, i) && Valid(s) && InRange(s, 1) && i < s.numTimers
    ensures Tick1(h, s).timers[i] == Serviced(s.timers[i], Clock(s) + 1)
  {
    hide CountdownEvent;
    var s1 := s.(countdown := s.countdown - 1);
    if s1.countdown == 0 {
      EventServices(h, s1, i);
      assert Tick1(h, s) == CountdownEvent(h, s1);
    } else {
      assert Tick1(h, s) == s1;
      assert !Due(s.timers[i], Clock(s) + 1);
    }
  }

  lemma Bounds(s: Sched)
    requires Valid(s)
    ensures |s.timers| == MAX_TIMERS >= s.numTimers && 0 <= Clock(s)
  {
  }

  lemma StillAhead(s: Sched, i: nat)
    requires Valid(s) && Armed(s, i)
    ensures Clock(s) < s.timers[i].timeToFire < TWO64 && 1 <= s.timers[i].period <= MAX_BIT64S
  {
  }

  /** first, first + step, ..., `count` of them. */
  function Series(first: nat, step: nat, count: nat): (r: seq<nat>)
    ensures |r| == count
    decreases count
  {
    if count == 0 then [] else [first] + Series(first + step, step, count - 1)
  }

  lemma {:induction false} SeriesAt(first: nat, step: nat, count: nat, k: nat)
    requires k < count
    ensures Series(first, step, count)[k] == first + k * step
    decreases count
  {
    if k > 0 {
      SeriesAt(first + step, step, count - 1, k - 1);
      assert k * step == (k - 1) * step + step;
      assert Series(first, step, count)[k] == Series(first + step, step, count - 1)[k - 1];
    }
  }

  /** How many of first, first + step, ... are at most `last`. */
  function CountUpTo(first: nat, step: nat, last: nat): nat
    requires step > 0
  {
    if last < first then 0 else (last - first) / step + 1
  }

  lemma CountUpToNext(first: nat, step: nat, last: nat)
    requires step > 0 && first <= last
    ensures CountUpTo(first, step, last) == 1 + CountUpTo(first + step, step, last)
  {
    if first + step <= last {
      var d := last - first;
      assert d / step == (d - step) / step + 1 by {
        assert d == (d - step) + 1 * step;
        DivAddOne(d - step, step);
      }
    } else {
      assert (last - first) / step == 0;
    }
  }

  lemma DivAddOne(x: nat, d: nat)
    requires d > 0
    ensures (x + d) / d == x / d + 1
  {
    var q, r := x / d, x % d;
    assert x + d == (q + 1) * d + r;
    DivUnique(x + d, d, q + 1, r);
  }

  lemma DivUnique(x: nat, d: nat, q: nat, r: nat)
    requires d > 0 && r < d && x == q * d + r
    ensures x / d == q
  {
    var q', r' := x / d, x % d;
    assert (q' - q) * d == r - r';
    if q' < q {
      assert (q - q') * d == r' - r;
      MulAtLeast(q - q', d);
    } else if q' > q {
      MulAtLeast(q' - q, d);
    }
  }

  lemma MulAtLeast(k: nat, d: nat)
    requires k >= 1
    ensures k * d >= d
  {
  }

  /** Arming sets the deadline `ticks` ahead and leaves clock and history alone. */
  lemma ArmedState(s: Sched, i: nat, ticks: nat, continuous: bool)
    requires Valid(s) && InRange(s, 0) && 0 < i < s.numTimers && ticks <= MAX_BIT64S
    ensures var a := ActivateTicks(s, i, ticks, continuous);
            && Valid(a) && SameClock(s, a) && Armed(a, i) && a.timers[i].continuous == continuous
            && a.timers[i].period == Sane(ticks) && a.timers[i].timeToFire == Now(s) + Sane(ticks) && Now(s) == Clock(s)
  {
    ActivateKeepsValid(s, i, ticks, continuous);
    ClockIs(s);
  }

  /** How many whole periods fit into n ticks. */
  function Whole(n: nat, p: nat): (q: nat)
    requires p > 0
    ensures q * p <= n < (q + 1) * p
  {
    n / p
  }

  lemma CountFromArming(now: nat, p: nat, n: nat)
    requires p > 0
    ensures CountUpTo(now + p, p, now + n) == Whole(n, p)
  {
    if p <= n {
      DivAddOne(n - p, p);
    } else {
      DivUnique(n, p, 0, n);
    }
  }

  // ----- runs with calls between ticks

  /** What the rest of the machine does to the scheduler. */
  datatype Step =
    | Elapse(n: nat)
    | Issue(c: Command)
    | Register(ticks: nat, continuous: bool, active: bool, funct: nat)
    | Release(slot: nat)

  predicate Possible(s: Sched, step: Step)
    requires WellFormed(s)
  {
    match step
    case Elapse(n) => InRange(s, n)
    case Issue(c) => InRange(s, 0) && Legal(c, s)
    case Register(ticks, _, _, _) => InRange(s, 0) && HasRoom(s) && ticks <= MAX_BIT64S
    case Release(i) => 0 < i < s.numTimers
  }

  function Take(h: Handler, s: Sched, step: Step): (r: Sched)
    requires Tame(h) && Valid(s) && Possible(s, step)
  {
    match step
    case Elapse(n) => TickN(h, s, n)
    case Issue(Activate(i, t, c)) => ActivateTicks(s, i, t, c)
    case Issue(Deactivate(i)) => DeactivateSlot(s, i)
    case Register(t, c, a, f) => RegisterTicks(s, t, c, a, f)
    case Release(i) => Unregister(s, i)
  }

  /** Every step keeps all deadlines reachable and lets exactly the elapsed ticks pass. */
  lemma StepKeepsValid(h: Handler, s: Sched, step: Step)
    requires Tame(h) && Valid(s) && Possible(s, step)
    ensures Valid(Take(h, s, step))
    ensures Now(Take(h, s, step)) == Now(s) + if step.Elapse? then step.n else 0
  {
    match step
    case Elapse(n) => BatchedTicksAreUnitTicks(h, s, n);
    case Issue(Activate(i, t, c)) => ActivateKeepsValid(s, i, t, c);
    case Issue(Deactivate(i)) => DeactivateKeepsValid(s, i);
    case Register(t, c, a, f) => RegisterKeepsValid(s, t, c, a, f);
    case Release(i) => UnregisterKeepsValid(s, i);
  }

  lemma RegisterKeepsValid(s: Sched, ticks: nat, continuous: bool, active: bool, funct: nat)
    requires Valid(s) && InRange(s, 0) && HasRoom(s) && ticks <= MAX_BIT64S
    ensures Valid(RegisterTicks(s, ticks, continuous, active, funct))
    ensures Now(RegisterTicks(s, ticks, continuous, active, funct)) == Now(s)
  {
    hide FreeSlot, U32, U64;
    var t := Sane(ticks);
    var i := FreeSlot(s, 1);
    var r := RegisterTicks(s, ticks, continuous, active, funct);
    ClockIs(s);
    var s1 := s.(timers := r.timers, numTimers := r.numTimers);
    assert s1.timers[i].timeToFire == Now(s) + t by { DeadlineIs(s, t); }
    assert forall j :: 0 <= j < s1.numTimers && j != i ==> j < s.numTimers && s1.timers[j] == s.timers[j];
    assert NextEvent(s1) == NextEvent(s);
    assert Shape(s1) && Tempered(s1);
    if active {
      ShortenOnTime(s1, i, t);
    } else {
      assert r == s1;
    }
  }

  lemma DeadlineIs(s: Sched, t: nat)
    requires WellFormed(s) && Clock(s) + t < TWO64
    ensures U64(s.ticksTotal + U32(s.period - s.countdown) + t) == Clock(s) + t
  {
  }

  lemma UnregisterKeepsValid(s: Sched, i: nat)
    requires Valid(s) && 0 < i < s.numTimers
    ensures Valid(Unregister(s, i)) && Now(Unregister(s, i)) == Now(s)
  {
    var r := Unregister(s, i);
    assert forall j :: 0 <= j < r.numTimers && j != i ==> r.timers[j] == s.timers[j];
  }

  ghost predicate PossibleRun(h: Handler, s: Sched, steps: seq<Step>)
    requires Tame(h) && Valid(s)
    decreases |steps|
  {
    steps != [] ==>
      && Possible(s, steps[0])
      && (StepKeepsValid(h, s, steps[0]); PossibleRun(h, Take(h, s, steps[0]), steps[1..]))
  }

  function RunAll(h: Handler, s: Sched, steps: seq<Step>): (r: Sched)
    requires Tame(h) && Valid(s) && PossibleRun(h, s, steps)
    decreases |steps|
  {
    if steps == [] then s
    else
      StepKeepsValid(h, s, steps[0]);
      RunAll(h, Take(h, s, steps[0]), steps[1..])
  }

  function Elapsed(steps: seq<Step>): nat {
    if steps == [] then 0 else (if steps[0].Elapse? then steps[0].n else 0) + Elapsed(steps[1..])
  }

  /** In every reachable state every armed deadline is still ahead, and the clock shows exactly the ticks given to it. */
  lemma {:induction false} NoDeadlineIsEverMissed(h: Handler, s: Sched, steps: seq<Step>)
    requires Tame(h) && Valid(s) && PossibleRun(h, s, steps)
    ensures var r := RunAll(h, s, steps);
            && Valid(r)
            && Now(r) == Now(s) + Elapsed(steps)
            && (forall i: nat :: Armed(r, i) ==> Now(r) < r.timers[i].timeToFire)
            && 1 <= r.countdown <= r.period <= NULL_TIMER_INTERVAL
    decreases |steps|
  {
    if steps != [] {
      StepKeepsValid(h, s, steps[0]);
      NoDeadlineIsEverMissed(h, Take(h, s, steps[0]), steps[1..]);
    } else {
      ClockIs(s);
    }
  }

  // ----- the firings of one timer over a run

  /** The step neither arms nor disarms nor releases slot `i`. */
  predicate Spared(step: Step, i: nat) {
    match step
    case Issue(c) => c.slot != i
    case Release(j) => j != i
    case _ => true
  }

  predicate AllSpared(steps: seq<Step>, i: nat) {
    forall step :: step in steps ==> Spared(step, i)
  }

  /** A registered slot, which no registration can take over. */
  predicate Registered(s: Sched, i: nat) {
    i < s.numTimers <= |s.timers| && s.timers[i].inUse
  }

  /** A step other than time passing leaves a registered slot that it spares alone. */
  lemma StepSpares(h: Handler, s: Sched, step: Step, i: nat)
    requires Tame(h) && Valid(s) && Possible(s, step) && Spared(step, i) && Registered(s, i) && 0 < i
    requires step.Elapse? ==> step.n == 0
    ensures var r := Take(h, s, step);
            Registered(r, i) && r.timers[i] == s.timers[i] && r.trace == s.trace && Clock(r) == Clock(s)
  {
    hide FreeSlot, Ticks, Valid;
    StepKeepsValid(h, s, step);
    Bounds(s);
    Bounds(Take(h, s, step));
    match step
    case Elapse(n) =>
      BatchedTicksAreUnitTicks(h, s, 0);
      NoTicks(h, s);
    case Issue(Activate(j, t, c)) => ActivateKeepsValid(s, j, t, c);
    case Issue(Deactivate(j)) => DeactivateKeepsValid(s, j);
    case Register(t, c, a, f) => RegisterLeaves(s, t, c, a, f);
    case Release(j) => UnregisterLeaves(s, j);
  }

  lemma NoTicks(h: Handler, s: Sched)
    requires Tame(h) && Valid(s) && InRange(s, 0)
    ensures Ticks(h, s, 0) == s
  {
  }

  lemma RegisterLeaves(s: Sched, ticks: nat, continuous: bool, active: bool, funct: nat)
    requires Valid(s) && InRange(s, 0) && HasRoom(s) && ticks <= MAX_BIT64S
    ensures var r := RegisterTicks(s, ticks, continuous, active, funct);
            && s.numTimers <= r.numTimers && r.trace == s.trace && Clock(r) == Clock(s) && |r.timers| == |s.timers|
            && forall j :: 0 <= j < s.numTimers && s.timers[j].inUse ==> r.timers[j] == s.timers[j]
  {
    hide FreeSlot;
    RegisterKeepsValid(s, ticks, continuous, active, funct);
    ClockIs(s);
    ClockIs(RegisterTicks(s, ticks, continuous, active, funct));
  }

  lemma UnregisterLeaves(s: Sched, i: nat)
    requires Valid(s) && 0 < i < s.numTimers
    ensures var r := Unregister(s, i);
            && s.numTimers - 1 <= r.numTimers && (r.numTimers == s.numTimers || i == s.numTimers - 1)
            && r.trace == s.trace && Clock(r) == Clock(s) && |r.timers| == |s.timers|
            && forall j :: 0 <= j < s.numTimers && j != i ==> r.timers[j] == s.timers[j]
  {
  }

  /** A run that starts with some ticks, one tick later. */
  lemma ElapseOne(h: Handler, s: Sched, n: nat, rest: seq<Step>)
    requires Tame(h) && Valid(s) && n > 0 && PossibleRun(h, s, [Elapse(n)] + rest)
    ensures InRange(s, 1) && PossibleRun(h, Tick1(h, s), [Elapse(n - 1)] + rest)
    ensures RunAll(h, s, [Elapse(n)] + rest) == RunAll(h, Tick1(h, s), [Elapse(n - 1)] + rest)
  {
    hide Valid, Tick1, TickN;
    var steps, later := [Elapse(n)] + rest, [Elapse(n - 1)] + rest;
    assert steps[0] == Elapse(n) && steps[1..] == rest && later[0] == Elapse(n - 1) && later[1..] == rest;
    BatchedTicksAreUnitTicks(h, s, n);
    BatchedTicksAreUnitTicks(h, Tick1(h, s), n - 1);
  }

  lemma ElapsedSplit(step: Step, rest: seq<Step>)
    ensures Elapsed([step] + rest) == (if step.Elapse? then step.n else 0) + Elapsed(rest)
  {
    assert ([step] + rest)[1..] == rest;
  }

  lemma RestSpared(step: Step, other: Step, rest: seq<Step>, i: nat)
    requires AllSpared([step] + rest, i)
    ensures Spared(step, i) && AllSpared(rest, i) && (Spared(other, i) ==> AllSpared([other] + rest, i))
  {
    assert step in [step] + rest;
    assert forall e :: e in rest ==> e in [step] + rest;
  }

  /** How many ticks a run begins with. */
  function Leading(steps: seq<Step>): nat {
    if steps != [] && steps[0].Elapse? then steps[0].n else 0
  }

  /** The assumptions of the firing theorems. */
  ghost predicate Runs(h: Handler, s: Sched, i: nat, steps: seq<Step>) {
    && Tame(h) && Spares(h, i) && Valid(s) && 0 < i && Registered(s, i) && AllSpared(steps, i) && PossibleRun(h, s, steps)
  }

  /** One tick of a run: who fires, and the slot afterwards. */
  lemma RunTicks(h: Handler, s: Sched, i: nat, n: nat, rest: seq<Step>)
    requires Runs(h, s, i, [Elapse(n)] + rest) && n > 0
    ensures InRange(s, 1) && Runs(h, Tick1(h, s), i, [Elapse(n - 1)] + rest)
    ensures RunAll(h, s, [Elapse(n)] + rest) == RunAll(h, Tick1(h, s), [Elapse(n - 1)] + rest)
    ensures var r := Tick1(h, s);
            && Clock(r) == Clock(s) + 1 && r.timers[i] == Serviced(s.timers[i], Clock(s) + 1)
            && Times(r.trace, i) == Times(s.trace, i) + if Due(s.timers[i], Clock(s) + 1) then [Clock(s) + 1] else []
  {
    hide Tick1, Times, Valid, RunAll, PossibleRun, AllSpared;
    Bounds(s);
    ElapseOne(h, s, n, rest);
    TickFiresExactlyTheDue(h, s, i);
    TickServices(h, s, i);
    Bounds(Tick1(h, s));
    RestSpared(Elapse(n), Elapse(n - 1), rest, i);
  }

  /** Any other step of a run. */
  lemma RunSteps(h: Handler, s: Sched, i: nat, step: Step, rest: seq<Step>)
    requires Runs(h, s, i, [step] + rest) && (step.Elapse? ==> step.n == 0)
    ensures Possible(s, step) && Valid(Take(h, s, step)) && Runs(h, Take(h, s, step), i, rest)
    ensures RunAll(h, s, [step] + rest) == RunAll(h, Take(h, s, step), rest)
    ensures var r := Take(h, s, step); r.timers[i] == s.timers[i] && r.trace == s.trace && Clock(r) == Clock(s)
  {
    hide Take, Valid, AllSpared, Possible;
    assert ([step] + rest)[0] == step && ([step] + rest)[1..] == rest;
    StepKeepsValid(h, s, step);
    RestSpared(step, step, rest, i);
    StepSpares(h, s, step, i);
  }

  /** A timer that is not armed does not fire, whatever is done to others. */
  lemma {:induction false} IdleTimerNeverFires(h: Handler, s: Sched, i: nat, steps: seq<Step>)
    requires Runs(h, s, i, steps) && !s.timers[i].active
    ensures Times(RunAll(h, s, steps).trace, i) == Times(s.trace, i)
    decreases |steps|, Leading(steps)
  {
    hide Take, Tick1, Times, Valid, AllSpared, PossibleRun, RunAll;
    if steps == [] {
      EmptyRun(h, s, steps);
    } else {
      var step, rest := steps[0], steps[1..];
      assert steps == [step] + rest;
      if step.Elapse? && step.n > 0 {
        RunTicks(h, s, i, step.n, rest);
        IdleTimerNeverFires(h, Tick1(h, s), i, [Elapse(step.n - 1)] + rest);
      } else {
        RunSteps(h, s, i, step, rest);
        IdleTimerNeverFires(h, Take(h, s, step), i, rest);
      }
    }
  }

  lemma EmptyRun(h: Handler, s: Sched, steps: seq<Step>)
    requires Tame(h) && Valid(s) && steps == []
    ensures PossibleRun(h, s, steps) && RunAll(h, s, steps) == s && Elapsed(steps) == 0
  {
  }

  lemma {:induction false} OneShotRun(h: Handler, s: Sched, i: nat, steps: seq<Step>)
    requires Runs(h, s, i, steps) && Armed(s, i) && !s.timers[i].continuous
    ensures var due := s.timers[i].timeToFire;
            Times(RunAll(h, s, steps).trace, i) == Times(s.trace, i) + if due <= Clock(s) + Elapsed(steps) then [due] else []
    decreases |steps|, Leading(steps)
  {
    hide Take, Tick1, Times, Valid, AllSpared, PossibleRun, RunAll, Elapsed;
    Bounds(s);
    StillAhead(s, i);
    if steps == [] {
      EmptyRun(h, s, steps);
    } else {
      var step, rest := steps[0], steps[1..];
      assert steps == [step] + rest;
      ElapsedSplit(step, rest);
      if step.Elapse? && step.n > 0 {
        RunTicks(h, s, i, step.n, rest);
        ElapsedSplit(Elapse(step.n - 1), rest);
        if Due(s.timers[i], Clock(s) + 1) {
          IdleTimerNeverFires(h, Tick1(h, s), i, [Elapse(step.n - 1)] + rest);
        } else {
          OneShotRun(h, Tick1(h, s), i, [Elapse(step.n - 1)] + rest);
        }
      } else {
        RunSteps(h, s, i, step, rest);
        OneShotRun(h, Take(h, s, step), i, rest);
      }
    }
  }

  lemma {:induction false} PeriodicRun(h: Handler, s: Sched, i: nat, steps: seq<Step>)
    requires Runs(h, s, i, steps) && Armed(s, i) && s.timers[i].continuous && s.timers[i].period > 0
    ensures var due, p := s.timers[i].timeToFire, s.timers[i].period;
            Times(RunAll(h, s, steps).trace, i) == Times(s.trace, i) + Series(due, p, CountUpTo(due, p, Clock(s) + Elapsed(steps)))
    decreases |steps|, Leading(steps)
  {
    hide Take, Tick1, Times, Valid, AllSpared, PossibleRun, RunAll, Elapsed;
    Bounds(s);
    StillAhead(s, i);
    if steps == [] {
      EmptyRun(h, s, steps);
    } else {
      var step, rest := steps[0], steps[1..];
      assert steps == [step] + rest;
      ElapsedSplit(step, rest);
      if step.Elapse? && step.n > 0 {
        RunTicks(h, s, i, step.n, rest);
        ElapsedSplit(Elapse(step.n - 1), rest);
        PeriodicTick(s, i);
        PeriodicRun(h, Tick1(h, s), i, [Elapse(step.n - 1)] + rest);
        if Due(s.timers[i], Clock(s) + 1) {
          NextInSeries(Times(s.trace, i), s.timers[i].timeToFire, s.timers[i].period, Clock(s) + Elapsed(steps));
        }
      } else {
        RunSteps(h, s, i, step, rest);
        PeriodicRun(h, Take(h, s, step), i, rest);
      }
    }
  }

  lemma PeriodicTick(s: Sched, i: nat)
    requires Valid(s) && InRange(s, 1) && Armed(s, i) && s.timers[i].continuous
    ensures var t := s.timers[i];
            Serviced(t, Clock(s) + 1) == if Due(t, Clock(s) + 1) then t.(timeToFire := t.timeToFire + t.period) else t
  {
  }

  lemma NextInSeries(before: seq<nat>, due: nat, p: nat, last: nat)
    requires p > 0 && due <= last
    ensures before + [due] + Series(due + p, p, CountUpTo(due + p, p, last)) == before + Series(due, p, CountUpTo(due, p, last))
  {
    hide CountUpTo;
    CountUpToNext(due, p, last);
    assert before + [due] + Series(due + p, p, CountUpTo(due + p, p, last))
        == before + ([due] + Series(due + p, p, CountUpTo(due + p, p, last)));
  }

  /**
   A timer armed once fires exactly once, exactly `ticks` later, and before that not at all: over any
   run of ticks in any batches, of arming and disarming other slots, and of registrations and releases.
   */
  lemma ArmedOnceFiresOnce(h: Handler, s: Sched, i: nat, ticks: nat, steps: seq<Step>)
    requires Valid(s) && InRange(s, 0) && 0 < i < s.numTimers && ticks <= MAX_BIT64S
    requires Runs(h, ActivateTicks(s, i, ticks, false), i, steps)
    ensures Times(RunAll(h, ActivateTicks(s, i, ticks, false), steps).trace, i)
            == Times(s.trace, i) + if Sane(ticks) <= Elapsed(steps) then [Now(s) + Sane(ticks)] else []
  {
    hide RunAll, Times, Shape, NoneMissed, Tempered, Now, ActivateTicks, PossibleRun, AllSpared, Elapsed;
    ArmedState(s, i, ticks, false);
    OneShotRun(h, ActivateTicks(s, i, ticks, false), i, steps);
  }

  /** A timer armed for repetition fires at every multiple of its period after arming, and at no other time. */
  lemma ArmedPeriodicFiresEveryPeriod(h: Handler, s: Sched, i: nat, ticks: nat, steps: seq<Step>)
    requires Valid(s) && InRange(s, 0) && 0 < i < s.numTimers && ticks <= MAX_BIT64S
    requires Runs(h, ActivateTicks(s, i, ticks, true), i, steps)
    ensures var p := Sane(ticks);
            Times(RunAll(h, ActivateTicks(s, i, ticks, true), steps).trace, i)
            == Times(s.trace, i) + Series(Now(s) + p, p, Whole(Elapsed(steps), p))
  {
    hide RunAll, Times, Shape, NoneMissed, Tempered, Now, ActivateTicks, Series, CountUpTo, Whole, PossibleRun, AllSpared, Elapsed;
    ArmedState(s, i, ticks, true);
    PeriodicRun(h, ActivateTicks(s, i, ticks, true), i, steps);
    CountFromArming(Now(s), Sane(ticks), Elapsed(steps));
  }

  /** A deadline past 64 bits wraps into the past and is missed: the bound on ticks is needed. */
  lemma WrappedDeadlineIsMissed(s: Sched, i: nat)
    requires OnTime(s) && 0 < i < s.numTimers && Now(s) > 0
    ensures var r := ActivateTicks(s, i, MAX_BIT64U, false);
            r.timers[i].active && r.timers[i].timeToFire < Now(r) && !OnTime(r)
  {
    ClockIs(s);
    ActivateOnTimeIff(s, i, MAX_BIT64U, false);
    var r := ActivateTicks(s, i, MAX_BIT64U, false);
    assert r.timers[i].timeToFire == Now(s) - 1;
  }
}
