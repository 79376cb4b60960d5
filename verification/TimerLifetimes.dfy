/**
 The life of a timer: what a registration puts into its slot, how such a timer fires, that a disarmed
 or released one does not, and what a callback does when its timer is due.
 */
module TimerLifetimes {
  import opened Schedule
  import opened ScheduleRuns
  import opened Words

  // ----- registration

  /** The lowest free slot is taken, and holds what it is given. */
  lemma RegisteredSlot(s: Sched, ticks: nat, continuous: bool, active: bool, funct: nat)
    requires Valid(s) && InRange(s, 0) && HasRoom(s) && ticks <= MAX_BIT64S
    ensures var i, r := FreeSlot(s, 1), RegisterTicks(s, ticks, continuous, active, funct);
            && 0 < i && !Registered(s, i) && (forall j :: 0 < j < i ==> Registered(s, j))
            && Valid(r) && Clock(r) == Clock(s) && r.trace == s.trace && Registered(r, i)
            && r.timers[i] == Timer(true, Sane(ticks), Clock(s) + Sane(ticks), active, continuous, funct)
  {
    hide FreeSlot, U32, U64;
    RegisterKeepsValid(s, ticks, continuous, active, funct);
    RegisterLeaves(s, ticks, continuous, active, funct);
    DeadlineIs(s, Sane(ticks));
  }

  /** A timer registered active fires once, its ticks after the registration, over any run that spares it. */
  lemma RegisteredOnceFiresOnce(h: Handler, s: Sched, ticks: nat, funct: nat, steps: seq<Step>)
    requires Valid(s) && InRange(s, 0) && HasRoom(s) && ticks <= MAX_BIT64S
    requires Runs(h, RegisterTicks(s, ticks, false, true, funct), FreeSlot(s, 1), steps)
    ensures var i := FreeSlot(s, 1);
            Times(RunAll(h, RegisterTicks(s, ticks, false, true, funct), steps).trace, i)
            == Times(s.trace, i) + if Sane(ticks) <= Elapsed(steps) then [Clock(s) + Sane(ticks)] else []
  {
    hide RunAll, Times, Shape, NoneMissed, Tempered, RegisterTicks, PossibleRun, AllSpared, Elapsed, FreeSlot;
    Bounds(s);
    RegisteredSlot(s, ticks, false, true, funct);
    OneShotRun(h, RegisterTicks(s, ticks, false, true, funct), FreeSlot(s, 1), steps);
  }

  /** Registered for repetition, it fires at every multiple of its period, and at no other time. */
  lemma RegisteredPeriodicFiresEveryPeriod(h: Handler, s: Sched, ticks: nat, funct: nat, steps: seq<Step>)
    requires Valid(s) && InRange(s, 0) && HasRoom(s) && ticks <= MAX_BIT64S
    requires Runs(h, RegisterTicks(s, ticks, true, true, funct), FreeSlot(s, 1), steps)
    ensures var i, p := FreeSlot(s, 1), Sane(ticks);
            Times(RunAll(h, RegisterTicks(s, ticks, true, true, funct), steps).trace, i)
            == Times(s.trace, i) + Series(Now(s) + p, p, Whole(Elapsed(steps), p))
  {
    hide RunAll, Times, Shape, NoneMissed, Tempered, RegisterTicks, PossibleRun, AllSpared, Elapsed, FreeSlot, Series, CountUpTo, Whole,
      Now;
    Bounds(s);
    RegisteredSlot(s, ticks, true, true, funct);
    ClockIs(s);
    PeriodicRun(h, RegisterTicks(s, ticks, true, true, funct), FreeSlot(s, 1), steps);
    CountFromArming(Now(s), Sane(ticks), Elapsed(steps));
  }

  /** Registered inactive, it does not fire. */
  lemma RegisteredIdleNeverFires(h: Handler, s: Sched, ticks: nat, continuous: bool, funct: nat, steps: seq<Step>)
    requires Valid(s) && InRange(s, 0) && HasRoom(s) && ticks <= MAX_BIT64S
    requires Runs(h, RegisterTicks(s, ticks, continuous, false, funct), FreeSlot(s, 1), steps)
    ensures var i := FreeSlot(s, 1);
            Times(RunAll(h, RegisterTicks(s, ticks, continuous, false, funct), steps).trace, i) == Times(s.trace, i)
  {
    hide RunAll, Times, Shape, NoneMissed, Tempered, RegisterTicks, PossibleRun, AllSpared, FreeSlot;
    Bounds(s);
    RegisteredSlot(s, ticks, continuous, false, funct);
    IdleTimerNeverFires(h, RegisterTicks(s, ticks, continuous, false, funct), FreeSlot(s, 1), steps);
  }

  // ----- disarming and release

  /** A disarmed timer does not fire until it is armed again; the others keep their deadlines. */
  lemma DisarmedNeverFires(h: Handler, s: Sched, i: nat, steps: seq<Step>)
    requires Valid(s) && 0 < i < s.numTimers && Runs(h, DeactivateSlot(s, i), i, steps)
    ensures Times(RunAll(h, DeactivateSlot(s, i), steps).trace, i) == Times(s.trace, i)
    ensures forall j :: 0 <= j < s.numTimers && j != i ==> DeactivateSlot(s, i).timers[j] == s.timers[j]
  {
    hide RunAll, Times, Valid, PossibleRun, AllSpared;
    Bounds(s);
    IdleTimerNeverFires(h, DeactivateSlot(s, i), i, steps);
  }

  /** An active slot cannot be released; a released one is free for the next registration, and the bound shrinks with the last slot. */
  lemma ReleasedSlot(s: Sched, i: nat)
    requires Valid(s) && 0 < i < s.numTimers
    ensures var r := Unregister(s, i);
            if s.timers[i].active then r == s
            else
              && Valid(r) && !Registered(r, i) && FreeSlot(r, 1) <= i && HasRoom(r)
              && r.numTimers == (if i == s.numTimers - 1 then i else s.numTimers)
              && (i < r.numTimers ==> !r.timers[i].active)
  {
    UnregisterKeepsValid(s, i);
  }

  // ----- callbacks

  function Issues(cmds: seq<Command>): (r: seq<Step>)
    ensures |r| == |cmds|
  {
    if cmds == [] then [] else [Issue(cmds[0])] + Issues(cmds[1..])
  }

  /** The commands of a callback act as if they were issued one after the other. */
  lemma {:induction false} PerformIsRun(h: Handler, s: Sched, cmds: seq<Command>)
    requires Tame(h) && Valid(s) && InRange(s, 0) && forall c :: c in cmds ==> Legal(c, s)
    ensures PossibleRun(h, s, Issues(cmds)) && RunAll(h, s, Issues(cmds)) == Perform(s, cmds)
    decreases |cmds|
  {
    hide Valid, ActivateTicks, DeactivateSlot;
    if cmds != [] {
      var c := cmds[0];
      assert c in cmds && Legal(c, s);
      assert forall d :: d in cmds[1..] ==> d in cmds && Legal(d, s);
      assert Issues(cmds)[0] == Issue(c) && Issues(cmds)[1..] == Issues(cmds[1..]);
      match c {
        case Activate(i, t, k) => ActivateKeepsValid(s, i, t, k);
        case Deactivate(i) => DeactivateKeepsValid(s, i);
      }
      PerformIsRun(h, Take(h, s, Issue(c)), cmds[1..]);
    }
  }

  /** No other timer is due on the next tick. */
  predicate OnlyDue(s: Sched, i: nat)
    requires Clock(s) >= 0
  {
    i < s.numTimers <= |s.timers| && Due(s.timers[i], Clock(s) + 1)
    && forall j :: 0 <= j < s.numTimers && j != i ==> !Due(s.timers[j], Clock(s) + 1)
  }

  lemma {:induction false} CallsOnly(h: Handler, s: Sched, triggered: seq<bool>, k: nat, i: nat)
    requires Tame(h) && Valid(s) && InRange(s, 0) && k <= |triggered| == s.numTimers && i < |triggered| && triggered[i]
    requires forall j :: 0 <= j < |triggered| && j != i ==> !triggered[j]
    ensures CallAll(h, s, triggered, k) == if k <= i then Call(h, s, i) else s
    decreases |triggered| - k
  {
    hide Call, Valid;
    if k < |triggered| {
      if triggered[k] {
        CallsOnly(h, Call(h, s, k), triggered, k + 1, i);
      } else {
        CallsOnly(h, s, triggered, k + 1, i);
      }
    }
  }

  /**
   A tick on which one timer is due calls the function of its slot, once, in a state in which that tick
   is reached and the slot serviced; what the function returns becomes the device state, and its commands
   are performed.
   */
  lemma DueCallbackRuns(h: Handler, s: Sched, i: nat) returns (x: Sched)
    requires Tame(h) && Valid(s) && InRange(s, 1) && OnlyDue(s, i) && s.timers[i].funct != NULL_TIMER
    ensures Valid(x) && InRange(x, 0) && Clock(x) == Clock(s) + 1 && x.trace == s.trace && x.devices == s.devices
    ensures |x.timers| == |s.timers| && x.numTimers == s.numTimers
    ensures forall j :: 0 <= j < s.numTimers ==> x.timers[j] == Serviced(s.timers[j], Clock(s) + 1)
    ensures var (cmds, devices) := h(s.timers[i].funct, x);
            var called := x.(trace := s.trace + [Firing(i, Clock(s) + 1)], devices := devices);
            && Valid(called) && InRange(called, 0) && (forall c :: c in cmds ==> Legal(c, called))
            && Tick1(h, s) == Perform(called, cmds)
  {
    hide CallAll, Nearest, Perform, Shape, NoneMissed;
    DueMeansEvent(s, i);
    LastBefore(s);
    var s0 := s.(countdown := 0);
    x := Advance(s0);
    AdvanceKeepsValid(s0);
    AdvanceFields(s0);
    EventClock(s0);
    CallsOnly(h, x, Triggered(s0.timers, s0.numTimers, NextEvent(s0)), 0, i);
    OneEvent(h, s);
    EventIs(h, s0);
    CallIs(h, x, i);
  }

  lemma OneEvent(h: Handler, s: Sched)
    requires Tame(h) && Valid(s) && InRange(s, 1) && s.countdown == 1
    ensures AtEvent(s.(countdown := 0)) && Tempered(s.(countdown := 0)) && InRange(s.(countdown := 0), 0)
    ensures Tick1(h, s) == CountdownEvent(h, s.(countdown := 0))
  {
    LastBefore(s);
  }

  lemma EventIs(h: Handler, s: Sched)
    requires Tame(h) && AtEvent(s) && Tempered(s) && InRange(s, 0)
    ensures var x := Advance(s);
            && Valid(x) && InRange(x, 0) && |s.timers| >= s.numTimers == x.numTimers
            && CountdownEvent(h, s) == CallAll(h, x, Triggered(s.timers, s.numTimers, NextEvent(s)), 0)
  {
    hide CallAll, Nearest, Triggered;
    AdvanceKeepsValid(s);
    AdvanceFields(s);
    EventClock(s);
  }

  lemma CallIs(h: Handler, x: Sched, i: nat)
    requires Tame(h) && Valid(x) && InRange(x, 0) && i < x.numTimers && x.timers[i].funct != NULL_TIMER
    ensures var (cmds, devices) := h(x.timers[i].funct, x);
            var called := x.(trace := x.trace + [Firing(i, x.ticksTotal)], devices := devices);
            && Valid(called) && InRange(called, 0) && (forall c :: c in cmds ==> Legal(c, called))
            && Call(h, x, i) == Perform(called, cmds)
  {
    hide Perform;
    assert forall c :: c in h(x.timers[i].funct, x).0 ==> Legal(c, x);
  }

  lemma DueMeansEvent(s: Sched, i: nat)
    requires Valid(s) && i < s.numTimers && Due(s.timers[i], Clock(s) + 1)
    ensures s.countdown == 1
  {
  }
}
