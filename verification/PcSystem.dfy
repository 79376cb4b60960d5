/**
 The PC system object: the timer array and counters that the source updates in place.  Every method
 is proved to take the abstract state to the state the function of the same name in Schedule gives.
 */
module PcSystem {
  import opened Schedule
  import opened SequentialClock
  import opened Words

  class PcSystemC {
    const handler: Handler
    const timer: array<Timer>
    var numTimers: nat
    var ticksTotal: nat
    var currCountdown: nat
    var currCountdownPeriod: nat
    var triggeredTimer: nat
    var lastTimeUsec: nat
    var usecSinceLast: nat
    // The callbacks made so far and the state the callbacks keep outside this object.
    var trace: seq<Firing>
    var devices: int

    function View(): Sched
      reads this, timer
    {
      Sched(timer[..], numTimers, ticksTotal, currCountdown, currCountdownPeriod, trace, devices)
    }

    ghost predicate Running()
      reads this, timer
    {
      Tame(handler) && Valid(View())
    }

    constructor (handler: Handler, ips: nat)
      requires Tame(handler)
      ensures Running() && fresh(timer) && this.handler == handler
      ensures Now(View()) == 0 && trace == [] && numTimers == 1
    {
      this.handler := handler;
      timer := new Timer[64](_ => Timer(false, 0, 0, false, false, NO_CALLBACK));
      numTimers, ticksTotal, triggeredTimer, trace, devices := 1, 0, 0, [], 0;
      currCountdown, currCountdownPeriod := NULL_TIMER_INTERVAL, NULL_TIMER_INTERVAL;
      lastTimeUsec, usecSinceLast := 0, 0;
      new;
      timer[0] := Timer(true, NULL_TIMER_INTERVAL, 0, true, true, NULL_TIMER);
      Initialize(ips);
    }

    method Initialize(ips: nat)
      requires timer.Length == MAX_TIMERS
      modifies this, timer
      ensures View() == Schedule.Initialize(old(View()))
      ensures lastTimeUsec == usecSinceLast == triggeredTimer == 0
    {
      ticksTotal := 0;
      timer[0] := timer[0].(timeToFire := NULL_TIMER_INTERVAL);
      currCountdown := NULL_TIMER_INTERVAL;
      currCountdownPeriod := NULL_TIMER_INTERVAL;
      lastTimeUsec := 0;
      usecSinceLast := 0;
      triggeredTimer := 0;
    }

    method ActivateTimerTicks(i: nat, instructions: nat, continuous: bool)
      requires WellFormed(View()) && 0 < i < numTimers
      modifies this, timer
      ensures View() == ActivateTicks(old(View()), i, instructions, continuous)
      ensures triggeredTimer == old(triggeredTimer)
    {
      var ticks := instructions;
      if ticks < MIN_ALLOWABLE_TIMER_PERIOD {
        ticks := MIN_ALLOWABLE_TIMER_PERIOD;
      }
      timer[i] := timer[i].(period := ticks);
      timer[i] := timer[i].(timeToFire := U64(ticksTotal + U32(currCountdownPeriod - currCountdown) + ticks));
      timer[i] := timer[i].(active := true, continuous := continuous);
      if ticks < currCountdown {
        currCountdownPeriod := U32(currCountdownPeriod - (currCountdown - U32(ticks)));
        currCountdown := U32(ticks);
      }
    }

    method DeactivateTimer(i: nat)
      requires 0 < i < numTimers <= timer.Length
      modifies timer
      ensures View() == DeactivateSlot(old(View()), i)
    {
      timer[i] := timer[i].(active := false);
    }

    method RegisterTimerTicks(instructions: nat, continuous: bool, active: bool, funct: nat) returns (i: nat)
      requires WellFormed(View()) && HasRoom(View())
      modifies this, timer
      ensures i == FreeSlot(old(View()), 1)
      ensures View() == RegisterTicks(old(View()), instructions, continuous, active, funct)
    {
      var ticks := instructions;
      if ticks < MIN_ALLOWABLE_TIMER_PERIOD {
        ticks := MIN_ALLOWABLE_TIMER_PERIOD;
      }
      i := 1;
      while i < numTimers
        invariant 1 <= i <= numTimers
        invariant FreeSlot(View(), i) == FreeSlot(View(), 1)
      {
        if !timer[i].inUse {
          break;
        }
        i := i + 1;
      }
      timer[i] := Timer(true, ticks, U64(ticksTotal + U32(currCountdownPeriod - currCountdown) + ticks),
                        active, continuous, funct);
      if active {
        if ticks < currCountdown {
          currCountdownPeriod := U32(currCountdownPeriod - (currCountdown - U32(ticks)));
          currCountdown := U32(ticks);
        }
      }
      if i == numTimers {
        numTimers := numTimers + 1;
      }
    }

    method UnregisterTimer(i: nat) returns (ok: bool)
      requires WellFormed(View()) && 0 < i < numTimers
      modifies this, timer
      ensures ok == !old(timer[i].active)
      ensures View() == Unregister(old(View()), i)
    {
      if timer[i].active {
        return false;
      }
      timer[i] := Timer(false, MAX_BIT64S, MAX_BIT64S, timer[i].active, false, NO_CALLBACK);
      if i == numTimers - 1 {
        numTimers := numTimers - 1;
      }
      return true;
    }

    /** Carries out the commands a callback issues. */
    method Obey(cmds: seq<Command>)
      requires Valid(View()) && InRange(View(), 0)
      requires forall c :: c in cmds ==> Legal(c, View())
      modifies this, timer
      ensures View() == Perform(old(View()), cmds)
      ensures triggeredTimer == old(triggeredTimer)
    {
      var k := 0;
      while k < |cmds|
        invariant 0 <= k <= |cmds|
        invariant Valid(View()) && SameClock(old(View()), View())
        invariant numTimers == old(numTimers) && forall c :: c in cmds[k..] ==> Legal(c, old(View()))
        invariant forall c :: c in cmds[k..] ==> Legal(c, View())
        invariant Perform(View(), cmds[k..]) == Perform(old(View()), cmds)
        invariant triggeredTimer == old(triggeredTimer)
      {
        assert cmds[k..][0] == cmds[k] && cmds[k..][1..] == cmds[k + 1..];
        assert forall c :: c in cmds[k + 1..] ==> c in cmds;
        assert cmds[k] in cmds && Legal(cmds[k], old(View()));
        hide Valid, ActivateTicks;
        match cmds[k] {
          case Activate(i, ticks, continuous) =>
            ActivateKeepsValid(View(), i, ticks, continuous);
            ActivateTimerTicks(i, ticks, continuous);
          case Deactivate(i) =>
            DeactivateKeepsValid(View(), i);
            DeactivateTimer(i);
        }
        k := k + 1;
      }
      assert cmds[k..] == [];
    }

    /** timer[i].funct(timer[i].this_ptr) */
    method CallFunct(i: nat)
      requires Running() && InRange(View(), 0) && i < numTimers
      modifies this, timer
      ensures View() == Call(handler, old(View()), i)
      ensures triggeredTimer == old(triggeredTimer)
    {
      var s := View();
      trace := trace + [Firing(i, ticksTotal)];
      if timer[i].funct != NULL_TIMER {
        var (cmds, dev) := handler(s.timers[i].funct, s);
        assert forall c :: c in cmds ==> Legal(c, s);
        devices := dev;
        assert View() == s.(trace := s.trace + [Firing(i, s.ticksTotal)], devices := dev);
        Obey(cmds);
      }
    }

    method CountdownEvent()
      requires Tame(handler) && AtEvent(View()) && Tempered(View()) && InRange(View(), 0)
      modifies this, timer
      ensures View() == Schedule.CountdownEvent(handler, old(View()))
      ensures triggeredTimer == 0 || triggeredTimer == old(triggeredTimer)
    {
      hide Nearest, ServicedAll, Triggered, CallAll, Serviced, Advance, U32, U64, Shape, NoneMissed, Tempered;
      ghost var s := View();
      EventClock(s);
      AdvanceFields(s);
      EventShape(s);
      ticksTotal := U64(ticksTotal + currCountdownPeriod);
      var triggered := new bool[64](_ => false);
      var minTimeToFire := ServiceTimers(triggered);
      currCountdownPeriod := U32(U64(minTimeToFire - ticksTotal));
      currCountdown := currCountdownPeriod;
      assert View() == Advance(s);
      AdvanceKeepsValid(s);
      CallTriggered(triggered);
    }

    static lemma EventShape(s: Sched)
      requires AtEvent(s)
      ensures s.countdown == 0 && |s.timers| == MAX_TIMERS >= s.numTimers
    {
    }

    /** The first loop of the event: services the due timers and finds the nearest deadline left. */
    method ServiceTimers(triggered: array<bool>) returns (minTimeToFire: nat)
      requires numTimers <= timer.Length == triggered.Length
      modifies timer, triggered
      ensures timer[..] == ServicedAll(old(timer[..]), numTimers, ticksTotal)
      ensures minTimeToFire == Nearest(timer[..], numTimers)
      ensures triggered[..numTimers] == Triggered(old(timer[..]), numTimers, ticksTotal)
    {
      hide ServicedAll, Triggered, Nearest;
      ghost var ts := timer[..];
      minTimeToFire := MAX_BIT64U;
      var i := 0;
      ServiceStart(ts, ticksTotal);
      while i < numTimers
        invariant 0 <= i <= numTimers
        invariant timer[..] == ServicedAll(ts, i, ticksTotal)
        invariant minTimeToFire == Nearest(timer[..], i)
        invariant triggered[..i] == Triggered(ts, i, ticksTotal)
      {
        ghost var before := timer[..];
        ServiceStep(ts, i, ticksTotal);
        triggered[i] := false;
        if timer[i].active {
          if ticksTotal == timer[i].timeToFire {
            triggered[i] := true;
            if !timer[i].continuous {
              timer[i] := timer[i].(active := false);
            } else {
              timer[i] := timer[i].(timeToFire := U64(timer[i].timeToFire + timer[i].period));
              if timer[i].timeToFire < minTimeToFire {
                minTimeToFire := timer[i].timeToFire;
              }
            }
          } else {
            if timer[i].timeToFire < minTimeToFire {
              minTimeToFire := timer[i].timeToFire;
            }
          }
        }
        assert timer[..] == before[i := Serviced(before[i], ticksTotal)];
        assert triggered[..i + 1] == triggered[..i] + [Due(ts[i], ticksTotal)];
        i := i + 1;
      }
    }

    static lemma ServiceStart(ts: seq<Timer>, now: nat)
      ensures ServicedAll(ts, 0, now) == ts && Nearest(ts, 0) == MAX_BIT64U && Triggered(ts, 0, now) == []
    {
    }

    /** What one turn of that loop adds. */
    static lemma ServiceStep(ts: seq<Timer>, i: nat, now: nat)
      requires i < |ts|
      ensures var before := ServicedAll(ts, i, now);
              var after := before[i := Serviced(before[i], now)];
              && before[i] == ts[i]
              && after == ServicedAll(ts, i + 1, now)
              && Triggered(ts, i + 1, now) == Triggered(ts, i, now) + [Due(ts[i], now)]
              && Nearest(after, i + 1) == if after[i].active && after[i].timeToFire < Nearest(before, i)
                                          then after[i].timeToFire else Nearest(before, i)
    {
      var before := ServicedAll(ts, i, now);
      NearestFrame(before, before[i := Serviced(before[i], now)], i);
    }

    static lemma NearestFrame(a: seq<Timer>, b: seq<Timer>, n: nat)
      requires n <= |a| == |b| && forall j :: 0 <= j < n ==> a[j] == b[j]
      ensures Nearest(a, n) == Nearest(b, n)
    {
    }

    /** The second loop of the event: calls the functions of the timers that were due. */
    method CallTriggered(triggered: array<bool>)
      requires Running() && InRange(View(), 0) && triggered.Length == MAX_TIMERS
      modifies this, timer
      ensures View() == CallAll(handler, old(View()), triggered[..old(numTimers)], 0)
      ensures triggeredTimer == 0 || triggeredTimer == old(triggeredTimer)
    {
      ghost var n := numTimers;
      var i := 0;
      while i < numTimers
        invariant 0 <= i <= numTimers == n
        invariant Running() && InRange(View(), 0)
        invariant triggered[..] == old(triggered[..])
        invariant CallAll(handler, View(), triggered[..n], i) == CallAll(handler, old(View()), triggered[..n], 0)
        invariant triggeredTimer == 0 || triggeredTimer == old(triggeredTimer)
      {
        if triggered[i] {
          triggeredTimer := i;
          CallFunct(i);
          triggeredTimer := 0;
        }
        i := i + 1;
      }
    }

    method Tick1()
      requires Running() && InRange(View(), 1)
      modifies this, timer
      ensures View() == Schedule.Tick1(handler, old(View()))
    {
      currCountdown := U32(currCountdown - 1);
      if currCountdown == 0 {
        CountdownEvent();
      }
    }

    method TickN(count: nat)
      requires Running() && InRange(View(), count) && count < TWO32
      modifies this, timer
      ensures View() == Schedule.TickN(handler, old(View()), count)
    {
      hide Schedule.CountdownEvent, NoneMissed, Tempered, Shape, Now;
      var n := count;
      while n >= currCountdown
        invariant 0 <= n && Running() && InRange(View(), n)
        invariant Schedule.TickN(handler, View(), n) == Schedule.TickN(handler, old(View()), count)
        decreases n
      {
        ghost var s := View();
        EventIsDue(s);
        n := n - currCountdown;
        currCountdown := 0;
        assert View() == s.(countdown := 0);
        CountdownEvent();
      }
      currCountdown := U32(currCountdown - n);
    }

    static lemma EventIsDue(s: Sched)
      requires Valid(s)
      ensures var e := s.(countdown := 0);
              AtEvent(e) && Tempered(e) && NextEvent(e) == NextEvent(s) && Clock(e) == Clock(s) + s.countdown
    {
    }

    method TimeTicks() returns (t: nat)
      ensures t == Now(View())
    {
      t := U64(ticksTotal + U32(currCountdownPeriod - currCountdown));
    }

    /** `thisTimeUsec` is the current time in microseconds. */
    method TimeUsecSequential(thisTimeUsec: nat) returns (r: nat)
      modifies this`lastTimeUsec, this`usecSinceLast
      ensures (UsecClock(lastTimeUsec, usecSinceLast), r) == ReadClock(old(UsecClock(lastTimeUsec, usecSinceLast)), thisTimeUsec)
    {
      if thisTimeUsec != lastTimeUsec {
        var diffUsec := U64(thisTimeUsec - lastTimeUsec);
        lastTimeUsec := thisTimeUsec;
        if diffUsec >= usecSinceLast {
          usecSinceLast := 0;
        } else {
          usecSinceLast := usecSinceLast - diffUsec;
        }
      }
      usecSinceLast := U64(usecSinceLast + 1);
      r := U64(thisTimeUsec + usecSinceLast);
    }
  }
}
