/**
 The virtual-time scheduler of the PC system as a value: 64-bit absolute deadlines behind a
 32-bit countdown.  Every operation is a function from state to state with the source's own
 widths written out (`U32`, `U64`); the class in PcSystem.dfy is proved against these functions.
 */
module Schedule {
  import opened Words

  const TWO32: nat := 0x1_0000_0000
  const TWO64: nat := 0x1_0000_0000_0000_0000
  const MAX_BIT64U: nat := 0xffff_ffff_ffff_ffff
  const MAX_BIT64S: nat := 0x7fff_ffff_ffff_ffff
  const NULL_TIMER_INTERVAL: nat := 0xffff_ffff
  const MIN_ALLOWABLE_TIMER_PERIOD: nat := 1
  const MAX_TIMERS: nat := 64
  /** The callback of slot 0, which does nothing. */
  const NULL_TIMER: nat := 0
  /** The null pointer stored by unregisterTimer. */
  const NO_CALLBACK: nat := 1

  datatype Timer = Timer(inUse: bool, period: nat, timeToFire: nat, active: bool, continuous: bool, funct: nat)

  /** One callback invocation: the slot it was made for and the global tick at which it was made. */
  datatype Firing = Firing(slot: nat, time: nat)

  /** `devices` encodes whatever private state the callbacks keep; `trace` lists the callbacks made so far. */
  datatype Sched = Sched(
    timers: seq<Timer>, numTimers: nat, ticksTotal: nat, countdown: nat, period: nat,
    trace: seq<Firing>, devices: int)

  /** What a callback may do to the timers while it runs. */
  datatype Command =
    | Activate(slot: nat, ticks: nat, continuous: bool)
    | Deactivate(slot: nat)

  /** A callback reads the scheduler as it finds it, issues commands and updates the device state. */
  type Handler = (nat, Sched) -> (seq<Command>, int)

  /** time_ticks */
  function Now(s: Sched): nat {
    U64(s.ticksTotal + U32(s.period - s.countdown))
  }

  /** The same reading without wrap-around; `ClockIs` shows that the two agree in every well-formed state. */
  function Clock(s: Sched): int {
    s.ticksTotal + (s.period - s.countdown)
  }

  /** The tick at which the countdown reaches zero. */
  function NextEvent(s: Sched): nat {
    s.ticksTotal + s.period
  }

  predicate Armed(s: Sched, i: nat) {
    i < s.numTimers <= |s.timers| && s.timers[i].active
  }

  function Sane(ticks: nat): (t: nat)
    ensures t >= 1 && (ticks >= 1 ==> t == ticks)
  {
    if ticks < MIN_ALLOWABLE_TIMER_PERIOD then MIN_ALLOWABLE_TIMER_PERIOD else ticks
  }

  /** Array bounds, widths, and the null timer in slot 0. */
  predicate Shape(s: Sched) {
    && |s.timers| == MAX_TIMERS
    && 1 <= s.numTimers <= MAX_TIMERS
    && 1 <= s.period <= NULL_TIMER_INTERVAL
    && (forall i :: 0 <= i < s.numTimers ==> s.timers[i].timeToFire < TWO64 && 1 <= s.timers[i].period < TWO64)
    && s.timers[0].active && s.timers[0].continuous
    && s.timers[0].period == NULL_TIMER_INTERVAL && s.timers[0].funct == NULL_TIMER
    && NextEvent(s) <= s.timers[0].timeToFire <= s.ticksTotal + NULL_TIMER_INTERVAL
  }

  /** The shape every state has between ticks, whatever was armed. */
  predicate WellFormed(s: Sched) {
    Shape(s) && 1 <= s.countdown <= s.period
  }

  /** No armed timer is due before the next event: nothing can be skipped. */
  predicate NoneMissed(s: Sched) {
    forall i :: 0 <= i < s.numTimers <= |s.timers| && s.timers[i].active ==> NextEvent(s) <= s.timers[i].timeToFire
  }

  predicate OnTime(s: Sched) {
    WellFormed(s) && NoneMissed(s)
  }

  /** Periods stay within the signed 64-bit range, the range to which time_usec casts the tick count. */
  predicate Valid(s: Sched) {
    OnTime(s) && Tempered(s)
  }

  predicate Tempered(s: Sched) {
    forall i :: 0 <= i < s.numTimers <= |s.timers| ==> s.timers[i].period <= MAX_BIT64S
  }

  /** The countdown has just reached zero and the event has not been handled yet. */
  predicate AtEvent(s: Sched) {
    s.countdown == 0 && Shape(s) && NoneMissed(s)
  }

  // ----- arming and disarming

  function ActivateTicks(s: Sched, i: nat, ticks: nat, continuous: bool): (r: Sched)
    requires WellFormed(s) && i < s.numTimers
  {
    var t := Sane(ticks);
    var armed := s.timers[i].(period := t, timeToFire := U64(s.ticksTotal + U32(s.period - s.countdown) + t),
                              active := true, continuous := continuous);
    Shorten(s.(timers := s.timers[i := armed]), t)
  }

  /** Skews the running countdown when the new deadline is nearer than its end. */
  function Shorten(s: Sched, t: nat): (r: Sched)
  {
    if t < s.countdown then
      s.(period := U32(s.period - (s.countdown - U32(t))), countdown := U32(t))
    else
      s
  }

  function DeactivateSlot(s: Sched, i: nat): (r: Sched)
    requires i < |s.timers|
  {
    s.(timers := s.timers[i := s.timers[i].(active := false)])
  }

  /** The slot register_timer_ticks picks: the lowest free one, else the first beyond the bound. */
  function FreeSlot(s: Sched, i: nat): (r: nat)
    requires i <= s.numTimers <= |s.timers|
    ensures i <= r <= s.numTimers
    ensures r < s.numTimers ==> !s.timers[r].inUse
    ensures forall j :: i <= j < r ==> s.timers[j].inUse
    decreases s.numTimers - i
  {
    if i == s.numTimers || !s.timers[i].inUse then i else FreeSlot(s, i + 1)
  }

  predicate HasRoom(s: Sched)
    requires WellFormed(s)
  {
    FreeSlot(s, 1) < MAX_TIMERS
  }

  function RegisterTicks(s: Sched, ticks: nat, continuous: bool, active: bool, funct: nat): (r: Sched)
    requires WellFormed(s) && HasRoom(s)
  {
    var t := Sane(ticks);
    var i := FreeSlot(s, 1);
    var added := Timer(true, t, U64(s.ticksTotal + U32(s.period - s.countdown) + t), active, continuous, funct);
    var s1 := s.(timers := s.timers[i := added], numTimers := if i == s.numTimers then s.numTimers + 1 else s.numTimers);
    if active then Shorten(s1, t) else s1
  }

  function Unregister(s: Sched, i: nat): (r: Sched)
    requires WellFormed(s) && 0 < i < s.numTimers
  {
    if s.timers[i].active then s
    else
      var blank := Timer(false, MAX_BIT64S, MAX_BIT64S, false, false, NO_CALLBACK);
      s.(timers := s.timers[i := blank], numTimers := if i == s.numTimers - 1 then s.numTimers - 1 else s.numTimers)
  }

  function Initialize(s: Sched): (r: Sched)
    requires |s.timers| > 0
  {
    s.(timers := s.timers[0 := s.timers[0].(timeToFire := NULL_TIMER_INTERVAL)],
       ticksTotal := 0, countdown := NULL_TIMER_INTERVAL, period := NULL_TIMER_INTERVAL)
  }

  // ----- the event

  predicate Due(t: Timer, now: nat) {
    t.active && now == t.timeToFire
  }

  /** What the first loop of countdownEvent does to one timer. */
  function Serviced(t: Timer, now: nat): (r: Timer) {
    if Due(t, now) then
      if t.continuous then t.(timeToFire := U64(t.timeToFire + t.period)) else t.(active := false)
    else t
  }

  function ServicedAll(ts: seq<Timer>, n: nat, now: nat): (r: seq<Timer>)
    requires n <= |ts|
    ensures |r| == |ts|
    ensures forall j :: 0 <= j < |ts| ==> r[j] == if j < n then Serviced(ts[j], now) else ts[j]
  {
    if n == 0 then ts else ServicedAll(ts, n - 1, now)[n - 1 := Serviced(ts[n - 1], now)]
  }

  /** The nearest deadline among the first `n` timers that are still active. */
  function Nearest(ts: seq<Timer>, n: nat): (m: nat)
    requires n <= |ts|
    ensures m <= MAX_BIT64U
    ensures forall j :: 0 <= j < n && ts[j].active ==> m <= ts[j].timeToFire
    ensures m == MAX_BIT64U || exists j :: 0 <= j < n && ts[j].active && ts[j].timeToFire == m
  {
    if n == 0 then MAX_BIT64U
    else
      var m := Nearest(ts, n - 1);
      if ts[n - 1].active && ts[n - 1].timeToFire < m then ts[n - 1].timeToFire else m
  }

  function Triggered(ts: seq<Timer>, n: nat, now: nat): (r: seq<bool>)
    requires n <= |ts|
    ensures |r| == n
    ensures forall j :: 0 <= j < n ==> r[j] == Due(ts[j], now)
  {
    if n == 0 then [] else Triggered(ts, n - 1, now) + [Due(ts[n - 1], now)]
  }

  /** countdownEvent up to the point where the callbacks start. */
  function Advance(s: Sched): (r: Sched)
    requires s.numTimers <= |s.timers|
  {
    var now := U64(s.ticksTotal + s.period);
    var ts := ServicedAll(s.timers, s.numTimers, now);
    var next := U32(U64(Nearest(ts, s.numTimers) - now));
    s.(timers := ts, ticksTotal := now, countdown := next, period := next)
  }

  predicate Legal(c: Command, s: Sched) {
    0 < c.slot < s.numTimers && (c.Activate? ==> c.ticks <= MAX_BIT64S)
  }

  /** Callbacks address registered timers other than the null timer, with ticks in the signed 64-bit range. */
  ghost predicate Tame(h: Handler) {
    forall f, s {:trigger h(f, s)} :: Valid(s) ==> forall c :: c in h(f, s).0 ==> Legal(c, s)
  }

  /** Time has not run past the signed 64-bit range. */
  predicate InRange(s: Sched, ahead: nat) {
    Clock(s) + ahead <= MAX_BIT64S
  }

  function Perform(s: Sched, cmds: seq<Command>): (r: Sched)
    requires Valid(s) && InRange(s, 0)
    requires forall c :: c in cmds ==> Legal(c, s)
    ensures Valid(r) && SameClock(s, r)
    decreases |cmds|
  {
    if cmds == [] then s
    else
      var c := cmds[0];
      assert c in cmds && Legal(c, s);
      match c {
        case Activate(i, t, k) =>
          ActivateKeepsValid(s, i, t, k);
          assert forall d :: d in cmds[1..] ==> d in cmds && Legal(d, s);
          Perform(ActivateTicks(s, i, t, k), cmds[1..])
        case Deactivate(i) =>
          DeactivateKeepsValid(s, i);
          assert forall d :: d in cmds[1..] ==> d in cmds && Legal(d, s);
          Perform(DeactivateSlot(s, i), cmds[1..])
      }
  }

  /** Same time, same registered slots, same history: all that arming and disarming leaves alone. */
  predicate SameClock(s: Sched, r: Sched) {
    && r.numTimers == s.numTimers && r.ticksTotal == s.ticksTotal
    && r.period - r.countdown == s.period - s.countdown
    && r.trace == s.trace && r.devices == s.devices
  }

  /** One callback invocation for slot `i`. */
  function Call(h: Handler, s: Sched, i: nat): (r: Sched)
    requires Tame(h) && Valid(s) && InRange(s, 0) && i < s.numTimers
    ensures Valid(r) && SameClock(s, r.(trace := s.trace, devices := s.devices))
    ensures r.trace == s.trace + [Firing(i, s.ticksTotal)]
  {
    var s1 := s.(trace := s.trace + [Firing(i, s.ticksTotal)]);
    if s.timers[i].funct == NULL_TIMER then s1
    else
      var (cmds, dev) := h(s.timers[i].funct, s);
      assert forall c :: c in cmds ==> Legal(c, s);
      Perform(s1.(devices := dev), cmds)
  }

  /** The second loop of countdownEvent, from slot `i` on. */
  function CallAll(h: Handler, s: Sched, triggered: seq<bool>, i: nat): (r: Sched)
    requires Tame(h) && Valid(s) && InRange(s, 0) && i <= |triggered| == s.numTimers
    ensures Valid(r) && SameClock(s, r.(trace := s.trace, devices := s.devices))
    ensures r.trace == s.trace + Firings(triggered, i, s.ticksTotal)
    decreases |triggered| - i
  {
    if i == |triggered| then
      assert s.trace + Firings(triggered, i, s.ticksTotal) == s.trace;
      s
    else if triggered[i] then
      var r := CallAll(h, Call(h, s, i), triggered, i + 1);
      assert s.trace + ([Firing(i, s.ticksTotal)] + Firings(triggered, i + 1, s.ticksTotal))
          == s.trace + [Firing(i, s.ticksTotal)] + Firings(triggered, i + 1, s.ticksTotal);
      r
    else CallAll(h, s, triggered, i + 1)
  }

  function Firings(triggered: seq<bool>, i: nat, now: nat): seq<Firing>
    requires i <= |triggered|
    decreases |triggered| - i
  {
    if i == |triggered| then []
    else (if triggered[i] then [Firing(i, now)] else []) + Firings(triggered, i + 1, now)
  }

  /** countdownEvent; the state is the one in which the countdown has just reached zero. */
  function CountdownEvent(h: Handler, s: Sched): (r: Sched)
    requires Tame(h) && AtEvent(s) && Tempered(s) && InRange(s, 0)
    ensures Valid(r) && r.numTimers == s.numTimers
    ensures Clock(r) == NextEvent(s)
    ensures r.trace == s.trace + Firings(Triggered(s.timers, s.numTimers, NextEvent(s)), 0, NextEvent(s))
  {
    var triggered := Triggered(s.timers, s.numTimers, U64(s.ticksTotal + s.period));
    AdvanceKeepsValid(s);
    CallAll(h, Advance(s), triggered, 0)
  }

  // ----- ticking

  function Tick1(h: Handler, s: Sched): (r: Sched)
    requires Tame(h) && Valid(s) && InRange(s, 1)
    ensures Valid(r) && r.numTimers == s.numTimers
    ensures Clock(r) == Clock(s) + 1
  {
    var s1 := s.(countdown := U32(s.countdown - 1));
    if s1.countdown == 0 then CountdownEvent(h, s1) else s1
  }

  /** n single ticks. */
  function Ticks(h: Handler, s: Sched, n: nat): (r: Sched)
    requires Tame(h) && Valid(s) && InRange(s, n)
    ensures Valid(r) && r.numTimers == s.numTimers
    ensures Clock(r) == Clock(s) + n
    decreases n
  {
    if n == 0 then s else Ticks(h, Tick1(h, s), n - 1)
  }

  /** tickn: whole countdowns at once. */
  function TickN(h: Handler, s: Sched, n: nat): (r: Sched)
    requires Tame(h) && Valid(s) && InRange(s, n)
    ensures Valid(r) && r.numTimers == s.numTimers
    decreases n
  {
    if n >= s.countdown then
      TickN(h, CountdownEvent(h, s.(countdown := 0)), n - s.countdown)
    else s.(countdown := U32(s.countdown - n))
  }

  // ----- what the operations keep

  /** Arming keeps every deadline reachable exactly when the deadline itself fits 64 bits. */
  lemma ActivateOnTimeIff(s: Sched, i: nat, ticks: nat, continuous: bool)
    requires OnTime(s) && 0 < i < s.numTimers && ticks < TWO64
    ensures OnTime(ActivateTicks(s, i, ticks, continuous)) <==> Now(s) + Sane(ticks) < TWO64
  {
    hide ActivateTicks;
    var t := Sane(ticks);
    var s1 := WithDeadline(s, i, ticks, continuous);
    ClockIs(s);
    if Now(s) + t < TWO64 {
      hide Shorten;
      ShortenOnTime(s1, i, t);
    } else {
      WrapsBehind(s, s1, i, t);
    }
  }

  /** Arming stores the deadline, modulo 2^64, and then shortens the countdown. */
  lemma WithDeadline(s: Sched, i: nat, ticks: nat, continuous: bool) returns (s1: Sched)
    requires OnTime(s) && 0 < i < s.numTimers && ticks < TWO64
    ensures ActivateTicks(s, i, ticks, continuous) == Shorten(s1, Sane(ticks)) && s1 == s.(timers := s1.timers)
    ensures WellFormed(s1) && s1.timers[i].active && s1.timers[i].timeToFire == U64(Now(s) + Sane(ticks))
    ensures forall j :: 0 <= j < s.numTimers && j != i ==> s1.timers[j] == s.timers[j]
  {
    hide Shorten;
    var t := Sane(ticks);
    ClockIs(s);
    var armed := s.timers[i].(period := t, timeToFire := U64(s.ticksTotal + U32(s.period - s.countdown) + t),
                              active := true, continuous := continuous);
    s1 := s.(timers := s.timers[i := armed]);
  }

  lemma WrapsBehind(s: Sched, s1: Sched, i: nat, t: nat)
    requires WellFormed(s) && WellFormed(s1) && s1 == s.(timers := s1.timers) && i < s.numTimers
    requires s1.timers[i].active && s1.timers[i].timeToFire == U64(Now(s) + t) && 1 <= t < TWO64 <= Now(s) + t
    ensures !OnTime(Shorten(s1, t))
  {
    ClockIs(s);
    assert Shorten(s1, t) == s1 && s1.timers[i].timeToFire == Now(s) + t - TWO64 < NextEvent(s1);
  }

  /** With every other deadline already covered, shortening the countdown covers the deadline `t` ticks ahead. */
  lemma ShortenOnTime(s: Sched, i: nat, t: nat)
    requires WellFormed(s) && i < s.numTimers && 1 <= t && s.timers[i].timeToFire == Clock(s) + t
    requires forall j :: 0 <= j < s.numTimers && j != i && s.timers[j].active ==> NextEvent(s) <= s.timers[j].timeToFire
    ensures OnTime(Shorten(s, t)) && SameClock(s, Shorten(s, t)) && Shorten(s, t).timers == s.timers
  {
    var r := Shorten(s, t);
    if t < s.countdown {
      assert r.countdown == t && r.period == s.period - (s.countdown - t);
      assert NextEvent(r) == Clock(s) + t < NextEvent(s);
    } else {
      assert r == s && NextEvent(s) <= Clock(s) + t;
    }
  }

  lemma ClockIs(s: Sched)
    requires WellFormed(s)
    ensures Now(s) == Clock(s) < NextEvent(s) < TWO64
  {
  }

  lemma ActivateKeepsValid(s: Sched, i: nat, ticks: nat, continuous: bool)
    requires Valid(s) && InRange(s, 0) && 0 < i < s.numTimers && ticks <= MAX_BIT64S
    ensures Valid(ActivateTicks(s, i, ticks, continuous))
    ensures SameClock(s, ActivateTicks(s, i, ticks, continuous))
  {
    ActivateOnTimeIff(s, i, ticks, continuous);
  }

  lemma DeactivateKeepsValid(s: Sched, i: nat)
    requires Valid(s) && 0 < i < s.numTimers
    ensures Valid(DeactivateSlot(s, i)) && SameClock(s, DeactivateSlot(s, i))
  {
  }

  /** The event keeps every deadline reachable exactly when no due periodic deadline overflows 64 bits. */
  lemma AdvanceOnTimeIff(s: Sched)
    requires AtEvent(s)
    ensures OnTime(Advance(s)) <==>
            forall i :: 0 <= i < s.numTimers && Due(s.timers[i], NextEvent(s)) && s.timers[i].continuous ==>
              NextEvent(s) + s.timers[i].period < TWO64
  {
    hide Advance, Shape, NoneMissed, WellFormed, U64, U32;
    var now := NextEvent(s);
    TimerBounds(s);
    if i: nat :| i < s.numTimers && Due(s.timers[i], now) && s.timers[i].continuous && now + s.timers[i].period >= TWO64 {
      AdvanceWraps(s, i);
    } else {
      AdvanceOnTime(s);
    }
  }

  lemma TimerBounds(s: Sched)
    requires AtEvent(s)
    ensures s.numTimers <= |s.timers|
  {
  }

  lemma AdvanceWraps(s: Sched, i: nat)
    requires AtEvent(s) && i < s.numTimers && Due(s.timers[i], NextEvent(s)) && s.timers[i].continuous
    requires NextEvent(s) + s.timers[i].period >= TWO64
    ensures !OnTime(Advance(s))
  {
    hide Nearest, ServicedAll;
    var now, r := NextEvent(s), Advance(s);
    EventClock(s);
    assert r.timers[i] == Serviced(s.timers[i], now);
    assert r.timers[i].active && r.timers[i].timeToFire < now <= NextEvent(r);
  }

  lemma AdvanceOnTime(s: Sched)
    requires AtEvent(s)
    requires forall i :: 0 <= i < s.numTimers && Due(s.timers[i], NextEvent(s)) && s.timers[i].continuous ==>
               NextEvent(s) + s.timers[i].period < TWO64
    ensures OnTime(Advance(s)) && Advance(s).ticksTotal == NextEvent(s)
  {
    AdvanceFields(s);
    var now := NextEvent(s);
    var ts := ServicedAll(s.timers, s.numTimers, now);
    ServicedAllAhead(s.timers, s.numTimers, now);
    RestartOnTime(s, ts);
  }

  /** Restarting the countdown towards the nearest of deadlines that all lie ahead puts the schedule on time. */
  lemma RestartOnTime(s: Sched, ts: seq<Timer>)
    requires Shape(s) && |ts| == |s.timers| && NextEvent(s) < TWO64
    requires forall j :: 0 <= j < s.numTimers ==>
               && ts[j].period == s.timers[j].period
               && ts[j].timeToFire < TWO64
               && (ts[j].active ==> s.timers[j].active && NextEvent(s) < ts[j].timeToFire)
    requires ts[0] == s.timers[0].(timeToFire := ts[0].timeToFire)
    requires ts[0].timeToFire <= NextEvent(s) + NULL_TIMER_INTERVAL
    ensures var now := NextEvent(s);
            var next := U32(U64(Nearest(ts, s.numTimers) - now));
            OnTime(s.(timers := ts, ticksTotal := now, countdown := next, period := next))
  {
    var now := NextEvent(s);
    NearestGap(ts, s.numTimers, now);
    var next := Nearest(ts, s.numTimers) - now;
    var r := s.(timers := ts, ticksTotal := now, countdown := next, period := next);
    assert NextEvent(r) == Nearest(ts, s.numTimers);
    assert Shape(r);
  }

  lemma ServicedAllAhead(ts: seq<Timer>, n: nat, now: nat)
    requires n <= |ts|
    requires forall j :: 0 <= j < n ==> 1 <= ts[j].period && ts[j].timeToFire < TWO64
    requires forall j :: 0 <= j < n && ts[j].active ==> now <= ts[j].timeToFire
    requires forall j :: 0 <= j < n && Due(ts[j], now) && ts[j].continuous ==> now + ts[j].period < TWO64
    ensures var r := ServicedAll(ts, n, now);
            forall j :: 0 <= j < n ==>
              && r[j].period == ts[j].period
              && r[j].timeToFire < TWO64
              && (r[j].active ==> ts[j].active && now < r[j].timeToFire)
              && (ts[j].continuous ==> r[j] == ts[j].(timeToFire := r[j].timeToFire))
              && r[j].timeToFire <= if Due(ts[j], now) then now + ts[j].period else ts[j].timeToFire
  {
    forall j | 0 <= j < n
      ensures var t := Serviced(ts[j], now);
              && t.timeToFire < TWO64
              && (t.active ==> ts[j].active && now < t.timeToFire)
              && t.timeToFire <= if Due(ts[j], now) then now + ts[j].period else ts[j].timeToFire
    {
      ServicedAhead(ts[j], now);
    }
  }

  lemma AdvanceFields(s: Sched)
    requires AtEvent(s)
    ensures var now := NextEvent(s);
            var ts := ServicedAll(s.timers, s.numTimers, now);
            var next := U32(U64(Nearest(ts, s.numTimers) - now));
            Advance(s) == s.(timers := ts, ticksTotal := now, countdown := next, period := next)
  {
    hide ServicedAll, Nearest;
    EventClock(s);
  }

  lemma EventClock(s: Sched)
    requires AtEvent(s)
    ensures U64(s.ticksTotal + s.period) == NextEvent(s) < TWO64
  {
  }

  /** A serviced timer that is still active is due strictly later, at most one period later than before. */
  lemma ServicedAhead(t: Timer, now: nat)
    requires t.active ==> now <= t.timeToFire < TWO64
    requires 1 <= t.period && (Due(t, now) && t.continuous ==> now + t.period < TWO64)
    ensures Serviced(t, now).active ==> now < Serviced(t, now).timeToFire < TWO64
    ensures Due(t, now) && t.continuous ==> Serviced(t, now) == t.(timeToFire := now + t.period)
  {
  }

  /** When every active deadline lies ahead, and slot 0 within 32 bits, the next period fits 32 bits. */
  lemma NearestGap(ts: seq<Timer>, n: nat, now: nat)
    requires 0 < n <= |ts| && now < TWO64
    requires forall j :: 0 <= j < n && ts[j].active ==> now < ts[j].timeToFire < TWO64
    requires ts[0].active && ts[0].timeToFire <= now + NULL_TIMER_INTERVAL
    ensures 1 <= Nearest(ts, n) - now <= NULL_TIMER_INTERVAL
    ensures U32(U64(Nearest(ts, n) - now)) == Nearest(ts, n) - now
  {
  }

  /** The 32-bit cast of the next period loses nothing: the period is the exact distance to the nearest deadline. */
  lemma AdvanceKeepsValid(s: Sched)
    requires AtEvent(s) && Tempered(s) && InRange(s, 0)
    ensures Valid(Advance(s)) && Advance(s).ticksTotal == NextEvent(s) && InRange(Advance(s), 0)
    ensures Advance(s).countdown == Advance(s).period == Nearest(Advance(s).timers, s.numTimers) - NextEvent(s)
  {
    AdvanceOnTime(s);
    AdvanceFields(s);
    NearestGap(Advance(s).timers, s.numTimers, NextEvent(s));
  }
}
