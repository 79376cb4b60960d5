/**
 Who owns a stack: the pool, one activation, or the list of a thread that exits. The runs in which
 every stack has exactly one owner, and what terminating another thread does to that.
 */
module StackOwners {
  import opened StackPool

  /** An entry of the pool, an activation of a thread that does not exit, or an entry of a list being drained. */
  datatype Owner = Pooled(i: nat) | Held(t: nat, i: nat) | Drained(t: nat, i: nat)

  predicate Owns(p: Pool, o: Owner, s: nat) {
    match o
    case Pooled(i) => i < |p.stacks| && p.stacks[i] == s
    case Held(t, i) => IsThread(p, t) && p.drains[t].NotExiting? && i < |p.frames[t]| && p.frames[t][i].stack == s
    case Drained(t, i) => IsThread(p, t) && i < |Live(DrainList(p.drains[t]))| && Live(DrainList(p.drains[t]))[i] == s
  }

  ghost predicate HasOwner(p: Pool, s: nat) {
    exists o :: Owns(p, o, s)
  }

  /** Every allocated stack has exactly one owner. */
  ghost predicate EachOwnedOnce(p: Pool) {
    && (forall s :: 0 < s < p.next ==> HasOwner(p, s))
    && (forall s, o, o' :: Owns(p, o, s) && Owns(p, o', s) ==> o == o')
  }

  ghost predicate Runs(frames: seq<Activation>, s: nat) {
    exists i :: 0 <= i < |frames| && frames[i] == Activation(s, Running)
  }

  /** Each live notification of a thread is the stack of one of its running activations. */
  ghost predicate AllRun(p: Pool, t: nat)
    requires IsThread(p, t)
  {
    forall s :: s in Live(p.lists[t]) ==> Runs(p.frames[t], s)
  }

  // ----- owners and places

  function PlaceOf(p: Pool, o: Owner): Place
    requires o.Held? ==> IsThread(p, o.t) && o.i < |p.frames[o.t]|
  {
    match o
    case Pooled(_) => InPool
    case Held(t, i) => if p.frames[t][i].phase.Running? then Listed(t) else InHand(t)
    case Drained(t, _) => Detached(t)
  }

  lemma OwnerPlace(p: Pool, w: map<nat, Place>, o: Owner, s: nat)
    requires Placed(p, w) && Owns(p, o, s)
    ensures s in w && w[s] == PlaceOf(p, o)
  {
    hide Live;
    match o
    case Pooled(i) =>
      assert s in p.stacks;
    case Held(t, i) =>
      assert ThreadPlaced(p, w, t);
      assert !p.frames[t][i].phase.Running? ==> i == 0 && s in Hand(p.frames[t]);
    case Drained(t, i) =>
      assert ThreadPlaced(p, w, t);
      assert s in Live(DrainList(p.drains[t]));
  }

  /** No two owners: a stack's place and its position there are unique. */
  lemma OwnersAgree(p: Pool, w: map<nat, Place>, s: nat, o: Owner, o': Owner)
    requires Placed(p, w) && Owns(p, o, s) && Owns(p, o', s)
    ensures o == o'
  {
    hide Live, Hand;
    OwnerPlace(p, w, o, s);
    OwnerPlace(p, w, o', s);
    if !o.Pooled? {
      assert ThreadPlaced(p, w, o.t);
    }
  }

  /** A stack with a place has an owner unless it is only listed, for no running activation. */
  lemma PlacedIsOwned(p: Pool, w: map<nat, Place>, s: nat)
    requires Placed(p, w) && 0 < s < p.next
    requires w[s].Listed? ==> w[s].t < |p.lists| && Runs(p.frames[w[s].t], s)
    ensures HasOwner(p, s)
  {
    hide Live;
    match w[s]
    case InPool =>
      var i: nat :| i < |p.stacks| && p.stacks[i] == s;
      assert Owns(p, Pooled(i), s);
    case Listed(t) =>
      assert ThreadPlaced(p, w, t);
      var i: nat :| i < |p.frames[t]| && p.frames[t][i] == Activation(s, Running);
      NoLive();
      assert Owns(p, Held(t, i), s);
    case Detached(t) =>
      assert ThreadPlaced(p, w, t);
      var list := Live(DrainList(p.drains[t]));
      assert s in list;
      var i: nat :| i < |list| && list[i] == s;
      assert Owns(p, Drained(t, i), s);
    case InHand(t) =>
      assert ThreadPlaced(p, w, t);
      assert s in Hand(p.frames[t]);
      assert Owns(p, Held(t, 0), s);
  }

  /** A listed stack that no running activation of its thread uses has no owner. */
  lemma ListedOnlyIsLost(p: Pool, w: map<nat, Place>, t: nat, s: nat)
    requires Placed(p, w) && IsThread(p, t) && s in w && w[s] == Listed(t) && !Runs(p.frames[t], s)
    ensures !HasOwner(p, s)
  {
    hide Placed, Owns, Runs;
    if HasOwner(p, s) {
      var o :| Owns(p, o, s);
      OwnerPlace(p, w, o, s);
      RunningOwner(p, o, s);
    }
  }

  lemma RunningOwner(p: Pool, o: Owner, s: nat)
    requires Owns(p, o, s)
    ensures o.Held? && p.frames[o.t][o.i].phase.Running? ==> Runs(p.frames[o.t], s)
  {
    if o.Held? && p.frames[o.t][o.i].phase.Running? {
      assert p.frames[o.t][o.i] == Activation(s, Running);
    }
  }

  /** Where every stack has a place, each has exactly one owner if and only if all live notifications run. */
  lemma OwnedIffAllRun(p: Pool)
    requires ExactlyOnce(p)
    ensures EachOwnedOnce(p) <==> forall t :: 0 <= t < |p.lists| ==> AllRun(p, t)
  {
    hide Placed, Owns, Runs, Live;
    var w: map<nat, Place> :| Placed(p, w);
    Threaded(p, w);
    forall s, o, o' | Owns(p, o, s) && Owns(p, o', s)
      ensures o == o'
    {
      OwnersAgree(p, w, s, o, o');
    }
    if t :| 0 <= t < |p.lists| && !AllRun(p, t) {
      var s :| s in Live(p.lists[t]) && !Runs(p.frames[t], s);
      LiveIsListed(p, w, t, s);
      ListedOnlyIsLost(p, w, t, s);
    } else {
      forall s | 0 < s < p.next
        ensures HasOwner(p, s)
      {
        PlaceIsThread(p, w, s);
        if w[s].Listed? {
          ListedIsLive(p, w, w[s].t, s);
          assert AllRun(p, w[s].t);
        }
        PlacedIsOwned(p, w, s);
      }
    }
  }

  lemma Threaded(p: Pool, w: map<nat, Place>)
    requires Placed(p, w)
    ensures |p.lists| == |p.drains| == |p.frames|
  {
  }

  lemma PlaceIsThread(p: Pool, w: map<nat, Place>, s: nat)
    requires Placed(p, w) && 0 < s < p.next
    ensures s in w && (!w[s].InPool? ==> IsThread(p, w[s].t))
  {
  }

  lemma LiveIsListed(p: Pool, w: map<nat, Place>, t: nat, s: nat)
    requires Placed(p, w) && IsThread(p, t) && s in Live(p.lists[t])
    ensures s in w && w[s] == Listed(t) && 0 < s < p.next
  {
    hide Live;
    assert ThreadPlaced(p, w, t);
  }

  lemma ListedIsLive(p: Pool, w: map<nat, Place>, t: nat, s: nat)
    requires Placed(p, w) && IsThread(p, t) && s in w && w[s] == Listed(t)
    ensures s in Live(p.lists[t])
  {
    hide Live;
    assert ThreadPlaced(p, w, t);
  }

  // ----- runs

  /** The thread has been unwound out of an activation since it last began to exit. */
  predicate Abandons(events: seq<Event>, t: nat) {
    events != []
    && var last, before := events[|events| - 1], events[..|events| - 1];
       last == Unwind(t) || (last != ExitBegin(t) && Abandons(before, t))
  }

  ghost predicate NoneAbandons(events: seq<Event>, n: nat) {
    forall t :: 0 <= t < n ==> !Abandons(events, t)
  }

  /** One step: an unwinding leaves a live notification without activation, an exit takes them all away. */
  lemma StepRuns(p: Pool, w: map<nat, Place>, e: Event, t: nat)
    requires Placed(p, w) && Enabled(p, e) && IsThread(p, t)
    ensures AllRun(Step(p, e), t) <==> e != Unwind(t) && (e == ExitBegin(t) || AllRun(p, t))
  {
    hide Placed, Live, Kill, Runs;
    if e.t == t {
      match e
      case Acquire(_) => AcquireRuns(p, t);
      case Register(_) => RegisterRuns(p, w, t);
      case Unregister(_) => UnregisterRuns(p, w, t);
      case Release(_) => ReleaseRuns(p, t);
      case Unwind(_) => UnwindRuns(p, w, t);
      case ExitBegin(_) => NoLive();
      case ExitPop(_) =>
      case ExitEnd(_) =>
        DrainingHasNoList(p, w, t);
        NoLive();
    } else {
      OtherThread(p, e, t);
    }
  }

  lemma OtherThread(p: Pool, e: Event, t: nat)
    requires Enabled(p, e) && IsThread(p, t) && e.t != t
    ensures var q := Step(p, e); IsThread(q, t) && q.lists[t] == p.lists[t] && q.frames[t] == p.frames[t]
  {
    hide Kill;
  }

  lemma DrainingHasNoList(p: Pool, w: map<nat, Place>, t: nat)
    requires Placed(p, w) && IsThread(p, t) && p.drains[t].Draining?
    ensures p.lists[t] == []
  {
    assert ThreadPlaced(p, w, t);
  }

  lemma RunsOnTop(top: Activation, rest: seq<Activation>, s: nat)
    ensures Runs([top] + rest, s) <==> top == Activation(s, Running) || Runs(rest, s)
  {
    var all := [top] + rest;
    if Runs(rest, s) {
      var i :| 0 <= i < |rest| && rest[i] == Activation(s, Running);
      assert all[i + 1] == Activation(s, Running);
    }
    if Runs(all, s) && top != Activation(s, Running) {
      var i :| 0 <= i < |all| && all[i] == Activation(s, Running);
      assert rest[i - 1] == Activation(s, Running);
    }
    if top == Activation(s, Running) {
      assert all[0] == Activation(s, Running);
    }
  }

  /** The frames of a thread, top and rest. */
  lemma FramesSplit(frames: seq<Activation>, s: nat)
    requires frames != []
    ensures Runs(frames, s) <==> frames[0] == Activation(s, Running) || Runs(frames[1..], s)
  {
    assert frames == [frames[0]] + frames[1..];
    RunsOnTop(frames[0], frames[1..], s);
  }

  lemma AcquireRuns(p: Pool, t: nat)
    requires Enabled(p, Acquire(t))
    ensures AllRun(Step(p, Acquire(t)), t) <==> AllRun(p, t)
  {
    hide Live, Runs;
    var q := Step(p, Acquire(t));
    forall s
      ensures Runs(q.frames[t], s) <==> Runs(p.frames[t], s)
    {
      RunsOnTop(q.frames[t][0], p.frames[t], s);
    }
  }

  lemma RegisterRuns(p: Pool, w: map<nat, Place>, t: nat)
    requires Placed(p, w) && Enabled(p, Register(t))
    ensures AllRun(Step(p, Register(t)), t) <==> AllRun(p, t)
  {
    hide Placed, Runs;
    var q, own := Step(p, Register(t)), p.frames[t][0].stack;
    assert q.lists[t][1..] == p.lists[t];
    TopIsHeld(p, w, t, Phase.Acquired);
    forall s
      ensures s in Live(q.lists[t]) <==> s == own || s in Live(p.lists[t])
      ensures Runs(q.frames[t], s) <==> s == own || Runs(p.frames[t], s)
    {
      RunsOnTop(q.frames[t][0], p.frames[t][1..], s);
      FramesSplit(p.frames[t], s);
    }
    if own in Live(p.lists[t]) {
      LiveIsListed(p, w, t, own);
    }
  }

  lemma UnregisterRuns(p: Pool, w: map<nat, Place>, t: nat)
    requires Placed(p, w) && Enabled(p, Unregister(t))
    ensures AllRun(Step(p, Unregister(t)), t) <==> AllRun(p, t)
  {
    hide Placed, Runs, Live, Kill;
    var q, own := Step(p, Unregister(t)), p.frames[t][0].stack;
    TopIsHeld(p, w, t, Running);
    ListedIsLive(p, w, t, own);
    UnregisterPlaces(p, w, t);
    var v := Move(p, w, Unregister(t));
    forall s
      ensures s in Live(q.lists[t]) <==> s != own && s in Live(p.lists[t])
      ensures s != own ==> (Runs(q.frames[t], s) <==> Runs(p.frames[t], s))
      ensures s == own ==> Runs(p.frames[t], s)
    {
      RunsOnTop(q.frames[t][0], p.frames[t][1..], s);
      FramesSplit(p.frames[t], s);
      LivePlace(p, w, t, s);
      LivePlace(q, v, t, s);
    }
  }

  lemma LivePlace(p: Pool, w: map<nat, Place>, t: nat, s: nat)
    requires Placed(p, w) && IsThread(p, t)
    ensures s in Live(p.lists[t]) <==> s in w && w[s] == Listed(t)
  {
    hide Live;
    assert ThreadPlaced(p, w, t);
  }

  lemma ReleaseRuns(p: Pool, t: nat)
    requires Enabled(p, Release(t))
    ensures AllRun(Step(p, Release(t)), t) <==> AllRun(p, t)
  {
    hide Live, Runs;
    forall s
      ensures Runs(p.frames[t][1..], s) <==> Runs(p.frames[t], s)
    {
      FramesSplit(p.frames[t], s);
    }
  }

  lemma UnwindRuns(p: Pool, w: map<nat, Place>, t: nat)
    requires Placed(p, w) && Enabled(p, Unwind(t))
    ensures !AllRun(Step(p, Unwind(t)), t)
  {
    hide Live;
    var q, own := Step(p, Unwind(t)), p.frames[t][0].stack;
    assert ThreadPlaced(p, w, t);
    TopIsHeld(p, w, t, Running);
    ListedIsLive(p, w, t, own);
    forall i | 0 <= i < |q.frames[t]|
      ensures q.frames[t][i].stack != own
    {
      assert q.frames[t][i] == p.frames[t][i + 1];
    }
  }

  /** In every run, a thread's live notifications all run if and only if it has not been unwound since its last exit. */
  lemma {:induction false} RunsUnlessAbandoned(n: nat, states: seq<Pool>, events: seq<Event>, t: nat)
    requires IsRun(states, events) && states[0] == Threads(n) && t < n
    ensures ExactlyOnce(states[|events|]) && IsThread(states[|events|], t) && |states[|events|].lists| == n
    ensures AllRun(states[|events|], t) <==> !Abandons(events, t)
    decreases |events|
  {
    hide Placed, Step, Runs;
    EveryRunExactlyOnce(n, states, events);
    if events == [] {
      NoLive();
    } else {
      var k := |events| - 1;
      EveryRunExactlyOnce(n, states[..|states| - 1], events[..k]);
      RunsUnlessAbandoned(n, states[..|states| - 1], events[..k], t);
      var w :| Placed(states[k], w);
      StepRuns(states[k], w, events[k], t);
      SameThreads(states[k], events[k]);
    }
  }

  lemma SameThreads(p: Pool, e: Event)
    requires Enabled(p, e)
    ensures |Step(p, e).lists| == |p.lists| && |Step(p, e).drains| == |p.drains| && |Step(p, e).frames| == |p.frames|
  {
    hide Kill;
  }

  /**
   After any run, every allocated stack is pooled once, held by exactly one activation, or once on a
   list being drained, if and only if no thread has been unwound since it last began to exit.
   */
  lemma EveryRunOwnedIff(n: nat, states: seq<Pool>, events: seq<Event>)
    requires IsRun(states, events) && states[0] == Threads(n)
    ensures EachOwnedOnce(states[|events|]) <==> NoneAbandons(events, n)
  {
    hide EachOwnedOnce, AllRun, Threads, Step;
    var p := states[|events|];
    EveryRunExactlyOnce(n, states, events);
    ThreadCount(n, states, events);
    forall t | 0 <= t < n
      ensures AllRun(p, t) <==> !Abandons(events, t)
    {
      RunsUnlessAbandoned(n, states, events, t);
    }
    OwnedIffAllRun(p);
    if t :| 0 <= t < n && Abandons(events, t) {
      assert !AllRun(p, t);
    } else {
      forall t | 0 <= t < |p.lists|
        ensures AllRun(p, t)
      {
        assert !Abandons(events, t);
      }
    }
  }

  lemma {:induction false} ThreadCount(n: nat, states: seq<Pool>, events: seq<Event>)
    requires IsRun(states, events) && states[0] == Threads(n)
    ensures var p := states[|events|]; |p.lists| == |p.drains| == |p.frames| == n
    decreases |events|
  {
    hide Step;
    if events != [] {
      var k := |events| - 1;
      ThreadCount(n, states[..|states| - 1], events[..k]);
      SameThreads(states[k], events[k]);
    }
  }

  /** The shortest such run: an activation that an exception leaves loses its stack to everybody. */
  lemma UnwindLosesStack(n: nat)
    requires n > 0
    ensures var p0 := Threads(n);
            && Enabled(p0, Acquire(0)) && var p1 := Step(p0, Acquire(0));
            && Enabled(p1, Register(0)) && var p2 := Step(p1, Register(0));
            && Enabled(p2, Unwind(0)) && var p3 := Step(p2, Unwind(0));
            ExactlyOnce(p3) && p3.next == 2 && !HasOwner(p3, 1)
  {
    hide Placed, Owns, Threads, Live;
    var p0 := Threads(n);
    StartPlaced(n);
    var p1 := Step(p0, Acquire(0));
    StepPlaces(p0, map[], Acquire(0));
    var w1 := Move(p0, map[], Acquire(0));
    var p2 := Step(p1, Register(0));
    StepPlaces(p1, w1, Register(0));
    var w2 := Move(p1, w1, Register(0));
    var p3 := Step(p2, Unwind(0));
    StepPlaces(p2, w2, Unwind(0));
    assert p3.frames[0] == [] && w2[1] == Listed(0);
    ListedOnlyIsLost(p3, w2, 0, 1);
  }

  // ----- TerminateThread on another thread

  /** The victim ends where it is, with the list it may be draining; then its exit is notified by the caller. */
  function TerminateOther(p: Pool, current: nat, victim: nat): Pool
    requires IsThread(p, current) && IsThread(p, victim)
  {
    Notify(p.(frames := p.frames[victim := []], drains := p.drains[victim := NotExiting]), current)
  }

  /** Nothing is lost with the thread: no activation, no live notification, nothing left to drain. */
  predicate OwnsNothing(p: Pool, t: nat)
    requires IsThread(p, t)
  {
    Live(p.lists[t]) == [] && if p.drains[t].NotExiting? then p.frames[t] == [] else Live(p.drains[t].list) == []
  }

  ghost predicate OthersRun(p: Pool, current: nat, victim: nat) {
    |p.lists| == |p.drains| == |p.frames| && forall t :: 0 <= t < |p.lists| && t != current && t != victim ==> AllRun(p, t)
  }

  /**
   Terminating another thread leaves every stack in one place with one owner if and only if the caller
   runs on no emulated stack, the victim owns none, and no other thread has lost one before.
   */
  lemma TerminateOtherIff(p: Pool, current: nat, victim: nat)
    requires ExactlyOnce(p) && IsThread(p, current) && IsThread(p, victim) && current != victim && InCode(p, current)
    ensures ExactlyOnce(TerminateOther(p, current, victim)) && EachOwnedOnce(TerminateOther(p, current, victim))
            <==> p.frames[current] == [] && OwnsNothing(p, victim) && OthersRun(p, current, victim)
  {
    hide Placed, Owns, TerminateOther, AllRun, Live;
    var w: map<nat, Place> :| Placed(p, w);
    if p.frames[current] != [] {
      CallerLosesStack(p, w, current, victim);
    } else if !OwnsNothing(p, victim) {
      var s := LostWith(p, w, victim);
      VictimLosesStack(p, w, current, victim, s);
    } else if !OthersRun(p, current, victim) {
      var t :| 0 <= t < |p.lists| && t != current && t != victim && !AllRun(p, t);
      StaysLost(p, w, current, victim, t);
    } else {
      TerminateKeeps(p, w, current, victim);
    }
  }

  /** In particular, a caller that gets there through emulated code, and so runs on a stack, always breaks it. */
  lemma TerminateFromEmulatedCode(p: Pool, current: nat, victim: nat)
    requires ExactlyOnce(p) && IsThread(p, current) && IsThread(p, victim) && current != victim && InCode(p, current)
    requires p.frames[current] != []
    ensures var q, s := TerminateOther(p, current, victim), p.frames[current][0].stack;
            s in q.stacks && Owns(q, Held(current, 0), s) && !EachOwnedOnce(q)
  {
    hide Placed, Owns, TerminateOther, Live;
    var w: map<nat, Place> :| Placed(p, w);
    CallerLosesStack(p, w, current, victim);
  }

  /** The caller's own stack is back in the pool while it still runs on it. */
  lemma CallerLosesStack(p: Pool, w: map<nat, Place>, current: nat, victim: nat)
    requires Placed(p, w) && IsThread(p, current) && IsThread(p, victim) && current != victim && InCode(p, current)
    requires p.frames[current] != []
    ensures var q, s := TerminateOther(p, current, victim), p.frames[current][0].stack;
            s in q.stacks && Owns(q, Held(current, 0), s) && !EachOwnedOnce(q)
  {
    hide Live, DrainedInto, Placed;
    var q, s := TerminateOther(p, current, victim), p.frames[current][0].stack;
    TopIsHeld(p, w, current, Running);
    ListedIsLive(p, w, current, s);
    DrainedHas(p.stacks, p.lists[current], s);
    assert s in q.stacks;
    var i: nat :| i < |q.stacks| && q.stacks[i] == s;
    assert Owns(q, Pooled(i), s) && Owns(q, Held(current, 0), s);
  }

  /** Owners after the termination were owners before, but for the caller's list, now in the pool, and the victim. */
  lemma OwnerAfter(p: Pool, w: map<nat, Place>, current: nat, victim: nat, o: Owner, s: nat)
    requires Placed(p, w) && IsThread(p, current) && IsThread(p, victim) && current != victim
    requires Owns(TerminateOther(p, current, victim), o, s)
    ensures s in w
    ensures o.Pooled? ==> w[s] == InPool || w[s] == Listed(current)
    ensures !o.Pooled? ==> o.t != victim && Owns(p, o, s) && w[s] == PlaceOf(p, o)
  {
    hide Placed, Live, DrainedInto;
    var q := TerminateOther(p, current, victim);
    NoLive();
    if o.Pooled? {
      assert s in q.stacks;
      DrainedHas(p.stacks, p.lists[current], s);
      PooledPlace(p, w, s);
      LivePlace(p, w, current, s);
    } else {
      assert Owns(p, o, s);
      OwnerPlace(p, w, o, s);
    }
  }

  lemma PooledPlace(p: Pool, w: map<nat, Place>, s: nat)
    requires Placed(p, w)
    ensures s in p.stacks <==> s in w && w[s] == InPool
  {
  }

  /** The stacks that only the victim could have given back. */
  predicate OnlyOf(place: Place, t: nat) {
    place == Listed(t) || place == Detached(t) || place == InHand(t)
  }

  /** A thread that owns something has such a stack. */
  lemma LostWith(p: Pool, w: map<nat, Place>, t: nat) returns (s: nat)
    requires Placed(p, w) && IsThread(p, t) && !OwnsNothing(p, t)
    ensures 0 < s < p.next && s in w && OnlyOf(w[s], t)
  {
    hide Live;
    assert ThreadPlaced(p, w, t);
    if Live(p.lists[t]) != [] {
      s := Live(p.lists[t])[0];
      assert s in Live(p.lists[t]);
    } else if p.drains[t].NotExiting? {
      s := p.frames[t][0].stack;
      TopIsHeld(p, w, t, p.frames[t][0].phase);
    } else {
      s := Live(p.drains[t].list)[0];
      assert s in Live(DrainList(p.drains[t]));
    }
  }

  /** A stack the victim runs on, has in hand, has registered or was draining is lost with it. */
  lemma VictimLosesStack(p: Pool, w: map<nat, Place>, current: nat, victim: nat, s: nat)
    requires Placed(p, w) && IsThread(p, current) && IsThread(p, victim) && current != victim
    requires 0 < s < p.next && s in w && OnlyOf(w[s], victim)
    ensures var q := TerminateOther(p, current, victim); s < q.next && !HasOwner(q, s) && !EachOwnedOnce(q)
  {
    hide Placed, Owns, Live;
    var q := TerminateOther(p, current, victim);
    if HasOwner(q, s) {
      var o :| Owns(q, o, s);
      OwnerAfter(p, w, current, victim, o, s);
    }
  }

  /** A stack that another thread had lost stays lost. */
  lemma StaysLost(p: Pool, w: map<nat, Place>, current: nat, victim: nat, t: nat)
    requires Placed(p, w) && IsThread(p, current) && IsThread(p, victim) && current != victim
    requires IsThread(p, t) && t != current && t != victim && !AllRun(p, t)
    ensures !EachOwnedOnce(TerminateOther(p, current, victim))
  {
    hide Placed, Owns, Live;
    var q := TerminateOther(p, current, victim);
    var s :| s in Live(p.lists[t]) && !Runs(p.frames[t], s);
    LiveIsListed(p, w, t, s);
    ListedOnlyIsLost(p, w, t, s);
    if HasOwner(q, s) {
      var o :| Owns(q, o, s);
      OwnerAfter(p, w, current, victim, o, s);
    }
  }

  lemma TerminateKeeps(p: Pool, w: map<nat, Place>, current: nat, victim: nat)
    requires Placed(p, w) && IsThread(p, current) && IsThread(p, victim) && current != victim && InCode(p, current)
    requires p.frames[current] == [] && OwnsNothing(p, victim) && OthersRun(p, current, victim)
    ensures ExactlyOnce(TerminateOther(p, current, victim)) && EachOwnedOnce(TerminateOther(p, current, victim))
  {
    hide Placed, Live, DrainedInto;
    var q := TerminateOther(p, current, victim);
    var v := TerminatedPlaces(p, w, current, victim);
    NoLive();
    forall t | 0 <= t < |q.lists|
      ensures AllRun(q, t)
    {
      assert t != current && t != victim ==> AllRun(p, t);
    }
    OwnedIffAllRun(q);
  }

  lemma TerminatedPlaces(p: Pool, w: map<nat, Place>, current: nat, victim: nat) returns (v: map<nat, Place>)
    requires Placed(p, w) && IsThread(p, current) && IsThread(p, victim) && current != victim && InCode(p, current)
    requires p.frames[current] == [] && OwnsNothing(p, victim)
    ensures Placed(TerminateOther(p, current, victim), v)
  {
    hide Live, DrainedInto, Holds;
    var q := TerminateOther(p, current, victim);
    assert ThreadPlaced(p, w, current);
    v := DrainPlaces(p.stacks, p.lists[current], w, current);
    NoLive();
    forall u | 0 <= u < |q.lists|
      ensures ThreadPlaced(q, v, u)
    {
      assert ThreadPlaced(p, w, u);
      DrainedElsewhere(p, w, v, current, u);
      if u == current {
        EmptyHolds(v, Listed(u));
      }
      if u == victim && p.drains[u].Draining? {
        EmptyHolds(v, InHand(u));
      }
    }
    KeptPlaces(p, w, v, current);
  }

  lemma EmptyHolds(w: map<nat, Place>, place: Place)
    requires forall s :: s in w ==> w[s] != place
    ensures Holds([], w, place)
  {
  }

  lemma KeptPlaces(p: Pool, w: map<nat, Place>, v: map<nat, Place>, current: nat)
    requires Placed(p, w) && v.Keys == w.Keys && forall s :: s in w ==> v[s] == if w[s] == Listed(current) then InPool else w[s]
    ensures forall s :: s in v <==> 0 < s < p.next
    ensures forall s :: s in v && !v[s].InPool? ==> v[s].t < |p.lists|
  {
    forall s
      ensures s in v <==> 0 < s < p.next
    {
      assert s in v <==> s in v.Keys;
      assert s in w <==> s in w.Keys;
    }
  }

  lemma DrainedElsewhere(p: Pool, w: map<nat, Place>, v: map<nat, Place>, current: nat, u: nat)
    requires Placed(p, w) && IsThread(p, current) && IsThread(p, u)
    requires v.Keys == w.Keys && forall s :: s in w ==> v[s] == if w[s] == Listed(current) then InPool else w[s]
    ensures u != current ==> Holds(Live(p.lists[u]), v, Listed(u))
    ensures Holds(Live(DrainList(p.drains[u])), v, Detached(u))
    ensures p.drains[u].NotExiting? ==> Holds(Hand(p.frames[u]), v, InHand(u))
    ensures p.drains[u].Draining? ==> forall s :: s in v ==> v[s] != InHand(u)
    ensures u != current && p.drains[u].NotExiting? ==> FramesPlaced(p.frames[u], v, u)
  {
    hide Live;
    assert ThreadPlaced(p, w, u);
    if u != current {
      Renamed(Live(p.lists[u]), w, v, Listed(u), Listed(u));
    }
    Renamed(Live(DrainList(p.drains[u])), w, v, Detached(u), Detached(u));
    if p.drains[u].NotExiting? {
      Renamed(Hand(p.frames[u]), w, v, InHand(u), InHand(u));
    }
  }
}
