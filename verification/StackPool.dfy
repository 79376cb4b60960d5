/**
 The emulator's stacks as a protocol of threads: EmuExecute takes a stack from the shared list or
 allocates one, registers its return with the thread, and gives it back when it ends; a thread that
 exits gives back what is still registered. Every list operation is one atomic step, and the steps of
 different threads interleave in any order.
 */
module StackPool {
  /** A CbNotif for ReuseStack; a removed one stays in the list with its function cleared. */
  datatype Notif = Notif(live: bool, stack: nat)

  /** How far an activation of EmuExecute is: stack taken, registered and running, or unregistered again. */
  datatype Phase = Acquired | Running | Unregistered

  datatype Activation = Activation(stack: nat, phase: Phase)

  datatype Drain = NotExiting | Draining(list: seq<Notif>)

  /**
   StackList, the notification list and the activations of every thread (innermost first), the list
   a thread exit has detached, and the number of the next stack AllocStack makes.
   */
  datatype Pool = Pool(
    stacks: seq<nat>,
    lists: seq<seq<Notif>>,
    drains: seq<Drain>,
    frames: seq<seq<Activation>>,
    next: nat)

  predicate IsThread(p: Pool, t: nat) {
    t < |p.lists| && |p.lists| == |p.drains| == |p.frames|
  }

  /** The thread is in native or emulated code of its innermost activation, if it has one. */
  predicate InCode(p: Pool, t: nat)
    requires IsThread(p, t)
  {
    p.drains[t].NotExiting? && (p.frames[t] == [] || p.frames[t][0].phase.Running?)
  }

  predicate InPhase(p: Pool, t: nat, phase: Phase)
    requires IsThread(p, t)
  {
    p.drains[t].NotExiting? && p.frames[t] != [] && p.frames[t][0].phase == phase
  }

  // ----- the steps

  datatype Event =
    | Acquire(t: nat) | Register(t: nat) | Unregister(t: nat) | Release(t: nat)
    | Unwind(t: nat)
    | ExitBegin(t: nat) | ExitPop(t: nat) | ExitEnd(t: nat)

  predicate Enabled(p: Pool, e: Event) {
    IsThread(p, e.t)
    && match e
       case Acquire(t) => InCode(p, t)
       case Register(t) => InPhase(p, t, Phase.Acquired)
       case Unregister(t) => InPhase(p, t, Running)
       case Release(t) => InPhase(p, t, Unregistered)
       case Unwind(t) => InPhase(p, t, Running)
       case ExitBegin(t) => InCode(p, t)
       case ExitPop(t) => p.drains[t].Draining? && p.drains[t].list != []
       case ExitEnd(t) => p.drains[t].Draining? && p.drains[t].list == []
  }

  /** CbRemoveCallAtThreadExit: clears the first matching notification. */
  function Kill(list: seq<Notif>, stack: nat): (r: seq<Notif>)
    ensures |r| == |list|
  {
    if list == [] then []
    else if list[0] == Notif(true, stack) then [Notif(false, 0)] + list[1..]
    else [list[0]] + Kill(list[1..], stack)
  }

  function SetTop(p: Pool, t: nat, phase: Phase): Pool
    requires IsThread(p, t) && p.frames[t] != []
  {
    p.(frames := p.frames[t := [p.frames[t][0].(phase := phase)] + p.frames[t][1..]])
  }

  function PopFrame(p: Pool, t: nat): Pool
    requires IsThread(p, t) && p.frames[t] != []
  {
    p.(frames := p.frames[t := p.frames[t][1..]])
  }

  function Step(p: Pool, e: Event): Pool
    requires Enabled(p, e)
  {
    match e
    case Acquire(t) =>
      if p.stacks != [] then
        p.(stacks := p.stacks[1..], frames := p.frames[t := [Activation(p.stacks[0], Phase.Acquired)] + p.frames[t]])
      else
        p.(next := p.next + 1, frames := p.frames[t := [Activation(p.next, Phase.Acquired)] + p.frames[t]])
    case Register(t) =>
      SetTop(p, t, Running).(lists := p.lists[t := [Notif(true, p.frames[t][0].stack)] + p.lists[t]])
    case Unregister(t) =>
      SetTop(p, t, Unregistered).(lists := p.lists[t := Kill(p.lists[t], p.frames[t][0].stack)])
    case Release(t) => PopFrame(p, t).(stacks := [p.frames[t][0].stack] + p.stacks)
    case Unwind(t) => PopFrame(p, t)
    case ExitBegin(t) => p.(lists := p.lists[t := []], drains := p.drains[t := Draining(p.lists[t])])
    case ExitPop(t) =>
      var list := p.drains[t].list;
      var q := p.(drains := p.drains[t := Draining(list[1..])]);
      if list[0].live then q.(stacks := [list[0].stack] + p.stacks) else q
    case ExitEnd(t) => p.(drains := p.drains[t := NotExiting], frames := p.frames[t := []])
  }

  // ----- where a stack is

  datatype Place = InPool | Listed(t: nat) | Detached(t: nat) | InHand(t: nat)

  function Live(list: seq<Notif>): seq<nat> {
    if list == [] then [] else (if list[0].live then [list[0].stack] else []) + Live(list[1..])
  }

  /** xs holds exactly the stacks at a place, each once. */
  ghost predicate Holds(xs: seq<nat>, w: map<nat, Place>, place: Place) {
    && (forall i, j :: 0 <= i < j < |xs| ==> xs[i] != xs[j])
    && (forall s :: s in xs <==> s in w && w[s] == place)
  }

  /** The stack a thread has taken but not registered, or unregistered but not given back. */
  function Hand(frames: seq<Activation>): seq<nat> {
    if frames != [] && !frames[0].phase.Running? then [frames[0].stack] else []
  }

  function DrainList(d: Drain): seq<Notif> {
    if d.Draining? then d.list else []
  }

  /** Of a thread's activations only the innermost may be starting or ending; the others run on registered stacks. */
  ghost predicate FramesPlaced(frames: seq<Activation>, w: map<nat, Place>, t: nat) {
    && (forall i, j :: 0 <= i < j < |frames| ==> frames[i].stack != frames[j].stack)
    && (forall i :: 0 <= i < |frames| && frames[i].phase.Running? ==> frames[i].stack in w && w[frames[i].stack] == Listed(t))
    && (forall i :: 0 < i < |frames| ==> frames[i].phase.Running?)
  }

  ghost predicate ThreadPlaced(p: Pool, w: map<nat, Place>, t: nat)
    requires IsThread(p, t)
  {
    && Holds(Live(p.lists[t]), w, Listed(t))
    && Holds(Live(DrainList(p.drains[t])), w, Detached(t))
    && (p.drains[t].NotExiting? ==> Holds(Hand(p.frames[t]), w, InHand(t)) && FramesPlaced(p.frames[t], w, t))
    && (p.drains[t].Draining? ==> p.lists[t] == [] && forall s :: s in w ==> w[s] != InHand(t))
  }

  /** Every allocated stack is in exactly one place, once. */
  ghost predicate Placed(p: Pool, w: map<nat, Place>) {
    && |p.lists| == |p.drains| == |p.frames| && p.next > 0
    && (forall s :: s in w <==> 0 < s < p.next)
    && (forall s :: s in w && !w[s].InPool? ==> w[s].t < |p.lists|)
    && Holds(p.stacks, w, InPool)
    && forall t :: 0 <= t < |p.lists| ==> ThreadPlaced(p, w, t)
  }

  ghost predicate ExactlyOnce(p: Pool) {
    exists w :: Placed(p, w)
  }

  /** The place a step moves its stack to. */
  function Move(p: Pool, w: map<nat, Place>, e: Event): map<nat, Place>
    requires Enabled(p, e)
  {
    match e
    case Acquire(t) => w[(if p.stacks != [] then p.stacks[0] else p.next) := InHand(t)]
    case Register(t) => w[p.frames[t][0].stack := Listed(t)]
    case Unregister(t) => w[p.frames[t][0].stack := InHand(t)]
    case Release(t) => w[p.frames[t][0].stack := InPool]
    case Unwind(t) => w
    case ExitBegin(t) => map s | s in w :: if w[s] == Listed(t) then Detached(t) else w[s]
    case ExitPop(t) => if p.drains[t].list[0].live then w[p.drains[t].list[0].stack := InPool] else w
    case ExitEnd(t) => w
  }

  // ----- lists

  lemma HoldsRest(xs: seq<nat>, w: map<nat, Place>, place: Place, to: Place)
    requires Holds(xs, w, place) && xs != [] && to != place
    ensures Holds(xs[1..], w[xs[0] := to], place)
  {
    forall s
      ensures s in xs[1..] <==> s in w[xs[0] := to] && w[xs[0] := to][s] == place
    {
      if s in xs[1..] {
        var i :| 0 <= i < |xs| - 1 && xs[1..][i] == s;
        assert xs[i + 1] == s && s != xs[0];
        assert s in xs;
      }
    }
  }

  lemma HoldsMore(xs: seq<nat>, w: map<nat, Place>, place: Place, s: nat)
    requires Holds(xs, w, place) && (s in w ==> w[s] != place)
    ensures Holds([s] + xs, w[s := place], place)
  {
    assert s !in xs;
  }

  lemma HoldsOther(xs: seq<nat>, w: map<nat, Place>, place: Place, s: nat, to: Place)
    requires Holds(xs, w, place) && to != place && (s in w ==> w[s] != place)
    ensures Holds(xs, w[s := to], place)
  {
  }

  function Without(xs: seq<nat>, i: nat): (r: seq<nat>)
    requires i < |xs|
    ensures |r| == |xs| - 1
    ensures forall j :: 0 <= j < |r| ==> r[j] == if j < i then xs[j] else xs[j + 1]
  {
    xs[..i] + xs[i + 1..]
  }

  lemma WithoutHas(xs: seq<nat>, i: nat, s: nat)
    requires i < |xs| && forall j, k :: 0 <= j < k < |xs| ==> xs[j] != xs[k]
    ensures s in Without(xs, i) <==> s in xs && s != xs[i]
  {
    var ys := Without(xs, i);
    if s in xs && s != xs[i] {
      var j :| 0 <= j < |xs| && xs[j] == s;
      assert ys[if j < i then j else j - 1] == s;
    }
    if s in ys {
      var j :| 0 <= j < |ys| && ys[j] == s;
      assert s == xs[if j < i then j else j + 1];
    }
  }

  lemma HoldsWithout(xs: seq<nat>, i: nat, w: map<nat, Place>, place: Place, to: Place)
    requires Holds(xs, w, place) && i < |xs| && to != place
    ensures Holds(Without(xs, i), w[xs[i] := to], place)
  {
    forall s
      ensures s in Without(xs, i) <==> s in w[xs[i] := to] && w[xs[i] := to][s] == place
    {
      WithoutHas(xs, i, s);
    }
  }

  lemma KillKeepsOthers(list: seq<Notif>, stack: nat, w: map<nat, Place>, place: Place, to: Place)
    requires Holds(Live(list), w, place) && stack in Live(list) && to != place
    ensures Holds(Live(Kill(list, stack)), w[stack := to], place)
  {
    hide Holds, Live, Kill;
    var i := KillRemoves(list, stack);
    HoldsWithout(Live(list), i, w, place, to);
  }

  lemma WithoutFirst(x: nat, xs: seq<nat>)
    ensures Without([x] + xs, 0) == xs
  {
  }

  lemma WithoutLater(x: nat, xs: seq<nat>, i: nat)
    requires i < |xs|
    ensures Without([x] + xs, i + 1) == [x] + Without(xs, i)
  {
    assert ([x] + xs)[..i + 1] == [x] + xs[..i] && ([x] + xs)[i + 2..] == xs[i + 1..];
  }

  lemma LiveHead(head: Notif, rest: seq<Notif>)
    ensures Live([head] + rest) == if head.live then [head.stack] + Live(rest) else Live(rest)
  {
    assert ([head] + rest)[1..] == rest;
  }

  lemma KillHead(head: Notif, rest: seq<Notif>, stack: nat)
    ensures Kill([head] + rest, stack) == if head == Notif(true, stack) then [Notif(false, 0)] + rest else [head] + Kill(rest, stack)
  {
    assert ([head] + rest)[1..] == rest;
  }

  lemma LaterIn(x: nat, xs: seq<nat>, s: nat)
    requires s in [x] + xs && s != x
    ensures s in xs
  {
  }

  /** Exactly one live notification of the stack goes, and the others keep their order. */
  lemma {:induction false} KillRemoves(list: seq<Notif>, stack: nat) returns (i: nat)
    requires stack in Live(list)
    ensures i < |Live(list)| && Live(list)[i] == stack && Live(Kill(list, stack)) == Without(Live(list), i)
    decreases list
  {
    hide Without, Kill, Live;
    NoLive();
    var head, rest := list[0], list[1..];
    assert list == [head] + rest;
    LiveHead(head, rest);
    KillHead(head, rest, stack);
    if head == Notif(true, stack) {
      i := 0;
      LiveHead(Notif(false, 0), rest);
      WithoutFirst(stack, Live(rest));
    } else if head.live {
      LaterIn(head.stack, Live(rest), stack);
      var j := KillRemoves(rest, stack);
      LiveHead(head, Kill(rest, stack));
      WithoutLater(head.stack, Live(rest), j);
      i := j + 1;
    } else {
      i := KillRemoves(rest, stack);
      LiveHead(head, Kill(rest, stack));
    }
  }

  lemma NoLive()
    ensures Live([]) == []
  {
  }

  // ----- every step keeps every stack in one place

  lemma OthersKept(p: Pool, q: Pool, w: map<nat, Place>, t: nat, u: nat, s: nat, to: Place)
    requires IsThread(p, t) && IsThread(q, t) && IsThread(p, u) && |q.lists| == |p.lists| && t != u
    requires q.lists[u] == p.lists[u] && q.drains[u] == p.drains[u] && q.frames[u] == p.frames[u]
    requires ThreadPlaced(p, w, u) && (s in w ==> w[s].InPool? || w[s].t == t) && (to.InPool? || to.t == t)
    ensures ThreadPlaced(q, w[s := to], u)
  {
    hide Live, Hand, Holds;
    HoldsOther(Live(p.lists[u]), w, Listed(u), s, to);
    HoldsOther(Live(DrainList(p.drains[u])), w, Detached(u), s, to);
    if p.drains[u].NotExiting? {
      HoldsOther(Hand(p.frames[u]), w, InHand(u), s, to);
    }
  }

  /** A step that moves one stack of thread t: what is left to show is the pool and the thread itself. */
  lemma OneMoves(p: Pool, q: Pool, w: map<nat, Place>, t: nat, s: nat, to: Place)
    requires Placed(p, w) && IsThread(p, t) && |q.lists| == |q.drains| == |q.frames| == |p.lists|
    requires forall u :: 0 <= u < |p.lists| && u != t ==>
               q.lists[u] == p.lists[u] && q.drains[u] == p.drains[u] && q.frames[u] == p.frames[u]
    requires 0 < s < q.next && (q.next == p.next || (q.next == p.next + 1 && s == p.next))
    requires (s in w ==> w[s].InPool? || w[s].t == t) && (to.InPool? || to.t == t)
    requires Holds(q.stacks, w[s := to], InPool) && ThreadPlaced(q, w[s := to], t)
    ensures Placed(q, w[s := to])
  {
    hide Holds, ThreadPlaced;
    var w' := w[s := to];
    forall u: nat | u < |q.lists|
      ensures ThreadPlaced(q, w', u)
    {
      if u != t {
        OthersKept(p, q, w, t, u, s, to);
      }
    }
  }

  lemma AcquirePlaces(p: Pool, w: map<nat, Place>, t: nat)
    requires Placed(p, w) && Enabled(p, Acquire(t))
    ensures Placed(Step(p, Acquire(t)), Move(p, w, Acquire(t)))
  {
    hide Live;
    var q := Step(p, Acquire(t));
    var s := if p.stacks != [] then p.stacks[0] else p.next;
    var w' := w[s := InHand(t)];
    assert ThreadPlaced(p, w, t);
    assert s in w ==> w[s] == InPool;
    if p.stacks != [] {
      assert s in p.stacks;
      HoldsRest(p.stacks, w, InPool, InHand(t));
    } else {
      HoldsOther(p.stacks, w, InPool, s, InHand(t));
    }
    HoldsOther(Live(p.lists[t]), w, Listed(t), s, InHand(t));
    HoldsOther(Live(DrainList(p.drains[t])), w, Detached(t), s, InHand(t));
    assert Hand(p.frames[t]) == [];
    HoldsMore([], w, InHand(t), s);
    assert [s] + [] == [s];
    TakenOnTop(p.frames[t], w, t, s);
    OneMoves(p, q, w, t, s, InHand(t));
  }

  lemma TakenOnTop(frames: seq<Activation>, w: map<nat, Place>, t: nat, s: nat)
    requires FramesPlaced(frames, w, t) && (s in w ==> w[s] == InPool) && (frames == [] || frames[0].phase.Running?)
    ensures FramesPlaced([Activation(s, Phase.Acquired)] + frames, w[s := InHand(t)], t)
  {
    forall i | 0 <= i < |frames|
      ensures frames[i].phase.Running? && frames[i].stack != s
    {
      assert i > 0 ==> frames[i].phase.Running?;
    }
  }

  lemma TopIsHeld(p: Pool, w: map<nat, Place>, t: nat, phase: Phase)
    requires Placed(p, w) && IsThread(p, t) && InPhase(p, t, phase)
    ensures var s := p.frames[t][0].stack;
            0 < s < p.next && s in w && w[s] == (if phase.Running? then Listed(t) else InHand(t))
  {
    assert ThreadPlaced(p, w, t);
    assert !phase.Running? ==> p.frames[t][0].stack in Hand(p.frames[t]);
  }

  lemma RegisterPlaces(p: Pool, w: map<nat, Place>, t: nat)
    requires Placed(p, w) && Enabled(p, Register(t))
    ensures Placed(Step(p, Register(t)), Move(p, w, Register(t)))
  {
    var q, s := Step(p, Register(t)), p.frames[t][0].stack;
    assert ThreadPlaced(p, w, t);
    TopIsHeld(p, w, t, Phase.Acquired);
    HoldsOther(p.stacks, w, InPool, s, Listed(t));
    HoldsMore(Live(p.lists[t]), w, Listed(t), s);
    assert q.lists[t][1..] == p.lists[t];
    HoldsOther(Live(DrainList(p.drains[t])), w, Detached(t), s, Listed(t));
    HoldsRest(Hand(p.frames[t]), w, InHand(t), Listed(t));
    OneMoves(p, q, w, t, s, Listed(t));
  }

  lemma UnregisterPlaces(p: Pool, w: map<nat, Place>, t: nat)
    requires Placed(p, w) && Enabled(p, Unregister(t))
    ensures Placed(Step(p, Unregister(t)), Move(p, w, Unregister(t)))
  {
    hide Live, Kill;
    var q, s := Step(p, Unregister(t)), p.frames[t][0].stack;
    assert ThreadPlaced(p, w, t);
    TopIsHeld(p, w, t, Running);
    HoldsOther(p.stacks, w, InPool, s, InHand(t));
    assert s in Live(p.lists[t]);
    KillKeepsOthers(p.lists[t], s, w, Listed(t), InHand(t));
    HoldsOther(Live(DrainList(p.drains[t])), w, Detached(t), s, InHand(t));
    assert Hand(p.frames[t]) == [];
    HoldsMore([], w, InHand(t), s);
    assert [s] + [] == [s];
    OneMoves(p, q, w, t, s, InHand(t));
  }

  lemma ReleasePlaces(p: Pool, w: map<nat, Place>, t: nat)
    requires Placed(p, w) && Enabled(p, Release(t))
    ensures Placed(Step(p, Release(t)), Move(p, w, Release(t)))
  {
    hide Live;
    var q, s := Step(p, Release(t)), p.frames[t][0].stack;
    assert ThreadPlaced(p, w, t);
    TopIsHeld(p, w, t, Unregistered);
    HoldsMore(p.stacks, w, InPool, s);
    HoldsOther(Live(p.lists[t]), w, Listed(t), s, InPool);
    HoldsOther(Live(DrainList(p.drains[t])), w, Detached(t), s, InPool);
    HoldsRest(Hand(p.frames[t]), w, InHand(t), InPool);
    assert Hand(q.frames[t]) == [] by {
      assert |p.frames[t]| > 1 ==> p.frames[t][1].phase.Running?;
    }
    OneMoves(p, q, w, t, s, InPool);
  }

  lemma UnwindPlaces(p: Pool, w: map<nat, Place>, t: nat)
    requires Placed(p, w) && Enabled(p, Unwind(t))
    ensures Placed(Step(p, Unwind(t)), w)
  {
    hide Live, Holds;
    var q := Step(p, Unwind(t));
    assert ThreadPlaced(p, w, t);
    assert Hand(q.frames[t]) == [] == Hand(p.frames[t]) by {
      assert |p.frames[t]| > 1 ==> p.frames[t][1].phase.Running?;
    }
    forall u | 0 <= u < |q.lists|
      ensures ThreadPlaced(q, w, u)
    {
      assert ThreadPlaced(p, w, u);
    }
  }

  lemma ExitPopLive(p: Pool, w: map<nat, Place>, t: nat)
    requires Placed(p, w) && Enabled(p, ExitPop(t)) && p.drains[t].list[0].live
    ensures Placed(Step(p, ExitPop(t)), w[p.drains[t].list[0].stack := InPool])
  {
    hide Holds;
    var q, list := Step(p, ExitPop(t)), p.drains[t].list;
    var s := list[0].stack;
    assert ThreadPlaced(p, w, t);
    assert Live(list)[0] == s && Live(list)[1..] == Live(list[1..]);
    HeadIsPlaced(Live(list), w, Detached(t));
    HoldsMore(p.stacks, w, InPool, s);
    HoldsRest(Live(list), w, Detached(t), InPool);
    HoldsOther(Live(p.lists[t]), w, Listed(t), s, InPool);
    OneMoves(p, q, w, t, s, InPool);
  }

  lemma HeadIsPlaced(xs: seq<nat>, w: map<nat, Place>, place: Place)
    requires Holds(xs, w, place) && xs != []
    ensures xs[0] in w && w[xs[0]] == place
  {
    assert xs[0] in xs;
  }

  lemma ExitPopPlaces(p: Pool, w: map<nat, Place>, t: nat)
    requires Placed(p, w) && Enabled(p, ExitPop(t))
    ensures Placed(Step(p, ExitPop(t)), Move(p, w, ExitPop(t)))
  {
    hide Holds;
    var q, list := Step(p, ExitPop(t)), p.drains[t].list;
    if list[0].live {
      ExitPopLive(p, w, t);
    } else {
      assert Live(list) == Live(list[1..]);
      forall u | 0 <= u < |q.lists|
        ensures ThreadPlaced(q, w, u)
      {
        assert ThreadPlaced(p, w, u);
      }
    }
  }

  lemma ExitEndPlaces(p: Pool, w: map<nat, Place>, t: nat)
    requires Placed(p, w) && Enabled(p, ExitEnd(t))
    ensures Placed(Step(p, ExitEnd(t)), w)
  {
    var q := Step(p, ExitEnd(t));
    forall u | 0 <= u < |q.lists|
      ensures ThreadPlaced(q, w, u)
    {
      assert ThreadPlaced(p, w, u);
    }
  }

  lemma Renamed(xs: seq<nat>, w: map<nat, Place>, w': map<nat, Place>, place: Place, place': Place)
    requires Holds(xs, w, place) && w'.Keys == w.Keys
    requires forall s :: s in w ==> (w[s] == place <==> w'[s] == place')
    ensures Holds(xs, w', place')
  {
  }

  lemma ExitBeginPlaces(p: Pool, w: map<nat, Place>, t: nat)
    requires Placed(p, w) && Enabled(p, ExitBegin(t))
    ensures Placed(Step(p, ExitBegin(t)), Move(p, w, ExitBegin(t)))
  {
    var q, w' := Step(p, ExitBegin(t)), Move(p, w, ExitBegin(t));
    assert ThreadPlaced(p, w, t);
    NoneDetached(p, w, t);
    assert Live([]) == [];
    Renamed(p.stacks, w, w', InPool, InPool);
    forall u | 0 <= u < |q.lists|
      ensures ThreadPlaced(q, w', u)
    {
      assert ThreadPlaced(p, w, u);
      if u == t {
        Renamed(Live(p.lists[t]), w, w', Listed(t), Detached(t));
      } else {
        Renamed(Live(p.lists[u]), w, w', Listed(u), Listed(u));
        Renamed(Live(DrainList(p.drains[u])), w, w', Detached(u), Detached(u));
        if p.drains[u].NotExiting? {
          Renamed(Hand(p.frames[u]), w, w', InHand(u), InHand(u));
        }
      }
    }
  }

  lemma EmptyMeansNone(w: map<nat, Place>, place: Place)
    requires Holds([], w, place)
    ensures forall s :: s in w ==> w[s] != place
  {
    forall s | s in w
      ensures w[s] != place
    {
      var none: seq<nat> := [];
      assert s !in none;
    }
  }

  lemma NoneDetached(p: Pool, w: map<nat, Place>, t: nat)
    requires Placed(p, w) && IsThread(p, t) && InCode(p, t)
    ensures forall s :: s in w ==> w[s] != Detached(t) && w[s] != InHand(t)
  {
    hide Holds;
    assert ThreadPlaced(p, w, t);
    EmptyMeansNone(w, Detached(t));
    EmptyMeansNone(w, InHand(t));
  }

  lemma StepPlaces(p: Pool, w: map<nat, Place>, e: Event)
    requires Placed(p, w) && Enabled(p, e)
    ensures Placed(Step(p, e), Move(p, w, e))
  {
    hide Placed, Step;
    match e
    case Acquire(t) => AcquirePlaces(p, w, t);
    case Register(t) => RegisterPlaces(p, w, t);
    case Unregister(t) => UnregisterPlaces(p, w, t);
    case Release(t) => ReleasePlaces(p, w, t);
    case Unwind(t) => UnwindPlaces(p, w, t);
    case ExitBegin(t) => ExitBeginPlaces(p, w, t);
    case ExitPop(t) => ExitPopPlaces(p, w, t);
    case ExitEnd(t) => ExitEndPlaces(p, w, t);
  }

  // ----- runs

  ghost predicate IsRun(states: seq<Pool>, events: seq<Event>) {
    |states| == |events| + 1
    && forall i :: 0 <= i < |events| ==> Enabled(states[i], events[i]) && states[i + 1] == Step(states[i], events[i])
  }

  function Threads(n: nat): (r: Pool)
    ensures |r.lists| == |r.drains| == |r.frames| == n && r.stacks == [] && r.next == 1
    ensures forall t :: 0 <= t < n ==> r.lists[t] == [] && r.drains[t] == NotExiting && r.frames[t] == []
  {
    if n == 0 then Pool([], [], [], [], 1)
    else
      var r := Threads(n - 1);
      Pool([], r.lists + [[]], r.drains + [NotExiting], r.frames + [[]], 1)
  }

  lemma StartPlaced(n: nat)
    ensures Placed(Threads(n), map[])
  {
    assert Live([]) == [];
  }

  /** Under any interleaving of entries, returns, unwindings and exits, every stack is in exactly one place. */
  lemma {:induction false} EveryRunExactlyOnce(n: nat, states: seq<Pool>, events: seq<Event>)
    requires IsRun(states, events) && states[0] == Threads(n)
    ensures ExactlyOnce(states[|events|])
    decreases |events|
  {
    hide Placed, Step;
    if events == [] {
      StartPlaced(n);
    } else {
      var k := |events| - 1;
      EveryRunExactlyOnce(n, states[..|states| - 1], events[..k]);
      var w :| Placed(states[k], w);
      StepPlaces(states[k], w, events[k]);
    }
  }

  /** So no two running activations, of one thread or of two, share a stack, and none runs on a pooled one. */
  lemma NoSharing(p: Pool, t: nat, i: nat, u: nat, j: nat)
    requires ExactlyOnce(p) && IsThread(p, t) && IsThread(p, u)
    requires p.drains[t].NotExiting? && p.drains[u].NotExiting? && i < |p.frames[t]| && j < |p.frames[u]|
    requires (t, i) != (u, j)
    ensures p.frames[t][i].stack != p.frames[u][j].stack && p.frames[t][i].stack !in p.stacks
  {
    hide Live;
    var w :| Placed(p, w);
    assert ThreadPlaced(p, w, t) && ThreadPlaced(p, w, u);
    ActivationPlace(p, w, t, i);
    ActivationPlace(p, w, u, j);
  }

  lemma ActivationPlace(p: Pool, w: map<nat, Place>, t: nat, i: nat)
    requires Placed(p, w) && IsThread(p, t) && p.drains[t].NotExiting? && i < |p.frames[t]|
    ensures var s := p.frames[t][i].stack; s in w && (w[s] == Listed(t) || w[s] == InHand(t))
  {
    hide Live;
    assert ThreadPlaced(p, w, t);
    if !p.frames[t][i].phase.Running? {
      assert i == 0 && p.frames[t][0].stack in Hand(p.frames[t]);
    }
  }

  /** And a running activation's stack has exactly one live notification, in its own thread's list. */
  lemma OneNotification(p: Pool, t: nat, i: nat)
    requires ExactlyOnce(p) && IsThread(p, t) && p.drains[t].NotExiting? && i < |p.frames[t]| && p.frames[t][i].phase.Running?
    ensures var s := p.frames[t][i].stack;
            && (exists k :: 0 <= k < |Live(p.lists[t])| && Live(p.lists[t])[k] == s)
            && (forall k, l :: 0 <= k < l < |Live(p.lists[t])| ==> !(Live(p.lists[t])[k] == s == Live(p.lists[t])[l]))
            && (forall u :: 0 <= u < |p.lists| && u != t ==> s !in Live(p.lists[u]))
  {
    hide Live;
    var w :| Placed(p, w);
    var s := p.frames[t][i].stack;
    assert ThreadPlaced(p, w, t) && w[s] == Listed(t) && s in Live(p.lists[t]);
    forall u | 0 <= u < |p.lists| && u != t
      ensures s !in Live(p.lists[u])
    {
      assert ThreadPlaced(p, w, u);
    }
  }

  // ----- CbNotifyThreadExit for another thread

  /** The live stacks of a list on the pool, in the order the list is drained. */
  function DrainedInto(stacks: seq<nat>, list: seq<Notif>): seq<nat>
    decreases list
  {
    if list == [] then stacks
    else DrainedInto(if list[0].live then [list[0].stack] + stacks else stacks, list[1..])
  }

  /** CbNotifyThreadExit drains the list of the thread that calls it, whatever thread it is told. */
  function Notify(p: Pool, current: nat): Pool
    requires IsThread(p, current)
  {
    p.(stacks := DrainedInto(p.stacks, p.lists[current]), lists := p.lists[current := []])
  }

  lemma {:induction false} DrainedHas(stacks: seq<nat>, list: seq<Notif>, s: nat)
    ensures s in DrainedInto(stacks, list) <==> s in stacks || s in Live(list)
    decreases list
  {
    if list != [] {
      DrainedHas(if list[0].live then [list[0].stack] + stacks else stacks, list[1..], s);
    }
  }

  /** Notifying its own exit from a thread without running activations only gives back abandoned stacks. */
  lemma {:induction false} DrainPlaces(stacks: seq<nat>, list: seq<Notif>, w: map<nat, Place>, t: nat) returns (w': map<nat, Place>)
    requires Holds(stacks, w, InPool) && Holds(Live(list), w, Listed(t))
    ensures Holds(DrainedInto(stacks, list), w', InPool) && (forall s :: s in w' ==> w'[s] != Listed(t))
    ensures w'.Keys == w.Keys && forall s :: s in w ==> w'[s] == if w[s] == Listed(t) then InPool else w[s]
    decreases list
  {
    if list == [] {
      w' := w;
      EmptyMeansNone(w, Listed(t));
    } else if list[0].live {
      var s := list[0].stack;
      assert Live(list)[0] == s && Live(list)[1..] == Live(list[1..]);
      assert s in Live(list);
      HoldsMore(stacks, w, InPool, s);
      HoldsRest(Live(list), w, Listed(t), InPool);
      w' := DrainPlaces([s] + stacks, list[1..], w[s := InPool], t);
    } else {
      assert Live(list) == Live(list[1..]);
      w' := DrainPlaces(stacks, list[1..], w, t);
    }
  }
}
