/**
 EmuExecute's stack handling and the exit notifications as they run: the shared stack list, and for
 every thread its notification list and its activations. Each method is one atomic step.
 */
module StackUnit {
  import opened LinkedLists
  import opened StackPool

  /** CbRemoveCallAtThreadExitEnum: clears a matching notification and stops there. */
  function ClearMatch(stack: nat): Notif -> (bool, Notif) {
    (n: Notif) => if n == Notif(true, stack) then (false, Notif(false, 0)) else (true, n)
  }

  /** ForEach with it is what the protocol's step does to the list. */
  lemma {:induction false} VisitKills(list: seq<Notif>, stack: nat)
    ensures Visited(list, ClearMatch(stack)) == Kill(list, stack)
  {
    if list != [] {
      VisitKills(list[1..], stack);
    }
  }

  /** CbRemoveCallAtThreadExit on the nodes of the thread's list. */
  method RemoveFromList(list: LinkedList<Notif>, stack: nat)
    requires list.Valid()
    modifies list.nodes
    ensures list.Valid() && list.nodes == old(list.nodes) && list.Contents() == Kill(old(list.Contents()), stack)
  {
    VisitKills(list.Contents(), stack);
    list.ForEach(ClearMatch(stack));
  }

  class Emulator {
    var stackList: seq<nat>
    var notifications: seq<seq<Notif>>
    var drains: seq<Drain>
    var activations: seq<seq<Activation>>
    /** The number of the next stack from VirtualAlloc. */
    var nextStack: nat

    function View(): Pool
      reads this
    {
      Pool(stackList, notifications, drains, activations, nextStack)
    }

    constructor (threads: nat)
      ensures View() == Threads(threads) && ExactlyOnce(View())
    {
      var p := Threads(threads);
      StartPlaced(threads);
      stackList, notifications, drains, activations, nextStack := p.stacks, p.lists, p.drains, p.frames, p.next;
    }

    /** StackList.GetHead, or AllocStack when the list is empty. */
    method TakeStack(t: nat) returns (stack: nat)
      requires Enabled(View(), Acquire(t))
      modifies this
      ensures View() == Step(old(View()), Acquire(t)) && stack == activations[t][0].stack
      ensures old(ExactlyOnce(View())) ==> ExactlyOnce(View())
    {
      StepKeeps(View(), Acquire(t));
      if stackList != [] {
        stack := stackList[0];
        stackList := stackList[1..];
      } else {
        stack := nextStack;
        nextStack := nextStack + 1;
      }
      activations := activations[t := [Activation(stack, Phase.Acquired)] + activations[t]];
    }

    method CbCallAtThreadExit(t: nat)
      requires Enabled(View(), Register(t))
      modifies this
      ensures View() == Step(old(View()), Register(t))
      ensures old(ExactlyOnce(View())) ==> ExactlyOnce(View())
    {
      StepKeeps(View(), Register(t));
      var top := activations[t][0];
      notifications := notifications[t := [Notif(true, top.stack)] + notifications[t]];
      activations := activations[t := [top.(phase := Running)] + activations[t][1..]];
    }

    /** Walks the list to the first matching notification and clears it. */
    static method ClearFirst(list: seq<Notif>, stack: nat) returns (r: seq<Notif>)
      ensures r == Kill(list, stack)
    {
      var k := 0;
      while k < |list| && list[k] != Notif(true, stack)
        invariant 0 <= k <= |list|
        invariant Kill(list, stack) == list[..k] + Kill(list[k..], stack)
      {
        assert list[k..][1..] == list[k + 1..];
        assert list[..k + 1] == list[..k] + [list[k]];
        k := k + 1;
      }
      r := list;
      if k < |list| {
        assert list[k..][1..] == list[k + 1..];
        r := list[k := Notif(false, 0)];
      } else {
        assert list[k..] == [];
      }
    }

    method CbRemoveCallAtThreadExit(t: nat)
      requires Enabled(View(), Unregister(t))
      modifies this
      ensures View() == Step(old(View()), Unregister(t))
      ensures old(ExactlyOnce(View())) ==> ExactlyOnce(View())
    {
      StepKeeps(View(), Unregister(t));
      var top := activations[t][0];
      var list := ClearFirst(notifications[t], top.stack);
      notifications := notifications[t := list];
      activations := activations[t := [top.(phase := Unregistered)] + activations[t][1..]];
    }

    /** ReuseStack at the end of EmuExecute. */
    method ReuseStack(t: nat)
      requires Enabled(View(), Release(t))
      modifies this
      ensures View() == Step(old(View()), Release(t))
      ensures old(ExactlyOnce(View())) ==> ExactlyOnce(View())
    {
      StepKeeps(View(), Release(t));
      stackList := [activations[t][0].stack] + stackList;
      activations := activations[t := activations[t][1..]];
    }

    /** The first half of CbNotifyThreadExit: the list is detached from the set. */
    method DetachList(t: nat)
      requires Enabled(View(), ExitBegin(t))
      modifies this
      ensures View() == Step(old(View()), ExitBegin(t))
      ensures old(ExactlyOnce(View())) ==> ExactlyOnce(View())
    {
      StepKeeps(View(), ExitBegin(t));
      drains := drains[t := Draining(notifications[t])];
      notifications := notifications[t := []];
    }

    /** One round of its loop: the head of the detached list, called if it is still live. */
    method CallHead(t: nat)
      requires Enabled(View(), ExitPop(t))
      modifies this
      ensures View() == Step(old(View()), ExitPop(t))
      ensures old(ExactlyOnce(View())) ==> ExactlyOnce(View())
    {
      StepKeeps(View(), ExitPop(t));
      var list := drains[t].list;
      drains := drains[t := Draining(list[1..])];
      if list[0].live {
        stackList := [list[0].stack] + stackList;
      }
    }

    /** CbNotifyThreadExit without interference; the id it is given plays no part. */
    method CbNotifyThreadExit(current: nat, thrId: nat)
      requires IsThread(View(), current)
      modifies this
      ensures View() == Notify(old(View()), current)
    {
      var list := notifications[current];
      notifications := notifications[current := []];
      while list != []
        invariant DrainedInto(stackList, list) == DrainedInto(old(stackList), old(notifications[current]))
        invariant notifications == old(notifications)[current := []] && drains == old(drains)
        invariant activations == old(activations) && nextStack == old(nextStack)
        decreases list
      {
        if list[0].live {
          stackList := [list[0].stack] + stackList;
        }
        list := list[1..];
      }
    }
  }

  lemma StepKeeps(p: Pool, e: Event)
    requires Enabled(p, e)
    ensures ExactlyOnce(p) ==> ExactlyOnce(Step(p, e))
  {
    hide Placed, Step;
    if ExactlyOnce(p) {
      var w :| Placed(p, w);
      StepPlaces(p, w, e);
    }
  }
}
