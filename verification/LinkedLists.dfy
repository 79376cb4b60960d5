/** CList: a singly linked list with a head and a tail pointer, relinked in place. */
module LinkedLists {
  datatype Option<T> = None | Some(value: T)

  class ListItem<T> {
    var next: ListItem?<T>
    var data: T

    constructor (next: ListItem?<T>, data: T)
      ensures this.next == next && this.data == data
    {
      this.next, this.data := next, data;
    }
  }

  class LinkedList<T> {
    var head: ListItem?<T>
    var tail: ListItem?<T>
    ghost var nodes: seq<ListItem<T>>

    /** The nodes are linked in order, are all different, and the two pointers are their ends. */
    ghost predicate Valid()
      reads this, nodes
    {
      && (forall i, j :: 0 <= i < j < |nodes| ==> nodes[i] != nodes[j])
      && (forall i :: 0 <= i < |nodes| ==> nodes[i].next == NodeAt(i + 1))
      && head == NodeAt(0)
      && tail == NodeAt(|nodes| - 1)
    }

    /** The node at a position, or null past the ends. */
    ghost function NodeAt(i: int): ListItem?<T>
      reads this`nodes
    {
      if 0 <= i < |nodes| then nodes[i] else null
    }

    ghost function Contents(): (r: seq<T>)
      reads this, nodes
      ensures |r| == |nodes| && forall i :: 0 <= i < |r| ==> r[i] == nodes[i].data
    {
      DataOf(nodes)
    }

    constructor ()
      ensures Valid() && Contents() == [] && nodes == []
    {
      head, tail, nodes := null, null, [];
    }

    method LinkFirst(item: ListItem<T>)
      requires Valid() && item !in nodes && item.next == head
      modifies this
      ensures Valid() && nodes == [item] + old(nodes)
    {
      hide DataOf;
      if head == null {
        tail := item;
      }
      head := item;
      ghost var was := nodes;
      nodes := [item] + was;
      forall i | 0 < i < |nodes|
        ensures nodes[i] == was[i - 1] && nodes[i].next == NodeAt(i + 1)
      {
        assert was[i - 1].next == old(NodeAt(i));
      }
    }

    method AddHead(data: T)
      requires Valid()
      modifies this
      ensures Valid() && Contents() == [data] + old(Contents())
      ensures |nodes| == |old(nodes)| + 1 && fresh(nodes[0]) && nodes[1..] == old(nodes)
    {
      hide Valid, DataOf;
      var item := new ListItem(head, data);
      LinkFirst(item);
    }

    method AddTail(data: T)
      requires Valid()
      modifies this, if tail == null then {} else {tail}
      ensures Valid() && Contents() == old(Contents()) + [data]
      ensures |nodes| == |old(nodes)| + 1 && fresh(nodes[|nodes| - 1]) && nodes[..|nodes| - 1] == old(nodes)
    {
      hide DataOf;
      var item := new ListItem(null, data);
      if tail != null {
        tail.next := item;
      } else {
        head := item;
      }
      tail := item;
      ghost var was := nodes;
      nodes := was + [item];
      forall i | 0 <= i < |nodes|
        ensures nodes[i].next == NodeAt(i + 1)
      {
        assert i < |was| - 1 ==> was[i].next == old(NodeAt(i + 1));
      }
      assert nodes[..|was|] == was;
      assert Valid();
    }

    method GetHead() returns (data: Option<T>)
      requires Valid()
      modifies this
      ensures Valid()
      ensures old(Contents()) == [] ==> data == None && Contents() == []
      ensures old(Contents()) != [] ==> data == Some(old(Contents())[0]) && Contents() == old(Contents())[1..]
      ensures nodes == if old(nodes) == [] then [] else old(nodes)[1..]
    {
      data := None;
      if head != null {
        ghost var was := nodes;
        data := Some(head.data);
        assert was[0].next == NodeAt(1);
        head := head.next;
        if head == null {
          tail := null;
        }
        nodes := was[1..];
        forall i | 0 <= i < |nodes|
          ensures nodes[i] == was[i + 1] && nodes[i].next == NodeAt(i + 1)
        {
          assert was[i + 1].next == old(NodeAt(i + 2));
        }
      }
    }

    /** The callback has written to the element of a node. */
    method Rewrite(ghost k: nat, item: ListItem<T>, data: T)
      requires Valid() && k < |nodes| && item == nodes[k]
      modifies item
      ensures Valid() && nodes == old(nodes) && Contents() == old(Contents())[k := data]
      ensures item.next == old(item.next)
    {
      hide DataOf;
      item.data := data;
    }

    lemma HeadIsFirst()
      requires Valid()
      ensures head == NodeAt(0)
    {
    }

    lemma NextFollows(k: nat)
      requires Valid() && k < |nodes|
      ensures nodes[k].next == NodeAt(k + 1) && nodes[k].data == Contents()[k]
    {
    }

    /** Calls back for each element, which the callback may change, until it answers false. */
    method ForEach(cb: T -> (bool, T))
      requires Valid()
      modifies nodes
      ensures Valid() && nodes == old(nodes) && Contents() == Visited(old(Contents()), cb)
    {
      hide Visited, DataOf, Seen, Valid;
      HeadIsFirst();
      var item := head;
      ghost var seen, rest := [], Contents();
      SeenNone(rest, cb);
      while item != null
        invariant Valid() && nodes == old(nodes) && item == NodeAt(|seen|)
        invariant Seen(old(Contents()), cb, seen, rest, Contents())
        decreases |nodes| - |seen|
      {
        NextFollows(|seen|);
        SeenOne(old(Contents()), cb, seen, rest, Contents());
        var (goOn, data) := cb(item.data);
        Rewrite(|seen|, item, data);
        if !goOn {
          return;
        }
        seen, rest := seen + [data], rest[1..];
        item := item.next;
      }
      SeenAll(old(Contents()), cb, seen, rest, Contents());
    }
  }

  /** The list is now what the visit has left so far and what is still to be visited. */
  ghost predicate Seen<T>(was: seq<T>, cb: T -> (bool, T), seen: seq<T>, rest: seq<T>, now: seq<T>) {
    now == seen + rest && Visited(was, cb) == seen + Visited(rest, cb)
  }

  lemma SeenNone<T>(was: seq<T>, cb: T -> (bool, T))
    ensures Seen(was, cb, [], was, was)
  {
    assert [] + was == was && [] + Visited(was, cb) == Visited(was, cb);
  }

  lemma SeenOne<T>(was: seq<T>, cb: T -> (bool, T), seen: seq<T>, rest: seq<T>, now: seq<T>)
    requires Seen(was, cb, seen, rest, now) && |seen| < |now|
    ensures rest != []
    ensures var (goOn, x) := cb(now[|seen|]); var next := now[|seen| := x];
            if goOn then Seen(was, cb, seen + [x], rest[1..], next) else next == Visited(was, cb)
  {
    hide Visited;
    var (goOn, x) := cb(rest[0]);
    VisitedHead(rest, cb);
    Regroup(seen, x, if goOn then Visited(rest[1..], cb) else rest[1..]);
    assert now[|seen| := x] == (seen + [x]) + rest[1..];
  }

  lemma SeenAll<T>(was: seq<T>, cb: T -> (bool, T), seen: seq<T>, rest: seq<T>, now: seq<T>)
    requires Seen(was, cb, seen, rest, now)
    ensures |seen| <= |now| && (|seen| == |now| ==> now == Visited(was, cb))
  {
  }

  lemma Regroup<T>(a: seq<T>, x: T, b: seq<T>)
    ensures a + ([x] + b) == (a + [x]) + b
  {
  }

  lemma VisitedHead<T>(xs: seq<T>, cb: T -> (bool, T))
    requires xs != []
    ensures var (goOn, x) := cb(xs[0]); Visited(xs, cb) == [x] + if goOn then Visited(xs[1..], cb) else xs[1..]
  {
  }

  /** What a callback leaves of a list it is called back with up to its first no. */
  function Visited<T>(xs: seq<T>, cb: T -> (bool, T)): (r: seq<T>)
    ensures |r| == |xs|
  {
    if xs == [] then []
    else
      var (goOn, x) := cb(xs[0]);
      [x] + if goOn then Visited(xs[1..], cb) else xs[1..]
  }

  ghost function DataOf<T>(nodes: seq<ListItem<T>>): (r: seq<T>)
    reads nodes
    ensures |r| == |nodes| && forall i :: 0 <= i < |r| ==> r[i] == nodes[i].data
  {
    if nodes == [] then [] else [nodes[0].data] + DataOf(nodes[1..])
  }
}
