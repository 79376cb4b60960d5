/** CSet: a map from 32-bit keys to pointers as a four-level table whose lower levels are made on demand. */
module RadixTable {
  import opened Words

  /** A pointer; 0 is null. */
  type Pointer = nat
  /** The tables of the lower levels, or null. */
  type Leaf = array?<Pointer>
  type Node1 = array?<array?<Pointer>>
  type Node2 = array?<array?<array?<Pointer>>>

  datatype Key = Key(i: byte, j: byte, k: byte, l: byte)

  /** The four bytes of an index, the highest first. */
  function Split(idx: dword): Key {
    Key(idx / 0x100_0000 % 0x100, idx / 0x1_0000 % 0x100, idx / 0x100 % 0x100, idx % 0x100)
  }

  function Join(key: Key): dword {
    key.i * 0x100_0000 + key.j * 0x1_0000 + key.k * 0x100 + key.l
  }

  lemma SplitJoin(idx: dword)
    ensures Join(Split(idx)) == idx
  {
    assert idx / 0x1_0000 == idx / 0x100_0000 * 0x100 + idx / 0x1_0000 % 0x100 by {
      assert idx / 0x1_0000 / 0x100 == idx / 0x100_0000;
    }
    assert idx / 0x100 == idx / 0x1_0000 * 0x100 + idx / 0x100 % 0x100 by {
      assert idx / 0x100 / 0x100 == idx / 0x1_0000;
    }
    assert idx == idx / 0x100 * 0x100 + idx % 0x100;
  }

  /** So different indices have different places in the table. */
  lemma SplitInjective(a: dword, b: dword)
    requires Split(a) == Split(b)
    ensures a == b
  {
    SplitJoin(a);
    SplitJoin(b);
  }

  class RadixSet {
    const root: array<array?<array?<array?<Pointer>>>>
    /** Which bytes of the index lead to a table; no table is reached twice. */
    ghost var place2: map<Node2, byte>
    ghost var place1: map<Node1, (byte, byte)>
    ghost var place0: map<Leaf, (byte, byte, byte)>

    ghost var tables: set<object>

    ghost predicate Valid()
      reads this, tables
    {
      && root in tables && root.Length == 0x100
      && (forall t :: t in place2 ==> t != null && t in tables && t.Length == 0x100)
      && (forall t :: t in place1 ==> t != null && t in tables && t.Length == 0x100)
      && (forall t :: t in place0 ==> t != null && t in tables && t.Length == 0x100)
      && (forall i: byte :: root[i] != null ==> root[i] in place2 && place2[root[i]] == i)
      && (forall t, j: byte :: t in place2 && t[j] != null ==> t[j] in place1 && place1[t[j]] == (place2[t], j))
      && (forall t, k: byte :: t in place1 && t[k] != null ==>
            t[k] in place0 && place0[t[k]] == (place1[t].0, place1[t].1, k))
    }

    /** What the table holds for a key. */
    ghost function At(key: Key): Pointer
      requires Valid()
      reads this, tables
    {
      var t2 := root[key.i];
      if t2 == null then 0
      else
        var t1 := t2[key.j];
        if t1 == null then 0
        else
          var t0 := t1[key.k];
          if t0 == null then 0 else t0[key.l]
    }

    constructor ()
      ensures Valid() && fresh(tables)
      ensures forall key :: At(key) == 0
    {
      root := new array?<array?<array?<Pointer>>>[0x100](_ => null);
      place2, place1, place0 := map[], map[], map[];
      tables := {root};
    }

    method Get(idx: dword) returns (data: Pointer)
      requires Valid()
      ensures data == At(Split(idx))
    {
      var i, j, k, l := idx / 0x100_0000 % 0x100, idx / 0x1_0000 % 0x100, idx / 0x100 % 0x100, idx % 0x100;
      data := 0;
      var t2 := root[i];
      if t2 == null {
        return;
      }
      var t1 := t2[j];
      if t1 == null {
        return;
      }
      var t0 := t1[k];
      if t0 == null {
        return;
      }
      data := t0[l];
    }

    /** An empty table in place of none changes no value. */
    method Hang2(i: byte, t2: Node2)
      requires Valid() && root[i] == null
      requires t2 != null && t2 !in tables && t2.Length == 0x100 && forall j: byte :: t2[j] == null
      modifies this`place2, this`tables, root
      ensures Valid() && tables == old(tables) + {t2} && root[i] == t2 && t2 in place2
      ensures forall key :: At(key) == old(At(key))
    {
      root[i] := t2;
      place2, tables := place2[t2 := i], tables + {t2};
    }

    /** Makes the second-level table of a byte if it is missing. */
    method Make2(i: byte) returns (t2: Node2)
      requires Valid()
      modifies this`place2, this`tables, root
      ensures Valid() && fresh(tables - old(tables)) && root[i] == t2 && t2 in place2
      ensures forall key :: At(key) == old(At(key))
    {
      if root[i] == null {
        t2 := new array?<array?<Pointer>>[0x100](_ => null);
        Hang2(i, t2);
      } else {
        t2 := root[i];
      }
    }

    method Hang1(t2: Node2, j: byte, t1: Node1)
      requires Valid() && t2 in place2 && t2[j] == null
      requires t1 != null && t1 !in tables && t1.Length == 0x100 && forall i: byte :: t1[i] == null
      modifies this`place1, this`tables, t2
      ensures Valid() && tables == old(tables) + {t1} && t2[j] == t1 && t1 in place1
      ensures forall key :: At(key) == old(At(key))
    {
      t2[j] := t1;
      place1, tables := place1[t1 := (place2[t2], j)], tables + {t1};
    }

    method Hang0(t1: Node1, k: byte, t0: Leaf)
      requires Valid() && t1 in place1 && t1[k] == null
      requires t0 != null && t0 !in tables && t0.Length == 0x100 && forall i: byte :: t0[i] == 0
      modifies this`place0, this`tables, t1
      ensures Valid() && tables == old(tables) + {t0} && t1[k] == t0 && t0 in place0
      ensures forall key :: At(key) == old(At(key))
    {
      t1[k] := t0;
      place0, tables := place0[t0 := (place1[t1].0, place1[t1].1, k)], tables + {t0};
    }

    method Make1(t2: Node2, j: byte) returns (t1: Node1)
      requires Valid() && t2 in place2
      modifies this`place1, this`tables, t2
      ensures Valid() && fresh(tables - old(tables)) && t2[j] == t1 && t1 in place1
      ensures forall key :: At(key) == old(At(key))
    {
      if t2[j] == null {
        t1 := new array?<Pointer>[0x100](_ => null);
        Hang1(t2, j, t1);
      } else {
        t1 := t2[j];
      }
    }

    method Make0(t1: Node1, k: byte) returns (t0: Leaf)
      requires Valid() && t1 in place1
      modifies this`place0, this`tables, t1
      ensures Valid() && fresh(tables - old(tables)) && t1[k] == t0 && t0 in place0
      ensures forall key :: At(key) == old(At(key))
    {
      if t1[k] == null {
        t0 := new Pointer[0x100](_ => 0);
        Hang0(t1, k, t0);
      } else {
        t0 := t1[k];
      }
    }

    /** The leaf a key leads to. */
    ghost predicate Leads(key: Key, t0: Leaf)
      requires Valid()
      reads this, tables
    {
      t0 in place0 && place0[t0] == (key.i, key.j, key.k) && root[key.i] != null
      && root[key.i][key.j] != null && root[key.i][key.j][key.k] == t0
    }

    method Make(key: Key) returns (t0: Leaf)
      requires Valid()
      modifies this, tables
      ensures Valid() && fresh(tables - old(tables)) && Leads(key, t0)
      ensures forall other :: At(other) == old(At(other))
    {
      var t2 := Make2(key.i);
      var t1 := Make1(t2, key.j);
      t0 := Make0(t1, key.k);
    }

    method Store(key: Key, t0: Leaf, data: Pointer)
      requires Valid() && Leads(key, t0)
      modifies t0
      ensures Valid()
      ensures forall other :: At(other) == if other == key then data else old(At(other))
    {
      t0[key.l] := data;
    }

    /** Set refines the update of a map. */
    method Set(idx: dword, data: Pointer)
      requires Valid()
      modifies this, tables
      ensures Valid() && fresh(tables - old(tables))
      ensures forall other: dword :: At(Split(other)) == if other == idx then data else old(At(Split(other)))
    {
      var i, j, k, l := idx / 0x100_0000 % 0x100, idx / 0x1_0000 % 0x100, idx / 0x100 % 0x100, idx % 0x100;
      var key := Key(i, j, k, l);
      var t0 := Make(key);
      Store(key, t0, data);
      forall other: dword | Split(other) == key
        ensures other == idx
      {
        SplitInjective(other, idx);
      }
    }
  }
}
