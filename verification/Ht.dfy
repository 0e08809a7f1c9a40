// The chained hash table of the cache.
module Hts {
  import opened Keys
  import opened Records
  import opened Hiraishins

  /** Node 0 stands for NULL; a chain only ever leads to older nodes. */
  datatype HtNode = HtNode(key: Key, value: nat, next: nat)

  function Slot(key: Key, cap: nat): (i: nat)
    requires cap > 0
    ensures i < cap
  {
    DjbBit(key, cap)
  }

  ghost predicate Link(pool: seq<HtNode>, cap: nat, x: nat)
    requires x < |pool| && cap > 0
  {
    pool[x].next < x && (pool[x].next != 0 ==> Slot(pool[pool[x].next].key, cap) == Slot(pool[x].key, cap))
  }

  ghost predicate Wired(pool: seq<HtNode>, cap: nat)
    requires cap > 0
  {
    |pool| > 0 && forall x: nat :: 0 < x < |pool| ==> Link(pool, cap, x)
  }

  ghost predicate HeadOk(pool: seq<HtNode>, cap: nat, s: nat, x: nat)
    requires cap > 0
  {
    x < |pool| && (x != 0 ==> Slot(pool[x].key, cap) == s)
  }

  /** What the chain from x on binds to a key, newest first. */
  ghost function Stack(pool: seq<HtNode>, cap: nat, x: nat, key: Key): seq<nat>
    requires cap > 0 && Wired(pool, cap) && x < |pool|
    decreases x
  {
    if x == 0 then [] else
      assert Link(pool, cap, x);
      (if pool[x].key == key then [pool[x].value] else []) + Stack(pool, cap, pool[x].next, key)
  }

  lemma {:induction false} PushWires(pool: seq<HtNode>, cap: nat, node: HtNode)
    requires cap > 0 && Wired(pool, cap) && HeadOk(pool, cap, Slot(node.key, cap), node.next)
    ensures Wired(pool + [node], cap)
  {
    hide Slot;
    var p := pool + [node];
    forall x: nat | 0 < x < |p|
      ensures Link(p, cap, x)
    {
      if x < |pool| {
        assert Link(pool, cap, x);
      }
    }
  }

  lemma {:induction false} PushKeeps(pool: seq<HtNode>, cap: nat, node: HtNode, x: nat, key: Key)
    requires cap > 0 && Wired(pool, cap) && Wired(pool + [node], cap) && x < |pool|
    ensures Stack(pool + [node], cap, x, key) == Stack(pool, cap, x, key)
    decreases x
  {
    hide Slot;
    if x != 0 {
      assert Link(pool, cap, x);
      PushKeeps(pool, cap, node, pool[x].next, key);
    }
  }

  // ---- taking a node out -------------------------------------------------------------------

  function Unlinked(pool: seq<HtNode>, prev: nat): seq<HtNode>
    requires prev < |pool| && pool[prev].next < |pool|
  {
    pool[prev := pool[prev].(next := pool[pool[prev].next].next)]
  }

  ghost predicate Leads(pool: seq<HtNode>, cap: nat, x: nat, y: nat)
    requires cap > 0 && Wired(pool, cap) && x < |pool|
    decreases x
  {
    x == y || (x != 0 && (assert Link(pool, cap, x); Leads(pool, cap, pool[x].next, y)))
  }

  lemma {:induction false} LeadsOn(pool: seq<HtNode>, cap: nat, x: nat, y: nat)
    requires cap > 0 && Wired(pool, cap) && x < |pool| && 0 < y < |pool| && Leads(pool, cap, x, y)
    ensures pool[y].next < y && Leads(pool, cap, x, pool[y].next) && y <= x
    decreases x
  {
    assert Link(pool, cap, y);
    if x != 0 {
      assert Link(pool, cap, x);
    }
    if x != y {
      LeadsOn(pool, cap, pool[x].next, y);
    }
  }

  lemma {:induction false} UnlinkWires(pool: seq<HtNode>, cap: nat, prev: nat)
    requires cap > 0 && Wired(pool, cap) && 0 < prev < |pool| && pool[prev].next != 0
    ensures pool[prev].next < prev && Wired(Unlinked(pool, prev), cap)
  {
    hide Slot;
    assert Link(pool, cap, prev) && Link(pool, cap, pool[prev].next);
    var p := Unlinked(pool, prev);
    forall x: nat | 0 < x < |p|
      ensures Link(p, cap, x)
    {
      assert Link(pool, cap, x);
    }
  }

  /** Chains that start below the changed node do not see the change ... */
  lemma {:induction false} BelowKeeps(pool: seq<HtNode>, p: seq<HtNode>, cap: nat, prev: nat, x: nat, key: Key)
    requires cap > 0 && Wired(pool, cap) && Wired(p, cap) && |p| == |pool| && x < prev < |pool|
    requires p == pool[prev := p[prev]]
    ensures Stack(p, cap, x, key) == Stack(pool, cap, x, key)
    decreases x
  {
    hide Slot;
    if x != 0 {
      assert Link(pool, cap, x);
      BelowKeeps(pool, p, cap, prev, pool[x].next, key);
    }
  }

  /** ... nor do the chains of other slots ... */
  lemma {:induction false} ElsewhereKeeps(pool: seq<HtNode>, p: seq<HtNode>, cap: nat, prev: nat, x: nat, key: Key)
    requires cap > 0 && Wired(pool, cap) && Wired(p, cap) && |p| == |pool| && x < |pool| && 0 < prev < |pool|
    requires p == pool[prev := p[prev]]
    requires x != 0 ==> Slot(pool[x].key, cap) != Slot(pool[prev].key, cap)
    ensures Stack(p, cap, x, key) == Stack(pool, cap, x, key)
    decreases x
  {
    hide Slot;
    if x != 0 {
      assert Link(pool, cap, x);
      ElsewhereKeeps(pool, p, cap, prev, pool[x].next, key);
    }
  }

  /** ... and a chain through it loses exactly the node behind it. */
  lemma {:induction false} UnlinkSplits(pool: seq<HtNode>, cap: nat, x: nat, prev: nat, key: Key) returns (a: seq<nat>)
    requires cap > 0 && Wired(pool, cap) && x < |pool| && 0 < prev < |pool| && pool[prev].next != 0
    requires Leads(pool, cap, x, prev) && pool[prev].next < prev && Wired(Unlinked(pool, prev), cap)
    requires pool[pool[prev].next].next < prev
    ensures Stack(pool, cap, x, key) == a + Stack(pool, cap, pool[prev].next, key)
    ensures Stack(Unlinked(pool, prev), cap, x, key) == a + Stack(pool, cap, pool[pool[prev].next].next, key)
    decreases x
  {
    hide Slot;
    var p, n := Unlinked(pool, prev), pool[prev].next;
    var here := if pool[x].key == key then [pool[x].value] else [];
    LeadsOn(pool, cap, x, prev);
    StackUnfolds(pool, cap, x, key);
    StackUnfolds(p, cap, x, key);
    if x == prev {
      BelowKeeps(pool, p, cap, prev, pool[n].next, key);
      a := here;
    } else {
      assert Link(pool, cap, x);
      var rest := UnlinkSplits(pool, cap, pool[x].next, prev, key);
      a := here + rest;
      Associates(here, rest, Stack(pool, cap, n, key));
      Associates(here, rest, Stack(p, cap, pool[n].next, key));
      Associates(here, rest, Stack(pool, cap, pool[n].next, key));
    }
  }

  lemma {:induction false} StackUnfolds(pool: seq<HtNode>, cap: nat, x: nat, key: Key)
    requires cap > 0 && Wired(pool, cap) && 0 < x < |pool|
    ensures pool[x].next < x
    ensures Stack(pool, cap, x, key) ==
            (if pool[x].key == key then [pool[x].value] else []) + Stack(pool, cap, pool[x].next, key)
  {
    hide Slot;
    assert Link(pool, cap, x);
  }

  class Ht {
    var size: int
    const cap: nat
    const nodes: array<nat>
    var pool: seq<HtNode>

    ghost predicate Valid()
      reads this`pool, nodes
    {
      && cap > 0 && nodes.Length == cap && Wired(pool, cap)
      && forall s :: 0 <= s < cap ==> HeadOk(pool, cap, s, nodes[s])
    }

    /** Everything the table binds to a key, newest first. */
    ghost function Bindings(key: Key): seq<nat>
      requires Valid()
      reads this`pool, nodes
    {
      Stack(pool, cap, nodes[Slot(key, cap)], key)
    }

    constructor (cap: nat)
      requires cap > 0
      ensures Valid() && fresh(nodes) && size == 0
      ensures forall k :: Bindings(k) == []
    {
      size := 0;
      this.cap := cap;
      nodes := new nat[cap](_ => 0);
      pool := [HtNode([], 0, 0)];
    }

    /** A new binding hides the older ones of its key. */
    method Set(key: Key, value: nat)
      requires Valid()
      modifies this, nodes
      ensures Valid() && size == old(size) + 1
      ensures forall k :: Bindings(k) == if k == key then [value] + old(Bindings(k)) else old(Bindings(k))
    {
      hide Slot;
      var slot := Slot(key, cap);
      var node := HtNode(key, value, nodes[slot]);
      PushWires(pool, cap, node);
      forall k, s | 0 <= s < cap
        ensures Stack(pool + [node], cap, nodes[s], k) == Stack(pool, cap, nodes[s], k)
      {
        PushKeeps(pool, cap, node, nodes[s], k);
      }
      pool := pool + [node];
      nodes[slot] := |pool| - 1;
      size := size + 1;
    }

    /** The newest binding of a key. */
    method Get(key: Key) returns (r: Option<nat>)
      requires Valid()
      ensures r == if Bindings(key) == [] then None else Some(Bindings(key)[0])
    {
      hide Slot;
      var node: nat := nodes[Slot(key, cap)];
      while node != 0
        invariant node < |pool| && Stack(pool, cap, node, key) == Bindings(key)
      {
        if Strcmp(key, pool[node].key) == 0 {
          return Some(pool[node].value);
        }
        assert Link(pool, cap, node);
        node := pool[node].next;
      }
      r := None;
    }

    /** Take out the newest binding of a key, if it has one. */
    method Remove(key: Key)
      requires Valid()
      modifies this, nodes
      ensures Valid() && size == old(size) - if old(Bindings(key)) == [] then 0 else 1
      ensures forall k ::
                Bindings(k) == if k == key && old(Bindings(k)) != [] then old(Bindings(k))[1..] else old(Bindings(k))
    {
      hide Slot;
      var slot := Slot(key, cap);
      var node: nat, prev: nat := nodes[slot], 0;
      while node != 0 && Strcmp(key, pool[node].key) != 0
        invariant node < |pool| && prev < |pool| && Stack(pool, cap, node, key) == Bindings(key)
        invariant Leads(pool, cap, nodes[slot], node) && (node != 0 ==> Slot(pool[node].key, cap) == slot)
        invariant if prev == 0 then node == nodes[slot]
                  else
                    && node == pool[prev].next < prev && Leads(pool, cap, nodes[slot], prev)
                    && Slot(pool[prev].key, cap) == slot
        decreases node
        modifies {}
      {
        assert Link(pool, cap, node);
        LeadsOn(pool, cap, nodes[slot], node);
        prev := node;
        node := pool[node].next;
      }
      if node != 0 {
        assert Link(pool, cap, node);
        if prev != 0 {
          Unlink(slot, prev, key);
        } else {
          DropHead(slot, key);
        }
        size := size - 1;
      }
    }

    /** The relinking of Remove when the node is the first of its chain. */
    method DropHead(slot: nat, key: Key)
      requires Valid() && slot == Slot(key, cap) && nodes[slot] != 0 && pool[nodes[slot]].key == key
      modifies nodes
      ensures Valid() && old(Bindings(key)) != []
      ensures forall k :: Bindings(k) == if k == key then old(Bindings(k))[1..] else old(Bindings(k))
    {
      hide Slot;
      ghost var x := nodes[slot];
      assert Link(pool, cap, x);
      assert forall k :: Stack(pool, cap, pool[x].next, k) ==
                         if k == key then Stack(pool, cap, x, k)[1..] else Stack(pool, cap, x, k);
      nodes[slot] := pool[nodes[slot]].next;
    }

    /** The relinking of Remove when the node is not the first of its chain. */
    method Unlink(slot: nat, prev: nat, key: Key)
      requires Valid() && slot == Slot(key, cap) && 0 < prev < |pool| && pool[prev].next != 0
      requires Leads(pool, cap, nodes[slot], prev) && Slot(pool[prev].key, cap) == slot
      requires pool[prev].next < prev && pool[pool[prev].next].key == key
      requires Stack(pool, cap, pool[prev].next, key) == Bindings(key)
      modifies this`pool
      ensures Valid() && old(Bindings(key)) != []
      ensures forall k :: Bindings(k) == if k == key then old(Bindings(k))[1..] else old(Bindings(k))
    {
      hide Slot;
      var n := pool[prev].next;
      ghost var p := pool;
      UnlinkWires(p, cap, prev);
      assert Link(p, cap, n);
      pool := pool[prev := pool[prev].(next := pool[n].next)];
      forall k
        ensures Stack(pool, cap, nodes[Slot(k, cap)], k) ==
                if k == key then Stack(p, cap, nodes[Slot(k, cap)], k)[1..] else Stack(p, cap, nodes[Slot(k, cap)], k)
      {
        if Slot(k, cap) == slot {
          var a := UnlinkSplits(p, cap, nodes[slot], prev, k);
          if k == key {
            var b := UnlinkSplits(p, cap, nodes[slot], prev, key);
            assert |a| == 0;
          }
        } else {
          ElsewhereKeeps(p, pool, cap, prev, nodes[Slot(k, cap)], k);
        }
      }
    }
  }
}
