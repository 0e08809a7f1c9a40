// The two accounted levels of the cache and the nodes on them.
module Levels {
  import opened Keys

  /** Pointers are slots of the pool; slot 0 stands for NULL. */
  datatype LevelNode = LevelNode(hits: int, size: nat, sk: Key, sv: seq<Byte>, nxt: nat, pre: nat)

  class NodePool {
    var nodes: seq<LevelNode>

    constructor ()
      ensures |nodes| == 1 && NoPre(nodes)
    {
      nodes := [LevelNode(0, 0, [], [], 0, 0)];
    }
  }

  /** No node has a predecessor. */
  ghost predicate NoPre(nodes: seq<LevelNode>) {
    forall i :: 0 <= i < |nodes| ==> nodes[i].pre == 0
  }

  /** The nodes differ at most in their links. */
  ghost predicate SamePayload(a: seq<LevelNode>, b: seq<LevelNode>) {
    |a| == |b| && forall i :: 0 <= i < |a| ==> b[i] == a[i].(nxt := b[i].nxt, pre := b[i].pre)
  }

  /** Where a node goes that is put in front of `first`: an empty level leaves its links alone. */
  function Headed(nodes: seq<LevelNode>, n: nat, first: nat): seq<LevelNode>
    requires n < |nodes|
  {
    if first == 0 then nodes else nodes[n := nodes[n].(pre := 0, nxt := first)]
  }

  /** The links once node n is taken out: its successor never learns of a new predecessor, and a node
      without both keeps what it has. */
  function Unlinked(nodes: seq<LevelNode>, n: nat): seq<LevelNode>
    requires n < |nodes| && nodes[n].pre < |nodes|
  {
    var node := nodes[n];
    if node.pre == 0 then nodes[n := node.(nxt := 0)]
    else if node.nxt == 0 then nodes[n := node.(pre := 0)]
    else
      var bridged := nodes[node.pre := nodes[node.pre].(nxt := node.nxt)];
      bridged[n := bridged[n].(nxt := 0, pre := 0)]
  }

  // ---- what is on a level ----------------------------------------------------------------

  /** The node in place i of the chain leads to the one behind it, the last one to NULL. */
  predicate LeadsOn(nodes: seq<LevelNode>, c: seq<nat>, i: nat)
    requires i < |c|
  {
    0 < c[i] < |nodes| && nodes[c[i]].nxt == if i + 1 < |c| then c[i + 1] else 0
  }

  ghost predicate Once(c: seq<nat>) {
    forall i, j :: 0 <= i < j < |c| ==> c[i] != c[j]
  }

  /** The slots that the links visit from x on, each once, up to the NULL at the end. */
  ghost predicate Visits(nodes: seq<LevelNode>, x: nat, c: seq<nat>) {
    && x == (if c == [] then 0 else c[0])
    && (forall i :: 0 <= i < |c| ==> LeadsOn(nodes, c, i))
    && Once(c)
  }

  /** A new head comes in front of everything on the level. */
  lemma {:induction false} HeadedVisits(nodes: seq<LevelNode>, n: nat, first: nat, c: seq<nat>)
    requires 0 < n < |nodes| && nodes[n].nxt == 0 && Visits(nodes, first, c) && n !in c
    ensures Visits(Headed(nodes, n, first), n, [n] + c)
  {
    var h, d := Headed(nodes, n, first), [n] + c;
    forall i | 0 <= i < |d|
      ensures LeadsOn(h, d, i)
    {
      if i > 0 {
        assert d[i] == c[i - 1] && LeadsOn(nodes, c, i - 1);
      } else if c != [] {
        assert LeadsOn(nodes, c, 0);
      }
    }
  }

  /** Without a predecessor, a node that is taken out takes everything in front of it off the level, unless it
      is the last one: then nothing leaves the level, and the level still leads to the node. */
  lemma {:induction false} UnlinkedCutsOff(nodes: seq<LevelNode>, first: nat, c: seq<nat>, i: nat)
    requires Visits(nodes, first, c) && i < |c| && LeadsOn(nodes, c, i) && nodes[c[i]].pre == 0
    ensures var u := Unlinked(nodes, c[i]);
            && u[c[i]].nxt == 0
            && if i + 1 < |c| then nodes[c[i]].nxt != 0 && Visits(u, nodes[c[i]].nxt, c[i + 1..])
               else nodes[c[i]].nxt == 0 && Visits(u, first, c)
  {
    var u, rest := Unlinked(nodes, c[i]), c[i + 1..];
    if i + 1 < |c| {
      assert LeadsOn(nodes, c, i + 1);
      forall j | 0 <= j < |rest|
        ensures LeadsOn(u, rest, j)
      {
        assert rest[j] == c[i + 1 + j] && LeadsOn(nodes, c, i + 1 + j);
      }
    } else {
      forall j | 0 <= j < |c|
        ensures LeadsOn(u, c, j)
      {
        assert LeadsOn(nodes, c, j);
      }
    }
  }

  /** With its predecessor known, a node in the middle would leave alone, and the last one would stay. */
  lemma {:induction false} UnlinkedBridges(nodes: seq<LevelNode>, first: nat, c: seq<nat>, i: nat)
    requires Visits(nodes, first, c) && 0 < i < |c| && LeadsOn(nodes, c, i) && LeadsOn(nodes, c, i - 1)
    requires nodes[c[i]].pre == c[i - 1]
    ensures Visits(Unlinked(nodes, c[i]), first, if i + 1 < |c| then c[..i] + c[i + 1..] else c)
    ensures Unlinked(nodes, c[i])[c[i]].nxt == 0 && Unlinked(nodes, c[i])[c[i]].pre == 0
  {
    var u := Unlinked(nodes, c[i]);
    if i + 1 < |c| {
      var d := c[..i] + c[i + 1..];
      WithoutOnce(c, i);
      assert LeadsOn(nodes, c, i + 1) && c[i - 1] != c[i];
      forall j | 0 <= j < |d|
        ensures LeadsOn(u, d, j)
      {
        var k := if j < i then j else j + 1;
        assert d[j] == c[k] && LeadsOn(nodes, c, k);
        assert j + 1 < |d| ==> d[j + 1] == c[if j + 1 < i then j + 1 else j + 2];
      }
    } else {
      forall j | 0 <= j < |c|
        ensures LeadsOn(u, c, j)
      {
        assert LeadsOn(nodes, c, j);
      }
    }
  }

  lemma {:induction false} WithoutOnce(c: seq<nat>, i: nat)
    requires Once(c) && i < |c|
    ensures Once(c[..i] + c[i + 1..])
  {
    var d := c[..i] + c[i + 1..];
    assert forall j :: 0 <= j < |d| ==> d[j] == c[if j < i then j else j + 1];
  }

  class Level {
    var count: int
    const allowSize: nat
    var usedSize: int
    var first: nat
    var last: nat

    constructor (allowSize: nat)
      ensures count == 0 && usedSize == 0 && first == 0 && last == 0 && this.allowSize == allowSize
    {
      count, usedSize, first, last := 0, 0, 0, 0;
      this.allowSize := allowSize;
    }

    /** Put a node at the head. The old head never learns of its new predecessor. */
    method SetHead(pool: NodePool, n: nat)
      requires 0 < n < |pool.nodes|
      modifies this`count, this`first, pool
      ensures count == old(count) + 1 && first == n
      ensures pool.nodes == Headed(old(pool.nodes), n, old(first))
      ensures SamePayload(old(pool.nodes), pool.nodes)
      ensures NoPre(old(pool.nodes)) ==> NoPre(pool.nodes)
    {
      count := count + 1;
      if first != 0 {
        pool.nodes := pool.nodes[n := pool.nodes[n].(pre := 0, nxt := first)];
      }
      first := n;
    }

    /** Take a node out of its links. */
    method RemoveLink(pool: NodePool, n: nat)
      requires 0 < n < |pool.nodes| && forall i :: 0 <= i < |pool.nodes| ==> pool.nodes[i].pre < |pool.nodes|
      modifies this`count, this`first, this`last, pool
      ensures count == old(count) - 1
      ensures pool.nodes == Unlinked(old(pool.nodes), n)
      ensures var node := old(pool.nodes[n]);
              && first == (if node.pre == 0 && node.nxt != 0 then node.nxt else old(first))
              && last == (if node.pre != 0 && node.nxt == 0 then node.pre else old(last))
      ensures SamePayload(old(pool.nodes), pool.nodes)
      ensures NoPre(old(pool.nodes)) ==> NoPre(pool.nodes) && last == old(last)
    {
      count := count - 1;
      var node := pool.nodes[n];
      if node.pre == 0 {
        if node.nxt != 0 {
          first := node.nxt;
          pool.nodes := pool.nodes[n := node.(nxt := 0)];
        }
      } else if node.nxt == 0 {
        last := node.pre;
        pool.nodes := pool.nodes[n := node.(pre := 0)];
      } else {
        pool.nodes := pool.nodes[node.pre := pool.nodes[node.pre].(nxt := node.nxt)];
        pool.nodes := pool.nodes[n := pool.nodes[n].(nxt := 0, pre := 0)];
      }
    }

    /** Take a node out of the account and out of its links. */
    method FreeNode(pool: NodePool, n: nat)
      requires 0 < n < |pool.nodes| && forall i :: 0 <= i < |pool.nodes| ==> pool.nodes[i].pre < |pool.nodes|
      modifies this`count, this`usedSize, this`first, this`last, pool
      ensures count == old(count) - 1 && usedSize == old(usedSize) - old(pool.nodes[n].size)
      ensures pool.nodes == Unlinked(old(pool.nodes), n)
      ensures SamePayload(old(pool.nodes), pool.nodes)
      ensures NoPre(old(pool.nodes)) ==> NoPre(pool.nodes) && last == old(last)
    {
      usedSize := usedSize - pool.nodes[n].size;
      RemoveLink(pool, n);
    }
  }
}
