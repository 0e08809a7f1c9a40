// The value cache as the program runs it: a hash table over the nodes of two levels.
module Shikis {
  import opened Keys
  import opened Records
  import opened Hts
  import opened Levels
  import opened Caches

  /** Node n is what the cache keeps for key k. */
  ghost predicate NodeOk(nodes: seq<LevelNode>, k: Key, n: nat) {
    0 < n < |nodes| && nodes[n].sk == k && nodes[n].size == |k| + |nodes[n].sv| && HitsOk(nodes[n].hits)
  }

  ghost predicate NodesOk(nodes: seq<LevelNode>, refs: map<Key, nat>) {
    forall k :: k in refs ==> NodeOk(nodes, k, refs[k])
  }

  ghost function EntryOf(nodes: seq<LevelNode>, n: nat): Entry
    requires n < |nodes|
  {
    Entry(nodes[n].sv, nodes[n].hits)
  }

  ghost function EntriesOf(nodes: seq<LevelNode>, refs: map<Key, nat>): (m: map<Key, Entry>)
    requires NodesOk(nodes, refs)
  {
    map k | k in refs :: (assert NodeOk(nodes, k, refs[k]); EntryOf(nodes, refs[k]))
  }

  lemma {:induction false} LinksDontMatter(a: seq<LevelNode>, b: seq<LevelNode>, refs: map<Key, nat>)
    requires SamePayload(a, b) && NodesOk(a, refs)
    ensures |a| == |b|
    ensures NodesOk(b, refs) && EntriesOf(b, refs) == EntriesOf(a, refs)
  {
    forall k | k in refs
      ensures NodeOk(b, k, refs[k]) && EntryOf(b, refs[k]) == EntryOf(a, refs[k])
    {
      assert NodeOk(a, k, refs[k]);
    }
  }

  lemma {:induction false} HitsChange(nodes: seq<LevelNode>, refs: map<Key, nat>, key: Key, hits: int)
    requires NodesOk(nodes, refs) && key in refs && HitsOk(hits)
    ensures refs[key] < |nodes|
    ensures var b := nodes[refs[key] := nodes[refs[key]].(hits := hits)];
            && NodesOk(b, refs)
            && EntriesOf(b, refs) == EntriesOf(nodes, refs)[key := EntriesOf(nodes, refs)[key].(hits := hits)]
  {
    assert NodeOk(nodes, key, refs[key]);
    var b := nodes[refs[key] := nodes[refs[key]].(hits := hits)];
    forall k | k in refs
      ensures NodeOk(b, k, refs[k])
      ensures EntryOf(b, refs[k])
              == if k == key then EntryOf(nodes, refs[k]).(hits := hits) else EntryOf(nodes, refs[k])
    {
      assert NodeOk(nodes, k, refs[k]);
    }
  }

  lemma {:induction false} EntryAt(nodes: seq<LevelNode>, refs: map<Key, nat>, key: Key)
    requires NodesOk(nodes, refs) && key in refs
    ensures NodeOk(nodes, key, refs[key])
    ensures key in EntriesOf(nodes, refs) && EntriesOf(nodes, refs)[key] == EntryOf(nodes, refs[key])
  {
  }

  lemma {:induction false} HitsAreNoLinks(nodes: seq<LevelNode>, n: nat, hits: int)
    requires n < |nodes| && NoPre(nodes)
    ensures NoPre(nodes[n := nodes[n].(hits := hits)])
  {
  }

  lemma {:induction false} ChangedTwice(m: map<Key, Entry>, key: Key, a: Entry, b: Entry)
    ensures m[key := a][key := b] == m[key := b]
  {
  }

  lemma {:induction false} NoPreInRange(nodes: seq<LevelNode>)
    requires NoPre(nodes) && |nodes| > 0
    ensures forall i :: 0 <= i < |nodes| ==> nodes[i].pre < |nodes|
  {
  }

  class Shiki {
    const buffer: bool
    const ht: Ht
    const levelOld: Level
    const levelNew: Level
    const pool: NodePool
    ghost var refs: map<Key, nat>

    /** The table holds one node for each cached key and none for any other. */
    ghost predicate TableOk()
      reads this, ht, ht.nodes
    {
      && ht.Valid() && ht.size == |refs|
      && forall k :: ht.Bindings(k) == if k in refs then [refs[k]] else []
    }

    /** Each level accounts for exactly the entries on it; no link that an eviction would follow is set. */
    ghost predicate Valid()
      reads this, ht, ht.nodes, levelOld, levelNew, pool
    {
      && TableOk() && levelOld != levelNew
      && NodesOk(pool.nodes, refs) && NoPre(pool.nodes) && |pool.nodes| > 0
      && levelOld.last == 0 && levelNew.last == 0
      && Accounts(levelOld, EntriesOf(pool.nodes, refs), false)
      && Accounts(levelNew, EntriesOf(pool.nodes, refs), true)
      && (!buffer ==> refs == map[])
    }

    ghost function View(): Cache
      requires Valid()
      reads this, ht, ht.nodes, levelOld, levelNew, pool
    {
      Cache(EntriesOf(pool.nodes, refs), buffer, levelOld.allowSize, levelNew.allowSize)
    }

    constructor (buffer: bool, cap: nat, oldAllow: nat, newAllow: nat)
      requires cap > 0
      ensures Valid() && View() == Cache(map[], buffer, oldAllow, newAllow)
      ensures fresh(ht) && fresh(ht.nodes) && fresh(levelOld) && fresh(levelNew) && fresh(pool)
    {
      this.buffer := buffer;
      ht := new Ht(cap);
      levelOld := new Level(oldAllow);
      levelNew := new Level(newAllow);
      pool := new NodePool();
      refs := map[];
    }

    /** One use of a node; false when the program stops at the missing last node of a full level. */
    method SetNode(n: nat, ghost key: Key) returns (ok: bool)
      requires Valid() && key in refs && refs[key] == n
      modifies levelOld, levelNew, pool
      ensures Valid()
      ensures Touch(old(View()), key) == if ok then Some(View()) else None
    {
      hide Account;
      hide EntriesOf;
      hide NodesOk;
      hide NoPre;
      hide TableOk;
      EntryAt(pool.nodes, refs, key);
      UseAccounts(EntriesOf(pool.nodes, refs), key);
      if pool.nodes[n].hits == -1 {
        if levelNew.usedSize >= levelNew.allowSize {
          assert levelNew.last == 0;
          return false;
        }
        Requeue(levelNew, n);
      } else {
        if levelOld.usedSize >= levelOld.allowSize {
          assert levelOld.last == 0;
          return false;
        }
        UseOld(n, key);
      }
      ok := true;
    }

    /** One use of a node on the old level. */
    method UseOld(n: nat, ghost key: Key)
      requires Valid() && key in refs && refs[key] == n && n < |pool.nodes| && pool.nodes[n].hits != -1
      modifies levelOld, levelNew, pool
      ensures Valid()
      ensures View().entries == old(View()).entries[key := Used(old(View()).entries[key])]
    {
      hide Account;
      hide EntriesOf;
      hide NodesOk;
      hide NoPre;
      hide TableOk;
      ghost var m := EntriesOf(pool.nodes, refs);
      EntryAt(pool.nodes, refs, key);
      UseAccounts(m, key);
      ChangedTwice(m, key, m[key].(hits := m[key].hits + 1), Used(m[key]));
      HitsChange(pool.nodes, refs, key, m[key].hits + 1);
      HitsAreNoLinks(pool.nodes, n, m[key].hits + 1);
      pool.nodes := pool.nodes[n := pool.nodes[n].(hits := pool.nodes[n].hits + 1)];
      if pool.nodes[n].hits > MAXHITS {
        Promote(n, key);
      } else {
        Requeue(levelOld, n);
      }
    }

    /** To the head of its own level. */
    method Requeue(level: Level, n: nat)
      requires 0 < n < |pool.nodes| && NodesOk(pool.nodes, refs) && NoPre(pool.nodes)
      modifies level, pool
      ensures level.count == old(level.count) && level.usedSize == old(level.usedSize) && level.last == old(level.last)
      ensures NodesOk(pool.nodes, refs) && NoPre(pool.nodes) && |pool.nodes| == old(|pool.nodes|)
      ensures EntriesOf(pool.nodes, refs) == old(EntriesOf(pool.nodes, refs))
    {
      hide EntriesOf;
      hide NodesOk;
      hide SamePayload;
      hide NoPre;
      NoPreInRange(pool.nodes);
      ghost var a := pool.nodes;
      level.RemoveLink(pool, n);
      LinksDontMatter(a, pool.nodes, refs);
      ghost var b := pool.nodes;
      level.SetHead(pool, n);
      LinksDontMatter(b, pool.nodes, refs);
    }

    /** From the old level to the head of the new one. */
    method Promote(n: nat, ghost key: Key)
      requires key in refs && refs[key] == n && levelOld != levelNew
      requires NodesOk(pool.nodes, refs) && NoPre(pool.nodes)
      modifies levelOld, levelNew, pool
      ensures levelOld.count == old(levelOld.count) - 1 && levelNew.count == old(levelNew.count) + 1
      ensures old(NodeOk(pool.nodes, key, n))
      ensures levelOld.usedSize == old(levelOld.usedSize) - old(pool.nodes[n].size)
      ensures levelNew.usedSize == old(levelNew.usedSize) + old(pool.nodes[n].size)
      ensures levelOld.last == old(levelOld.last) && levelNew.last == old(levelNew.last)
      ensures NodesOk(pool.nodes, refs) && NoPre(pool.nodes) && |pool.nodes| == old(|pool.nodes|)
      ensures EntriesOf(pool.nodes, refs) ==
              old(EntriesOf(pool.nodes, refs))[key := old(EntriesOf(pool.nodes, refs)[key]).(hits := -1)]
    {
      hide EntriesOf;
      hide NodesOk;
      hide SamePayload;
      hide NoPre;
      EntryAt(pool.nodes, refs, key);
      NoPreInRange(pool.nodes);
      ghost var a := pool.nodes;
      levelOld.RemoveLink(pool, n);
      LinksDontMatter(a, pool.nodes, refs);
      ghost var b := pool.nodes;
      levelNew.SetHead(pool, n);
      LinksDontMatter(b, pool.nodes, refs);
      EntryAt(pool.nodes, refs, key);
      HitsChange(pool.nodes, refs, key, -1);
      HitsAreNoLinks(pool.nodes, n, -1);
      pool.nodes := pool.nodes[n := pool.nodes[n].(hits := -1)];
      levelOld.usedSize := levelOld.usedSize - pool.nodes[n].size;
      levelNew.usedSize := levelNew.usedSize + pool.nodes[n].size;
    }

    /** The cached value of a key; ok is false when the program stops. */
    method Get(key: Key) returns (ok: bool, value: Option<seq<Byte>>)
      requires Valid()
      modifies levelOld, levelNew, pool
      ensures Valid()
      ensures value == if key in old(View()).entries then Some(old(View()).entries[key].value) else None
      ensures value.Some? ==> old(View()).on
      ensures Caches.Get(old(View()), key) == if ok then Some(View()) else None
    {
      hide Account;
      hide Touch;
      if !buffer {
        return true, None;
      }
      var n := Ref(key);
      if n == None {
        return true, None;
      }
      assert NodeOk(pool.nodes, key, n.value);
      value := Some(pool.nodes[n.value].sv);
      ok := SetNode(n.value, key);
    }

    /** Cache a value, on the old level. */
    method Set(key: Key, value: seq<Byte>) returns (ok: bool)
      requires Valid()
      modifies this, ht, ht.nodes, levelOld, levelNew, pool
      ensures Valid()
      ensures Caches.Set(old(View()), key, value).Some? == ok
      ensures ok ==> Caches.Set(old(View()), key, value) == Some(View())
    {
      hide Account;
      hide Touch;
      if !buffer {
        return true;
      }
      var n := Ref(key);
      if n == None {
        var slot := Enter(key, value);
        ok := SetNode(slot, key);
      } else {
        ok := SetNode(n.value, key);
      }
    }

    /** Enter a key into the table. */
    method Bind(key: Key, n: nat)
      requires TableOk() && key !in refs
      modifies this, ht, ht.nodes
      ensures TableOk() && refs == old(refs)[key := n]
    {
      hide Ht.Bindings;
      hide Ht.Valid;
      ht.Set(key, n);
      refs := refs[key := n];
    }

    /** Take a key out of the table. */
    method Unbind(key: Key)
      requires TableOk() && key in refs
      modifies this, ht, ht.nodes
      ensures TableOk() && refs == old(refs) - {key}
    {
      hide Ht.Bindings;
      hide Ht.Valid;
      RefLeaves(refs, key);
      ht.Remove(key);
      refs := refs - {key};
    }

    /** A new node on the old level. */
    method Enter(key: Key, value: seq<Byte>) returns (n: nat)
      requires Valid() && buffer && key !in refs
      modifies this, ht, ht.nodes, levelOld, pool
      ensures Valid() && key in refs && refs[key] == n
      ensures View() == old(View()).(entries := old(View()).entries[key := Entry(value, 1)])
    {
      hide Account;
      hide EntriesOf;
      hide NodesOk;
      hide NoPre;
      hide TableOk;
      hide NodeOk;
      ghost var m := EntriesOf(pool.nodes, refs);
      NodeEnters(pool.nodes, refs, key, value);
      AccountNewKey(m, key, Entry(value, 1), false);
      AccountNewKey(m, key, Entry(value, 1), true);
      var size := |key| + |value|;
      levelOld.usedSize := levelOld.usedSize + size;
      levelOld.count := levelOld.count + 1;
      n := |pool.nodes|;
      pool.nodes := pool.nodes + [LevelNode(1, size, key, value, 0, 0)];
      Bind(key, n);
    }

    /** Forget a key. */
    method Remove(key: Key)
      requires Valid()
      modifies this, ht, ht.nodes, levelOld, levelNew, pool
      ensures Valid()
      ensures View() == Caches.Remove(old(View()), key)
    {
      hide Account;
      hide EntriesOf;
      hide NodesOk;
      hide NoPre;
      hide NodeOk;
      if !buffer {
        return;
      }
      var n := Ref(key);
      if n == None {
        EntryGone(pool.nodes, refs, key);
        return;
      }
      Forget(key, n.value);
    }

    /** The node of a key, if it is cached. */
    method Ref(key: Key) returns (n: Option<nat>)
      requires Valid()
      ensures n == if key in refs then Some(refs[key]) else None
    {
      n := ht.Get(key);
    }

    /** Take a node out of the table and off its level. */
    method Forget(key: Key, n: nat)
      requires Valid() && buffer && key in refs && refs[key] == n
      modifies this, ht, ht.nodes, levelOld, levelNew, pool
      ensures Valid()
      ensures View() == Caches.Remove(old(View()), key)
    {
      hide Account;
      hide EntriesOf;
      hide NodesOk;
      hide NoPre;
      hide SamePayload;
      hide TableOk;
      ghost var m, a := EntriesOf(pool.nodes, refs), pool.nodes;
      EntryAt(a, refs, key);
      AccountWithout(m, key, true);
      AccountWithout(m, key, false);
      EntryLeaves(a, refs, key);
      Unbind(key);
      NoPreInRange(a);
      if pool.nodes[n].hits == -1 {
        levelNew.FreeNode(pool, n);
      } else {
        levelOld.FreeNode(pool, n);
      }
      LinksDontMatter(a, pool.nodes, refs);
    }
  }

  lemma {:induction false} EntryLeaves(nodes: seq<LevelNode>, refs: map<Key, nat>, key: Key)
    requires NodesOk(nodes, refs)
    ensures NodesOk(nodes, refs - {key})
    ensures EntriesOf(nodes, refs - {key}) == EntriesOf(nodes, refs) - {key}
  {
    assert forall k :: k in refs ==> NodeOk(nodes, k, refs[k]);
  }

  lemma {:induction false} EntryGone(nodes: seq<LevelNode>, refs: map<Key, nat>, key: Key)
    requires NodesOk(nodes, refs) && key !in refs
    ensures EntriesOf(nodes, refs) - {key} == EntriesOf(nodes, refs)
  {
  }

  ghost predicate Accounts(level: Level, m: map<Key, Entry>, onNew: bool)
    reads level
  {
    level.count == Account(m, onNew).count && level.usedSize == Account(m, onNew).size
  }

  lemma {:induction false} NodeEnters(nodes: seq<LevelNode>, refs: map<Key, nat>, key: Key, value: seq<Byte>)
    requires NodesOk(nodes, refs) && key !in refs && |nodes| > 0
    ensures var b := nodes + [LevelNode(1, |key| + |value|, key, value, 0, 0)];
            && key !in EntriesOf(nodes, refs)
            && (NoPre(nodes) ==> NoPre(b))
            && NodesOk(b, refs[key := |nodes|])
            && EntriesOf(b, refs[key := |nodes|]) == EntriesOf(nodes, refs)[key := Entry(value, 1)]
  {
    var b := nodes + [LevelNode(1, |key| + |value|, key, value, 0, 0)];
    forall k | k in refs
      ensures NodeOk(b, k, refs[k]) && EntryOf(b, refs[k]) == EntryOf(nodes, refs[k])
    {
      assert NodeOk(nodes, k, refs[k]);
    }
    assert NodeOk(b, key, |nodes|);
  }

  lemma {:induction false} RefLeaves(refs: map<Key, nat>, key: Key)
    requires key in refs
    ensures |refs - {key}| == |refs| - 1
  {
    assert (refs - {key}).Keys == refs.Keys - {key};
    assert |refs| == |refs.Keys| && |refs - {key}| == |(refs - {key}).Keys|;
  }
}
