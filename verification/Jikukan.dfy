// The skip list. Nodes live in a pool and never move, so a pointer is a slot
// number; slot 0 is the header, which is also the NIL that ends every level.
module Jikukans {
  import opened Keys
  import opened Records

  const MAXLEVEL := 15

  datatype SkipNode = SkipNode(key: Key, val: nat, opt: Opt, forward: seq<nat>)

  // ---- the shape of the towers ---------------------------------------------------

  /** With h[p] the height of the p-th node, the next node after p that is linked at level i. */
  ghost function Next(h: seq<nat>, p: nat, i: nat): (n: nat)
    requires p < |h|
    ensures p < n <= |h|
    ensures n < |h| ==> h[n] > i
    ensures forall q :: p < q < n ==> h[q] <= i
    decreases |h| - p
  {
    if p + 1 == |h| || h[p + 1] > i then p + 1 else Next(h, p + 1, i)
  }

  lemma {:induction false} NextIs(h: seq<nat>, p: nat, i: nat, n: nat)
    requires p < n <= |h|
    requires n < |h| ==> h[n] > i
    requires forall q :: p < q < n ==> h[q] <= i
    ensures Next(h, p, i) == n
  {
    var m := Next(h, p, i);
    assert n < |h| ==> h[n] > i;
  }

  ghost function HeightsWith(h: seq<nat>, p: nat, t: nat): seq<nat>
    requires p < |h|
  {
    h[..p + 1] + [t] + h[p + 1..]
  }

  /** Where the links of level i go once a tower of height t stands right after position p:
      those of an earlier node ... */
  lemma {:induction false} NextBefore(h: seq<nat>, p: nat, t: nat, q: nat, i: nat)
    requires q <= p < |h|
    ensures var n := Next(h, q, i);
            Next(HeightsWith(h, p, t), q, i) == if n <= p then n else if t > i then p + 1 else n + 1
  {
    var n := Next(h, q, i);
    NextIs(HeightsWith(h, p, t), q, i, if n <= p then n else if t > i then p + 1 else n + 1);
  }

  /** ... those of a later node ... */
  lemma {:induction false} NextBehind(h: seq<nat>, p: nat, t: nat, q: nat, i: nat)
    requires p < q < |h|
    ensures Next(HeightsWith(h, p, t), q + 1, i) == Next(h, q, i) + 1
  {
    NextIs(HeightsWith(h, p, t), q + 1, i, Next(h, q, i) + 1);
  }

  /** ... and its own, which it takes over from the last tower that reached the level. */
  lemma {:induction false} NextOfNew(h: seq<nat>, p: nat, t: nat, u: nat, i: nat)
    requires IsPred(h, p, i, u)
    ensures Next(HeightsWith(h, p, t), p + 1, i) == Next(h, u, i) + 1
  {
    NextIs(HeightsWith(h, p, t), p + 1, i, Next(h, u, i) + 1);
  }

  ghost function Heights(pool: seq<SkipNode>, spine: seq<nat>): seq<nat>
    requires forall p :: 0 <= p < |spine| ==> spine[p] < |pool|
  {
    seq(|spine|, p requires 0 <= p < |spine| => |pool[spine[p]].forward|)
  }

  /** The slot at a position of the spine; past its end stands the header. */
  ghost function SlotAt(spine: seq<nat>, n: nat): nat {
    if n < |spine| then spine[n] else 0
  }

  /** The spine lists all slots in key order, header first, and the forward pointers
      of each level link exactly the towers that reach it, in that order, back to the header. */
  ghost predicate Linked(pool: seq<SkipNode>, spine: seq<nat>, level: nat) {
    && |spine| == |pool| >= 1 && spine[0] == 0
    && InPool(pool, spine) && Distinct(spine)
    && level <= MAXLEVEL && |pool[0].forward| == MAXLEVEL + 1
    && (forall p :: 1 <= p < |spine| ==> 1 <= |pool[spine[p]].forward| <= level + 1)
    && KeysRise(pool, spine)
    && LinksOk(pool, spine)
  }

  ghost predicate KeysRise(pool: seq<SkipNode>, spine: seq<nat>)
    requires InPool(pool, spine)
  {
    forall p, q :: 1 <= p < q < |spine| ==> Lt(pool[spine[p]].key, pool[spine[q]].key)
  }

  ghost predicate LinksOk(pool: seq<SkipNode>, spine: seq<nat>)
    requires forall p :: 0 <= p < |spine| ==> spine[p] < |pool|
  {
    forall p, i :: 0 <= p < |spine| && 0 <= i < |pool[spine[p]].forward| ==>
      pool[spine[p]].forward[i] == SlotAt(spine, Next(Heights(pool, spine), p, i))
  }

  function RecOf(n: SkipNode): Rec {
    Rec(n.key, n.val, n.opt)
  }

  /** The bottom level, header left out. */
  ghost function Chain(pool: seq<SkipNode>, spine: seq<nat>): seq<Rec>
    requires |spine| >= 1 && forall p :: 0 <= p < |spine| ==> spine[p] < |pool|
  {
    seq(|spine| - 1, p requires 0 <= p < |spine| - 1 => RecOf(pool[spine[p + 1]]))
  }

  /** Position u is the last one at or before p whose tower reaches level i. */
  ghost predicate IsPred(h: seq<nat>, p: nat, i: nat, u: nat) {
    u <= p < |h| && h[u] > i && Next(h, u, i) > p
  }

  lemma {:induction false} PredIsUnique(h: seq<nat>, p: nat, i: nat, u: nat, q: nat)
    requires IsPred(h, p, i, u)
    requires q <= p && h[q] > i && Next(h, q, i) > p
    ensures q == u
  {
    assert h[u] > i && h[q] > i;
  }

  // ---- the levels as lists -----------------------------------------------------------

  /** The positions met by following level i from position p until the header comes back. */
  ghost function Hops(h: seq<nat>, p: nat, i: nat): seq<nat>
    requires p < |h|
    decreases |h| - p
  {
    var n := Next(h, p, i);
    if n == |h| then [] else [n] + Hops(h, n, i)
  }

  /** A level visits exactly the towers that reach it, in order. */
  lemma {:induction false} HopsAreTowers(h: seq<nat>, p: nat, i: nat)
    requires p < |h|
    ensures forall q :: q in Hops(h, p, i) <==> p < q < |h| && h[q] > i
    ensures forall a, b :: 0 <= a < b < |Hops(h, p, i)| ==> Hops(h, p, i)[a] < Hops(h, p, i)[b]
    decreases |h| - p
  {
    var n := Next(h, p, i);
    if n < |h| {
      HopsAreTowers(h, n, i);
      var rest := Hops(h, n, i);
      assert forall a :: 0 <= a < |rest| ==> rest[a] in rest;
    }
  }

  /** Following the real pointers of a level from the header visits nodes in strictly rising
      key order, all of them also on the level below, and ends at the header. */
  lemma {:induction false} EachLevelThinsTheOneBelow(pool: seq<SkipNode>, spine: seq<nat>, level: nat, i: nat)
    requires Linked(pool, spine, level) && 1 <= i <= MAXLEVEL
    ensures var h := Heights(pool, spine);
            && (forall q :: q in Hops(h, 0, i) ==> q in Hops(h, 0, i - 1))
            && PointersVisit(pool, spine, [0] + Hops(h, 0, i), i)
  {
    hide Lt;
    hide Next;
    hide LinksOk;
    hide KeysRise;
    hide Distinct;
    hide Hops;
    var h := Heights(pool, spine);
    HopsAreTowers(h, 0, i);
    HopsAreTowers(h, 0, i - 1);
    LevelPointers(pool, spine, level, i);
    LevelKeys(pool, spine, level, Hops(h, 0, i));
  }

  lemma {:induction false} LevelPointers(pool: seq<SkipNode>, spine: seq<nat>, level: nat, i: nat)
    requires Linked(pool, spine, level) && i <= MAXLEVEL
    ensures var hops := [0] + Hops(Heights(pool, spine), 0, i);
            && (forall a :: 0 <= a < |hops| ==> hops[a] < |spine| && i < |pool[spine[hops[a]]].forward|)
            && (forall a :: 0 <= a < |hops| ==>
                  pool[spine[hops[a]]].forward[i] == SlotAt(spine, After(hops, a, |spine|)))
  {
    hide KeysRise;
    hide Next;
    var h := Heights(pool, spine);
    HopsAreTowers(h, 0, i);
    HopsFollowNext(h, 0, i);
    var rest := Hops(h, 0, i);
    var hops := [0] + rest;
    assert forall a :: 0 <= a < |rest| ==> rest[a] in rest;
    assert h[0] == MAXLEVEL + 1;
    hide Hops;
    forall a | 0 <= a < |hops|
      ensures hops[a] < |spine| && i < |pool[spine[hops[a]]].forward|
      ensures pool[spine[hops[a]]].forward[i] == SlotAt(spine, After(hops, a, |spine|))
    {
      assert h[hops[a]] > i;
      assert FollowsAt(h, hops, i, a);
    }
  }

  lemma {:induction false} LevelKeys(pool: seq<SkipNode>, spine: seq<nat>, level: nat, rest: seq<nat>)
    requires Linked(pool, spine, level)
    requires forall q :: q in rest ==> 0 < q < |spine|
    requires forall a, b :: 0 <= a < b < |rest| ==> rest[a] < rest[b]
    ensures var hops := [0] + rest;
            && (forall a :: 0 <= a < |hops| ==> hops[a] < |spine|)
            && forall a, b :: 1 <= a < b < |hops| ==> Lt(pool[spine[hops[a]]].key, pool[spine[hops[b]]].key)
  {
    hide LinksOk;
    hide Lt;
    assert forall a :: 0 <= a < |rest| ==> rest[a] in rest;
  }

  ghost predicate PointersVisit(pool: seq<SkipNode>, spine: seq<nat>, hops: seq<nat>, i: nat)
    requires InPool(pool, spine)
  {
    && (forall a :: 0 <= a < |hops| ==> hops[a] < |spine| && i < |pool[spine[hops[a]]].forward|)
    && (forall a :: 0 <= a < |hops| ==>
          pool[spine[hops[a]]].forward[i] == SlotAt(spine, After(hops, a, |spine|)))
    && (forall a, b :: 1 <= a < b < |hops| ==> Lt(pool[spine[hops[a]]].key, pool[spine[hops[b]]].key))
  }

  /** The entry of hops after the a-th, or `end` after the last. */
  ghost function After(hops: seq<nat>, a: nat, end: nat): nat {
    if a + 1 < |hops| then hops[a + 1] else end
  }

  ghost predicate Follows(h: seq<nat>, hops: seq<nat>, i: nat) {
    forall a :: 0 <= a < |hops| ==> FollowsAt(h, hops, i, a)
  }

  ghost predicate FollowsAt(h: seq<nat>, hops: seq<nat>, i: nat, a: nat) {
    a < |hops| && hops[a] < |h| && Next(h, hops[a], i) == After(hops, a, |h|)
  }

  lemma {:induction false} HopsFollowNext(h: seq<nat>, p: nat, i: nat)
    requires p < |h|
    ensures Follows(h, [p] + Hops(h, p, i), i)
    decreases |h| - p
  {
    var n := Next(h, p, i);
    if n < |h| {
      HopsFollowNext(h, n, i);
      var hops, rest := [p] + Hops(h, p, i), [n] + Hops(h, n, i);
      assert hops == [p] + rest;
      hide Hops;
      hide Next;
      forall a | 1 <= a < |hops|
        ensures FollowsAt(h, hops, i, a)
      {
        assert FollowsAt(h, rest, i, a - 1);
      }
    }
  }

  // ---- splicing a new tower in -----------------------------------------------------

  /** pool' is pool with one more node, linked behind update[i] on each level it reaches. */
  ghost predicate Spliced(pool: seq<SkipNode>, pool': seq<SkipNode>, update: seq<nat>, r: Rec, height: nat) {
    && |pool'| == |pool| + 1 && height <= |update|
    && (forall i :: 0 <= i < height ==> update[i] < |pool| && i < |pool[update[i]].forward|)
    && RecOf(pool'[|pool|]) == r && |pool'[|pool|].forward| == height
    && (forall i :: 0 <= i < height ==> pool'[|pool|].forward[i] == pool[update[i]].forward[i])
    && (forall s :: 0 <= s < |pool| ==> SameButLinks(pool[s], pool'[s]))
    && (forall s, i {:trigger pool'[s].forward[i]} :: 0 <= s < |pool| && 0 <= i < |pool[s].forward| ==>
          pool'[s].forward[i] == if i < height && update[i] == s then |pool| else pool[s].forward[i])
  }

  ghost predicate SameButLinks(a: SkipNode, b: SkipNode) {
    RecOf(a) == RecOf(b) && |a.forward| == |b.forward|
  }

  method Splice(pool: seq<SkipNode>, update: seq<nat>, r: Rec, newLevel: nat) returns (pool': seq<SkipNode>)
    requires newLevel < |update|
    requires forall i :: 0 <= i <= newLevel ==> update[i] < |pool| && i < |pool[update[i]].forward|
    ensures Spliced(pool, pool', update, r, newLevel + 1)
  {
    var x := |pool|;
    pool' := pool + [SkipNode(r.key, r.val, r.opt, seq(newLevel + 1, _ => 0))];
    for i := 0 to newLevel + 1
      invariant |pool'| == x + 1
      invariant RecOf(pool'[x]) == r && |pool'[x].forward| == newLevel + 1
      invariant forall j :: 0 <= j < i ==> pool'[x].forward[j] == pool[update[j]].forward[j]
      invariant forall s :: 0 <= s < x ==> SameButLinks(pool[s], pool'[s])
      invariant forall s, j :: 0 <= s < x && 0 <= j < |pool[s].forward| ==>
        pool'[s].forward[j] == if j < i && update[j] == s then x else pool[s].forward[j]
    {
      var u := update[i];
      pool' := pool'[x := pool'[x].(forward := pool'[x].forward[i := pool'[u].forward[i]])];
      pool' := pool'[u := pool'[u].(forward := pool'[u].forward[i := x])];
    }
  }

  ghost function SpineWith(spine: seq<nat>, p: nat, x: nat): seq<nat>
    requires p < |spine|
  {
    spine[..p + 1] + [x] + spine[p + 1..]
  }

  /** What an insertion search hands to the splice: the spine position p the new node follows,
      and for every level of the new tower the last tower at or before p that reaches it. */
  ghost predicate Located(pool: seq<SkipNode>, spine: seq<nat>, p: nat, update: seq<nat>, at: seq<nat>, height: nat)
    requires forall q :: 0 <= q < |spine| ==> spine[q] < |pool|
  {
    && p < |spine| && height <= |update| && height <= |at|
    && forall i :: 0 <= i < height ==> IsPred(Heights(pool, spine), p, i, at[i]) && update[i] == spine[at[i]]
  }

  ghost predicate InPool(pool: seq<SkipNode>, spine: seq<nat>) {
    forall p :: 0 <= p < |spine| ==> spine[p] < |pool|
  }

  ghost predicate Distinct(spine: seq<nat>) {
    forall p, q :: 0 <= p < q < |spine| ==> spine[p] != spine[q]
  }

  lemma {:induction false} SpineWithDistinct(pool: seq<SkipNode>, spine: seq<nat>, p: nat)
    requires InPool(pool, spine) && Distinct(spine) && p < |spine|
    ensures Distinct(SpineWith(spine, p, |pool|))
    ensures forall q :: 0 <= q < |SpineWith(spine, p, |pool|)| ==> SpineWith(spine, p, |pool|)[q] <= |pool|
  {
  }

  /** The splice keeps every node but its links, so heights and records just make room for one. */
  lemma {:induction false} SpineAfterSplice(pool: seq<SkipNode>, pool': seq<SkipNode>, spine: seq<nat>,
                         p: nat, update: seq<nat>, r: Rec, height: nat)
    requires InPool(pool, spine) && p < |spine|
    requires Spliced(pool, pool', update, r, height)
    ensures var spine' := SpineWith(spine, p, |pool|);
            && InPool(pool', spine')
            && Heights(pool', spine') == HeightsWith(Heights(pool, spine), p, height)
            && Chain(pool', spine') == Chain(pool, spine)[..p] + [r] + Chain(pool, spine)[p..]
  {
    var spine' := SpineWith(spine, p, |pool|);
    var h, c := Heights(pool, spine), Chain(pool, spine);
    forall q | 0 <= q < |spine'|
      ensures spine'[q] < |pool'|
      ensures |pool'[spine'[q]].forward| == HeightsWith(h, p, height)[q]
      ensures q > 0 ==> RecOf(pool'[spine'[q]]) == (c[..p] + [r] + c[p..])[q - 1]
    {
      if q != p + 1 {
        var o := if q <= p then q else q - 1;
        assert spine'[q] == spine[o];
        assert SameButLinks(pool[spine[o]], pool'[spine[o]]);
      }
    }
    assert Heights(pool', spine') == HeightsWith(h, p, height);
    assert Chain(pool', spine') == c[..p] + [r] + c[p..];
  }

  lemma {:induction false} SpineWithAt(spine: seq<nat>, p: nat, x: nat, q: nat)
    requires p < |spine|
    ensures q <= p ==> SlotAt(SpineWith(spine, p, x), q) == spine[q]
    ensures q == p + 1 ==> SlotAt(SpineWith(spine, p, x), q) == x
    ensures q > p + 1 ==> SlotAt(SpineWith(spine, p, x), q) == SlotAt(spine, q - 1)
  {
  }

  /** The pointers of the new node itself. */
  lemma {:induction false} NewNodeLinks(pool: seq<SkipNode>, pool': seq<SkipNode>, spine: seq<nat>,
                     p: nat, update: seq<nat>, at: seq<nat>, r: Rec, height: nat, i: nat)
    requires InPool(pool, spine) && LinksOk(pool, spine) && Located(pool, spine, p, update, at, height)
    requires Spliced(pool, pool', update, r, height) && i < height && p < |spine|
    ensures pool'[|pool|].forward[i] ==
            SlotAt(SpineWith(spine, p, |pool|), Next(HeightsWith(Heights(pool, spine), p, height), p + 1, i))
  {
    hide Next;
    hide HeightsWith;
    var h := Heights(pool, spine);
    assert IsPred(h, p, i, at[i]);
    var n := Next(h, at[i], i);
    NextOfNew(h, p, height, at[i], i);
    SpineWithAt(spine, p, |pool|, n + 1);
    assert pool[update[i]].forward[i] == SlotAt(spine, n);
  }

  /** The pointers of a node that was there before. */
  lemma {:induction false} OldNodeLinks(pool: seq<SkipNode>, pool': seq<SkipNode>, spine: seq<nat>,
                     p: nat, update: seq<nat>, at: seq<nat>, r: Rec, height: nat, q: nat, i: nat)
    requires InPool(pool, spine) && Distinct(spine) && LinksOk(pool, spine)
    requires Located(pool, spine, p, update, at, height) && p < |spine|
    requires Spliced(pool, pool', update, r, height)
    requires q < |spine| && i < |pool[spine[q]].forward|
    requires SameButLinks(pool[spine[q]], pool'[spine[q]])
    ensures pool'[spine[q]].forward[i] ==
            SlotAt(SpineWith(spine, p, |pool|),
                   Next(HeightsWith(Heights(pool, spine), p, height), if q <= p then q else q + 1, i))
  {
    hide Next;
    hide HeightsWith;
    hide SpineWith;
    hide Located;
    hide Distinct;
    SplicedAt(pool, pool', update, r, height, spine[q], i);
    assert pool[spine[q]].forward[i] == SlotAt(spine, Next(Heights(pool, spine), q, i));
    hide Spliced;
    hide LinksOk;
    hide InPool;
    var n := Next(Heights(pool, spine), q, i);
    if q <= p {
      NextBefore(Heights(pool, spine), p, height, q, i);
    } else {
      NextBehind(Heights(pool, spine), p, height, q, i);
    }
    SpineWithAt(spine, p, |pool|, n);
    SpineWithAt(spine, p, |pool|, n + 1);
    SpineWithAt(spine, p, |pool|, p + 1);
    if i < height {
      RedirectedIff(pool, spine, p, update, at, height, q, i);
    }
  }

  lemma {:induction false} SplicedAt(pool: seq<SkipNode>, pool': seq<SkipNode>, update: seq<nat>, r: Rec,
                    height: nat, s: nat, i: nat)
    requires Spliced(pool, pool', update, r, height)
    requires s < |pool| && i < |pool[s].forward|
    ensures |pool'| == |pool| + 1 && i < |pool'[s].forward|
    ensures pool'[s].forward[i] == if i < height && i < |update| && update[i] == s then |pool| else pool[s].forward[i]
  {
    assert SameButLinks(pool[s], pool'[s]);
  }

  /** Exactly the pointers that would jump over the new tower are redirected to it. */
  lemma {:induction false} RedirectedIff(pool: seq<SkipNode>, spine: seq<nat>, p: nat, update: seq<nat>, at: seq<nat>,
                      height: nat, q: nat, i: nat)
    requires InPool(pool, spine) && Distinct(spine) && Located(pool, spine, p, update, at, height)
    requires q < |spine| && i < |pool[spine[q]].forward| && i < height
    ensures update[i] == spine[q] <==> q <= p && Next(Heights(pool, spine), q, i) > p
  {
    var h := Heights(pool, spine);
    assert IsPred(h, p, i, at[i]);
    if q <= p && Next(h, q, i) > p {
      PredIsUnique(h, p, i, at[i], q);
    }
  }

  lemma {:induction false} SpliceKeepsLinks(pool: seq<SkipNode>, pool': seq<SkipNode>, spine: seq<nat>,
                         p: nat, update: seq<nat>, at: seq<nat>, r: Rec, height: nat)
    requires InPool(pool, spine) && Distinct(spine) && LinksOk(pool, spine)
    requires Located(pool, spine, p, update, at, height) && p < |spine|
    requires Spliced(pool, pool', update, r, height)
    ensures InPool(pool', SpineWith(spine, p, |pool|)) && LinksOk(pool', SpineWith(spine, p, |pool|))
  {
    hide LinksOk;
    hide Located;
    hide Next;
    hide SlotAt;
    var spine' := SpineWith(spine, p, |pool|);
    SpineAfterSplice(pool, pool', spine, p, update, r, height);
    forall q, i | 0 <= q < |spine'| && 0 <= i < |pool'[spine'[q]].forward|
      ensures pool'[spine'[q]].forward[i] == SlotAt(spine', Next(Heights(pool', spine'), q, i))
    {
      if q == p + 1 {
        NewNodeLinks(pool, pool', spine, p, update, at, r, height, i);
      } else {
        var o := if q <= p then q else q - 1;
        assert spine'[q] == spine[o];
        assert SameButLinks(pool[spine[o]], pool'[spine[o]]);
        OldNodeLinks(pool, pool', spine, p, update, at, r, height, o, i);
      }
    }
    LinksOkIntro(pool', spine');
  }

  lemma {:induction false} LinksOkIntro(pool: seq<SkipNode>, spine: seq<nat>)
    requires InPool(pool, spine)
    requires forall q, i :: 0 <= q < |spine| && 0 <= i < |pool[spine[q]].forward| ==>
               pool[spine[q]].forward[i] == SlotAt(spine, Next(Heights(pool, spine), q, i))
    ensures LinksOk(pool, spine)
  {
  }

  lemma {:induction false} SpliceKeepsLinked(pool: seq<SkipNode>, pool': seq<SkipNode>, spine: seq<nat>, level: nat,
                          p: nat, update: seq<nat>, at: seq<nat>, r: Rec, newLevel: nat)
    requires Linked(pool, spine, level) && Located(pool, spine, p, update, at, newLevel + 1)
    requires newLevel <= MAXLEVEL && p < |spine|
    requires Spliced(pool, pool', update, r, newLevel + 1)
    requires p > 0 ==> Lt(pool[spine[p]].key, r.key)
    requires p + 1 < |spine| ==> Lt(r.key, pool[spine[p + 1]].key)
    ensures var spine' := SpineWith(spine, p, |pool|);
            && Linked(pool', spine', if newLevel > level then newLevel else level)
            && Chain(pool', spine') == Chain(pool, spine)[..p] + [r] + Chain(pool, spine)[p..]
  {
    hide Lt;
    hide Next;
    hide LinksOk;
    hide Located;
    SpliceKeepsLinks(pool, pool', spine, p, update, at, r, newLevel + 1);
    SpineAfterSplice(pool, pool', spine, p, update, r, newLevel + 1);
    SpineWithDistinct(pool, spine, p);
    SplicedOrder(pool, pool', spine, p, update, r, newLevel + 1);
    SplicedHeights(pool, pool', spine, level, p, update, r, newLevel);
  }

  lemma {:induction false} SplicedHeights(pool: seq<SkipNode>, pool': seq<SkipNode>, spine: seq<nat>, level: nat,
                       p: nat, update: seq<nat>, r: Rec, newLevel: nat)
    requires Linked(pool, spine, level) && p < |spine|
    requires Spliced(pool, pool', update, r, newLevel + 1)
    ensures InPool(pool', SpineWith(spine, p, |pool|))
    ensures |pool'[0].forward| == MAXLEVEL + 1
    ensures forall q :: 1 <= q < |spine| + 1 ==>
      1 <= |pool'[SpineWith(spine, p, |pool|)[q]].forward| <= (if newLevel > level then newLevel else level) + 1
  {
    hide LinksOk;
    hide Lt;
    var h := Heights(pool, spine);
    SpineAfterSplice(pool, pool', spine, p, update, r, newLevel + 1);
    var h' := Heights(pool', SpineWith(spine, p, |pool|));
    assert SameButLinks(pool[0], pool'[0]);
    assert forall q :: 1 <= q < |h| ==> 1 <= h[q] <= level + 1;
    forall q | 1 <= q < |h'|
      ensures 1 <= h'[q] <= (if newLevel > level then newLevel else level) + 1
    {
    }
  }

  lemma {:induction false} SplicedOrder(pool: seq<SkipNode>, pool': seq<SkipNode>, spine: seq<nat>,
                     p: nat, update: seq<nat>, r: Rec, height: nat)
    requires InPool(pool, spine) && KeysRise(pool, spine) && p < |spine|
    requires Spliced(pool, pool', update, r, height)
    requires p > 0 ==> Lt(pool[spine[p]].key, r.key)
    requires p + 1 < |spine| ==> Lt(r.key, pool[spine[p + 1]].key)
    ensures var spine' := SpineWith(spine, p, |pool|);
            InPool(pool', spine') && KeysRise(pool', spine')
  {
    hide Lt;
    LtIsStrictTotalOrder();
    var spine' := SpineWith(spine, p, |pool|);
    forall q | 0 <= q < |spine|
      ensures spine[q] < |pool| && pool'[spine[q]].key == pool[spine[q]].key
    {
      assert SameButLinks(pool[spine[q]], pool'[spine[q]]);
    }
    forall a, b | 1 <= a < b < |spine'|
      ensures Lt(pool'[spine'[a]].key, pool'[spine'[b]].key)
    {
      if a <= p {
        assert a < p ==> Lt(pool[spine[a]].key, pool[spine[p]].key);
      }
      if b > p + 1 {
        assert b - 1 > p + 1 ==> Lt(pool[spine[p + 1]].key, pool[spine[b - 1]].key);
      }
    }
  }

  /** After a search the key can only sit in the node that follows on the bottom level. */
  lemma {:induction false} BottomNext(pool: seq<SkipNode>, spine: seq<nat>, level: nat, p: nat)
    requires Linked(pool, spine, level) && p < |spine|
    ensures Next(Heights(pool, spine), p, 0) == p + 1
  {
    hide LinksOk;
    hide KeysRise;
    var h := Heights(pool, spine);
    assert p + 1 < |h| ==> h[p + 1] > 0;
  }

  lemma {:induction false} FoundAt(pool: seq<SkipNode>, spine: seq<nat>, level: nat, p: nat, key: Key)
    requires Linked(pool, spine, level) && p < |spine|
    requires p > 0 ==> Lt(pool[spine[p]].key, key)
    requires p + 1 < |spine| ==> !Lt(pool[spine[p + 1]].key, key)
    ensures pool[spine[p]].forward[0] == SlotAt(spine, p + 1)
    ensures Lower(Chain(pool, spine), key) == p
  {
    hide Lt;
    LtIsStrictTotalOrder();
    var h := Heights(pool, spine);
    assert p + 1 < |h| ==> h[p + 1] > 0;
    assert Next(h, p, 0) == p + 1;
    var c := Chain(pool, spine);
    assert p > 0 ==> forall i :: 1 <= i < p ==> Lt(pool[spine[i]].key, pool[spine[p]].key);
    LowerIs(c, key, p);
  }

  /** What the insertion search has settled about level j: at[j] is the last tower it
      visited there, and the next one on that level does not come before the key. */
  ghost predicate Passed(pool: seq<SkipNode>, spine: seq<nat>, key: Key, p: nat,
                         update: seq<nat>, at: seq<nat>, j: nat)
    requires InPool(pool, spine)
  {
    && j < |update| && j < |at| && at[j] <= p < |spine|
    && update[j] == spine[at[j]] && j < |pool[update[j]].forward|
    && (at[j] > 0 ==> Lt(pool[spine[at[j]]].key, key))
    && var n := Next(Heights(pool, spine), at[j], j);
       n < |spine| ==> !Lt(pool[spine[n]].key, key)
  }

  /** The levels below `low` are still to be passed. */
  ghost predicate PassedFrom(pool: seq<SkipNode>, spine: seq<nat>, key: Key, p: nat,
                             update: seq<nat>, at: seq<nat>, low: nat, level: nat)
    requires InPool(pool, spine)
  {
    forall j :: low <= j <= level ==> Passed(pool, spine, key, p, update, at, j)
  }

  lemma {:induction false} PassedNone(pool: seq<SkipNode>, spine: seq<nat>, key: Key, p: nat,
                    update: seq<nat>, at: seq<nat>, level: nat)
    requires InPool(pool, spine)
    ensures PassedFrom(pool, spine, key, p, update, at, level + 1, level)
  {
  }

  /** The search leaves level i at node x and goes on below; what it settled above stays settled. */
  lemma {:induction false} PassedDown(pool: seq<SkipNode>, spine: seq<nat>, key: Key, p0: nat, update: seq<nat>,
                                      at: seq<nat>, p: nat, i: nat, level: nat)
    requires InPool(pool, spine) && p0 <= p < |spine|
    requires i < |update| == |at|
    requires PassedFrom(pool, spine, key, p0, update, at, i + 1, level)
    requires i < |pool[spine[p]].forward|
    requires p > 0 ==> Lt(pool[spine[p]].key, key)
    requires var n := Next(Heights(pool, spine), p, i); n < |spine| ==> !Lt(pool[spine[n]].key, key)
    ensures PassedFrom(pool, spine, key, p, update[i := spine[p]], at[i := p], i, level)
  {
    hide Lt;
    hide Next;
    var update', at' := update[i := spine[p]], at[i := p];
    forall j | i <= j <= level
      ensures Passed(pool, spine, key, p, update', at', j)
    {
      if i < j {
        assert Passed(pool, spine, key, p0, update, at, j);
      }
    }
  }

  /** Once the bottom level is passed, the key can only sit right behind p. */
  lemma {:induction false} FoundBehind(pool: seq<SkipNode>, spine: seq<nat>, level: nat, key: Key, p: nat,
                    update: seq<nat>, at: seq<nat>)
    requires Linked(pool, spine, level) && p < |spine|
    requires p > 0 ==> Lt(pool[spine[p]].key, key)
    requires PassedFrom(pool, spine, key, p, update, at, 0, level) && |at| > 0 && at[0] == p
    ensures spine[p] < |pool| && |pool[spine[p]].forward| > 0
    ensures pool[spine[p]].forward[0] == SlotAt(spine, p + 1)
    ensures Lower(Chain(pool, spine), key) == p
    ensures p + 1 < |spine| ==> !Lt(pool[spine[p + 1]].key, key)
  {
    hide Lt;
    var h := Heights(pool, spine);
    assert p + 1 < |h| ==> h[p + 1] > 0;
    assert Passed(pool, spine, key, p, update, at, 0);
    FoundAt(pool, spine, level, p, key);
  }

  lemma {:induction false} PassedIsPred(pool: seq<SkipNode>, spine: seq<nat>, level: nat, key: Key, p: nat,
                     update: seq<nat>, at: seq<nat>, j: nat)
    requires Linked(pool, spine, level) && p < |spine|
    requires p > 0 ==> Lt(pool[spine[p]].key, key)
    requires Passed(pool, spine, key, p, update, at, j)
    ensures IsPred(Heights(pool, spine), p, j, at[j])
  {
    hide Lt;
    hide LinksOk;
    var n := Next(Heights(pool, spine), at[j], j);
    if n <= p && n < p {
      LtTransitive(pool[spine[n]].key, pool[spine[p]].key, key);
    }
  }

  /** On the levels the new tower opens, only the header precedes it. */
  lemma {:induction false} TopIsPred(pool: seq<SkipNode>, spine: seq<nat>, level: nat, p: nat, j: nat)
    requires Linked(pool, spine, level) && p < |spine| && level < j <= MAXLEVEL
    ensures IsPred(Heights(pool, spine), p, j, 0)
  {
    hide Lt;
    hide LinksOk;
    var h := Heights(pool, spine);
    assert forall q :: 1 <= q < |h| ==> h[q] <= level + 1;
    NextIs(h, 0, j, |h|);
  }

  lemma {:induction false} LocatedByPassed(pool: seq<SkipNode>, spine: seq<nat>, level: nat, key: Key, p: nat,
                        update0: seq<nat>, at0: seq<nat>, update: seq<nat>, at: seq<nat>, newLevel: nat)
    requires Linked(pool, spine, level) && p < |spine| && newLevel <= MAXLEVEL
    requires p > 0 ==> Lt(pool[spine[p]].key, key)
    requires |update0| == |at0| == |update| == |at| == MAXLEVEL + 1
    requires PassedFrom(pool, spine, key, p, update0, at0, 0, level)
    requires forall j :: 0 <= j <= level ==> update[j] == update0[j] && at[j] == at0[j]
    requires forall j :: level < j <= newLevel ==> update[j] == at[j] == 0
    ensures Located(pool, spine, p, update, at, newLevel + 1)
  {
    hide Lt;
    hide LinksOk;
    hide Next;
    forall j | 0 <= j <= newLevel
      ensures IsPred(Heights(pool, spine), p, j, at[j]) && update[j] == spine[at[j]]
    {
      if j <= level {
        assert Passed(pool, spine, key, p, update0, at0, j);
        PassedIsPred(pool, spine, level, key, p, update0, at0, j);
      } else {
        TopIsPred(pool, spine, level, p, j);
      }
    }
  }

  lemma {:induction false} OverwriteKeepsLinked(pool: seq<SkipNode>, spine: seq<nat>, level: nat, q: nat, val: nat,
                                                opt: Opt)
    requires Linked(pool, spine, level) && 0 < q < |spine|
    ensures var x := spine[q];
            var pool' := pool[x := pool[x].(val := val, opt := opt)];
            Linked(pool', spine, level)
            && Chain(pool', spine) == Chain(pool, spine)[q - 1 := Rec(pool[x].key, val, opt)]
  {
    hide Lt;
    hide Next;
    var x := spine[q];
    var pool' := pool[x := pool[x].(val := val, opt := opt)];
    assert Heights(pool', spine) == Heights(pool, spine);
    assert Chain(pool', spine) == Chain(pool, spine)[q - 1 := Rec(pool[x].key, val, opt)];
  }

  // ---- the list ----------------------------------------------------------------------

  class Jikukan {
    var pool: seq<SkipNode>
    var count: nat
    const size: nat
    var level: nat
    ghost var spine: seq<nat>

    ghost predicate Valid()
      reads this
    {
      Linked(pool, spine, level) && count + 1 == |pool|
    }

    /** The list as a value: its records in key order. */
    ghost function Recs(): (s: seq<Rec>)
      reads this
      requires Valid()
      ensures |s| == count
    {
      Chain(pool, spine)
    }

    /** x is the node that holds record q, or the header when q is the number of records. */
    ghost predicate At(x: nat, q: nat)
      reads this
      requires Valid()
    {
      q <= count && x == SlotAt(spine, q + 1)
    }

    lemma {:induction false} NodeAt(x: nat, q: nat)
      requires Valid() && q < count && At(x, q)
      ensures 0 < x < |pool| && RecOf(pool[x]) == Recs()[q]
      ensures |pool[x].forward| > 0 && At(pool[x].forward[0], q + 1)
    {
      var h := Heights(pool, spine);
      assert q + 2 < |h| ==> h[q + 2] > 0;
      assert spine[0] != spine[q + 1];
    }

    lemma {:induction false} EndAt(x: nat, q: nat)
      requires Valid() && At(x, q)
      ensures x == 0 <==> q == count
    {
      assert q < count ==> spine[0] != spine[q + 1];
    }

    lemma {:induction false} FirstAt()
      requires Valid()
      ensures |pool| > 0 && |pool[0].forward| > 0 && At(pool[0].forward[0], 0)
    {
      var h := Heights(pool, spine);
      assert 1 < |h| ==> h[1] > 0;
    }

    lemma {:induction false} Sizes()
      requires Valid()
      ensures |spine| == |pool| == count + 1
    {
    }

    constructor (size: nat)
      ensures Valid() && Recs() == [] && this.size == size
    {
      pool := [SkipNode([], 0, ADD, seq(MAXLEVEL + 1, _ => 0))];
      spine := [0];
      count, level := 0, 0;
      this.size := size;
    }

    predicate NotFull()
      reads this
    {
      count < size
    }

    /** The node that holds `data`, or the header when there is none. */
    method Lookup(data: Key) returns (node: nat, ghost at: nat)
      requires Valid()
      ensures node == 0 <==> Find(Recs(), data) == None
      ensures node != 0 ==> node < |pool| && Find(Recs(), data) == Some(RecOf(pool[node]))
    {
      hide Lt;
      hide Lower;
      hide Strcmp;
      hide Chain;
      hide KeysRise;
      hide Next;
      var x: nat := 0;
      at := 0;
      var i: int := level;
      while i >= 0
        invariant -1 <= i <= level
        invariant at < |spine| && x == spine[at]
        invariant |pool[x].forward| > i && |pool[x].forward| > 0
        invariant at > 0 ==> Lt(pool[x].key, data)
        invariant i == -1 && at + 1 < |spine| ==> !Lt(pool[spine[at + 1]].key, data)
        decreases i
      {
        while pool[x].forward[i] != 0 && Strcmp(pool[pool[x].forward[i]].key, data) < 0
          invariant at < |spine| && x == spine[at]
          invariant |pool[x].forward| > i
          invariant at > 0 ==> Lt(pool[x].key, data)
          decreases |spine| - at
        {
          at := Next(Heights(pool, spine), at, i);
          x := pool[x].forward[i];
        }
        BottomNext(pool, spine, level, at);
        i := i - 1;
      }
      FoundAt(pool, spine, level, at, data);
      Sizes();
      x := pool[x].forward[0];
      EndAt(x, at);
      if x != 0 {
        NodeAt(x, at);
      }
      if x != 0 && Strcmp(pool[x].key, data) == 0 {
        node := x;
      } else {
        node := 0;
      }
    }
  
    /** The descent of an insertion: on every level the last node before the key. */
    method Descend(key: Key) returns (x: nat, update: seq<nat>, ghost p: nat, ghost at: seq<nat>)
      requires Valid()
      ensures p < |spine| && x == spine[p]
      ensures p > 0 ==> Lt(pool[x].key, key)
      ensures |update| == |at| == MAXLEVEL + 1 && at[0] == p
      ensures PassedFrom(pool, spine, key, p, update, at, 0, level)
    {
      hide Lt;
      hide Strcmp;
      hide Chain;
      hide KeysRise;
      hide Next;
      hide Passed;
      hide PassedFrom;
      update := seq(MAXLEVEL + 1, _ => 0);
      at := seq(MAXLEVEL + 1, _ => 0);
      x, p := 0, 0;
      var i: int := level;
      while i >= 0
        invariant -1 <= i <= level
        invariant p < |spine| && x == spine[p]
        invariant |pool[x].forward| > i && |pool[x].forward| > 0
        invariant p > 0 ==> Lt(pool[x].key, key)
        invariant |update| == |at| == MAXLEVEL + 1
        invariant i < level ==> at[i + 1] == p && PassedFrom(pool, spine, key, p, update, at, i + 1, level)
        decreases i
      {
        ghost var p0 := p;
        while pool[x].forward[i] != 0 && Strcmp(pool[pool[x].forward[i]].key, key) < 0
          invariant p0 <= p < |spine| && x == spine[p]
          invariant |pool[x].forward| > i
          invariant p > 0 ==> Lt(pool[x].key, key)
          decreases |spine| - p
        {
          p := Next(Heights(pool, spine), p, i);
          x := pool[x].forward[i];
        }
        PassedNone(pool, spine, key, p0, update, at, level);
        PassedDown(pool, spine, key, p0, update, at, p, i, level);
        update, at := update[i := x], at[i := p];
        i := i - 1;
      }
    }

    /** Insert or overwrite a record. The coin flips that choose a new node's height may fall any way. */
    method Insert(key: Key, val: nat, opt: Opt) returns (ok: bool)
      requires Valid()
      modifies this
      ensures Valid()
      ensures ok == old(NotFull())
      ensures Recs() == if ok then Upsert(old(Recs()), Rec(key, val, opt)) else old(Recs())
    {
      hide Lt;
      hide Strcmp;
      hide Linked;
      hide Chain;
      hide Lower;
      hide Passed;
      hide PassedFrom;
      hide LinksOk;
      hide Next;
      if !NotFull() {
        return false;
      }
      ghost var p, at;
      var x, update;
      x, update, p, at := Descend(key);
      FoundBehind(pool, spine, level, key, p, update, at);
      Sizes();
      x := pool[x].forward[0];
      EndAt(x, p);
      if x != 0 {
        NodeAt(x, p);
      }
      if x != 0 && Strcmp(pool[x].key, key) == 0 {
        OverwriteKeepsLinked(pool, spine, level, p + 1, val, opt);
        pool := pool[x := pool[x].(val := val, opt := opt)];
      } else {
        var newLevel: nat :| newLevel <= MAXLEVEL;
        AddNode(Rec(key, val, opt), newLevel, update, p, at);
      }
      ok := true;
    }

    /** The part of Insert that makes a new node. */
    method AddNode(r: Rec, newLevel: nat, update0: seq<nat>, ghost p: nat, ghost at0: seq<nat>)
      requires Valid() && newLevel <= MAXLEVEL
      requires p < |spine|
      requires p > 0 ==> Lt(pool[spine[p]].key, r.key)
      requires p + 1 < |spine| ==> Lt(r.key, pool[spine[p + 1]].key)
      requires |update0| == |at0| == MAXLEVEL + 1
      requires PassedFrom(pool, spine, r.key, p, update0, at0, 0, level)
      modifies this
      ensures Valid()
      ensures Recs() == old(Recs())[..p] + [r] + old(Recs())[p..]
    {
      hide Lt;
      hide Passed;
      hide PassedFrom;
      hide LinksOk;
      hide Next;
      hide Spliced;
      var update, at := update0, at0;
      if newLevel > level {
        for j := level + 1 to newLevel + 1
          invariant |update| == |at| == MAXLEVEL + 1
          invariant forall k :: 0 <= k <= level ==> update[k] == update0[k] && at[k] == at0[k]
          invariant forall k :: level < k < j ==> update[k] == at[k] == 0
        {
          update, at := update[j := 0], at[j := 0];
        }
      }
      LocatedByPassed(pool, spine, level, r.key, p, update0, at0, update, at, newLevel);
      var pool' := Splice(pool, update, r, newLevel);
      SpliceKeepsLinked(pool, pool', spine, level, p, update, at, r, newLevel);
      spine := SpineWith(spine, p, |pool|);
      pool := pool';
      level := if newLevel > level then newLevel else level;
      count := count + 1;
    }
  }
}
