// Sorted runs of records: the value a skip list holds, the content of a file,
// and the meaning of both as a map.
module Records {
  import opened Keys

  datatype Option<+T> = None | Some(value: T)

  datatype Opt = ADD | DEL

  datatype Rec = Rec(key: Key, val: nat, opt: Opt)

  ghost predicate Sorted(s: seq<Rec>) {
    forall i, j :: 0 <= i < j < |s| ==> Lt(s[i].key, s[j].key)
  }

  ghost predicate AllAdds(s: seq<Rec>) {
    forall i :: 0 <= i < |s| ==> s[i].opt == ADD
  }

  /** Every key of s precedes k. */
  ghost predicate AllBelow(s: seq<Rec>, k: Key) {
    forall i :: 0 <= i < |s| ==> Lt(s[i].key, k)
  }

  /** Every key of s follows k. */
  ghost predicate AllAbove(s: seq<Rec>, k: Key) {
    forall i :: 0 <= i < |s| ==> Lt(k, s[i].key)
  }

  /** The first position whose key is not below `key`. */
  function Lower(s: seq<Rec>, key: Key): (p: nat)
    ensures p <= |s|
    ensures forall i :: 0 <= i < p ==> Lt(s[i].key, key)
    ensures p < |s| ==> !Lt(s[p].key, key)
  {
    if s == [] || !Lt(s[0].key, key) then 0 else 1 + Lower(s[1..], key)
  }

  function Find(s: seq<Rec>, key: Key): Option<Rec> {
    var p := Lower(s, key);
    if p < |s| && s[p].key == key then Some(s[p]) else None
  }

  /** Insert r in key order, or overwrite the record that has its key. */
  function Upsert(s: seq<Rec>, r: Rec): seq<Rec> {
    var p := Lower(s, r.key);
    if p < |s| && s[p].key == r.key then s[p := r] else s[..p] + [r] + s[p..]
  }

  function UpsertAll(s: seq<Rec>, rs: seq<Rec>): seq<Rec> {
    if rs == [] then s else Upsert(UpsertAll(s, rs[..|rs| - 1]), rs[|rs| - 1])
  }

  /** The records that survive a flush: tombstones are dropped. */
  function Adds(s: seq<Rec>): (a: seq<Rec>)
    ensures AllAdds(a) && |a| <= |s|
    ensures forall r :: r in a <==> r in s && r.opt == ADD
  {
    if s == [] then [] else
      var last := s[|s| - 1];
      var init := Adds(s[..|s| - 1]);
      assert s == s[..|s| - 1] + [last];
      if last.opt == ADD then init + [last] else init
  }

  function Apply(m: map<Key, nat>, r: Rec): map<Key, nat> {
    if r.opt == ADD then m[r.key := r.val] else m - {r.key}
  }

  /** The map m after the records of s, in order: an ADD sets, a DEL unsets. */
  function Overlay(m: map<Key, nat>, s: seq<Rec>): map<Key, nat> {
    if s == [] then m else Apply(Overlay(m, s[..|s| - 1]), s[|s| - 1])
  }

  function Lookup(m: map<Key, nat>, k: Key): Option<nat> {
    if k in m then Some(m[k]) else None
  }

  // ---- searching -------------------------------------------------------------

  /** A position with everything below on its left and nothing below from it on is Lower. */
  lemma {:induction false} LowerIs(s: seq<Rec>, key: Key, p: nat)
    requires p <= |s|
    requires forall i :: 0 <= i < p ==> Lt(s[i].key, key)
    requires p < |s| ==> !Lt(s[p].key, key)
    ensures Lower(s, key) == p
  {
  }

  /** On a sorted run, Find returns a record exactly when the run holds it. */
  lemma {:induction false} FindIsMembership(s: seq<Rec>, key: Key)
    requires Sorted(s)
    ensures forall r :: Find(s, key) == Some(r) <==> r in s && r.key == key
    ensures Find(s, key) == None <==> forall r :: r in s ==> r.key != key
  {
    hide Lt;
    LtIsStrictTotalOrder();
    var p := Lower(s, key);
    assert forall i :: p < i < |s| ==> Lt(s[p].key, s[i].key);
    assert forall i :: 0 <= i < |s| && s[i].key == key ==> i == p;
  }

  lemma {:induction false} EmptySorted()
    ensures Sorted([])
  {
  }

  lemma {:induction false} UpsertSorted(s: seq<Rec>, r: Rec)
    requires Sorted(s)
    ensures Sorted(Upsert(s, r))
    ensures |s| <= |Upsert(s, r)| <= |s| + 1
    ensures forall x :: x in Upsert(s, r) <==> x == r || (x in s && x.key != r.key)
  {
    hide Lt;
    LtIsStrictTotalOrder();
    var p := Lower(s, r.key);
    var u := Upsert(s, r);
    if p < |s| && s[p].key == r.key {
      assert u[p] == r;
      forall x | x in s && x.key != r.key
        ensures x in u
      {
        var i :| 0 <= i < |s| && s[i] == x;
        assert u[i] == x;
      }
    } else {
      assert u[p] == r;
      forall x | x in s
        ensures x in u && x.key != r.key
      {
        var i :| 0 <= i < |s| && s[i] == x;
        if i < p {
          assert u[i] == x;
        } else {
          assert u[i + 1] == x;
          assert i > p ==> Lt(s[p].key, s[i].key);
        }
      }
    }
  }

  lemma {:induction false} UpsertAllSorted(s: seq<Rec>, rs: seq<Rec>)
    requires Sorted(s)
    ensures Sorted(UpsertAll(s, rs))
    ensures |s| <= |UpsertAll(s, rs)| <= |s| + |rs|
    ensures forall x :: x in UpsertAll(s, rs) ==> x in s || x in rs
  {
    if rs != [] {
      UpsertAllSorted(s, rs[..|rs| - 1]);
      UpsertSorted(UpsertAll(s, rs[..|rs| - 1]), rs[|rs| - 1]);
    }
  }

  lemma {:induction false} UpsertAllConcat(s: seq<Rec>, a: seq<Rec>, b: seq<Rec>)
    ensures UpsertAll(s, a + b) == UpsertAll(UpsertAll(s, a), b)
  {
    if b == [] {
      assert a + b == a;
    } else {
      assert (a + b)[..|a + b| - 1] == a + b[..|b| - 1];
      UpsertAllConcat(s, a, b[..|b| - 1]);
    }
  }

  // ---- dropping tombstones -----------------------------------------------------

  lemma {:induction false} AddsConcat(a: seq<Rec>, b: seq<Rec>)
    ensures Adds(a + b) == Adds(a) + Adds(b)
  {
    if b == [] {
      assert a + b == a;
    } else {
      assert (a + b)[..|a + b| - 1] == a + b[..|b| - 1];
      AddsConcat(a, b[..|b| - 1]);
    }
  }

  lemma {:induction false} AddsOfAdds(s: seq<Rec>)
    requires AllAdds(s)
    ensures Adds(s) == s
  {
    if s != [] {
      AddsOfAdds(s[..|s| - 1]);
      assert s == s[..|s| - 1] + [s[|s| - 1]];
    }
  }

  lemma {:induction false} AddsSorted(s: seq<Rec>)
    requires Sorted(s)
    ensures Sorted(Adds(s))
  {
    if s != [] {
      AddsSorted(s[..|s| - 1]);
    }
  }

  // ---- meaning -----------------------------------------------------------------

  lemma {:induction false} FindInLast(init: seq<Rec>, last: Rec, k: Key)
    requires Sorted(init + [last])
    ensures Sorted(init)
    ensures Find(init + [last], k) == if last.key == k then Some(last) else Find(init, k)
  {
    hide Lt;
    hide Find;
    var s := init + [last];
    assert forall j :: 0 <= j < |init| ==> s[j] == init[j];
    FindIsMembership(s, k);
    FindIsMembership(init, k);
    assert s[|init|] == last;
    assert forall r :: r in s <==> r in init || r == last;
    if last.key != k && Find(init, k).Some? {
      assert Find(init, k).value in s;
    }
  }

  /** A sorted run overlays a map key by key: its own record decides, else the map does. */
  lemma {:induction false} OverlayAt(m: map<Key, nat>, s: seq<Rec>, k: Key)
    requires Sorted(s)
    ensures Lookup(Overlay(m, s), k) ==
            (match Find(s, k)
             case Some(r) => if r.opt == ADD then Some(r.val) else None
             case None => Lookup(m, k))
  {
    hide Lt;
    if s == [] {
      assert Find(s, k) == None;
    } else {
      hide Find;
      hide Sorted;
      var init, last := s[..|s| - 1], s[|s| - 1];
      assert s == init + [last];
      FindInLast(init, last, k);
      OverlayAt(m, init, k);
    }
  }

  /** Inserting into a sorted run applies the record to the run's meaning. */
  lemma {:induction false} OverlayUpsert(m: map<Key, nat>, s: seq<Rec>, r: Rec)
    requires Sorted(s)
    ensures Overlay(m, Upsert(s, r)) == Apply(Overlay(m, s), r)
  {
    hide Lt;
    hide Upsert;
    hide Sorted;
    hide Overlay;
    hide Find;
    UpsertSorted(s, r);
    var u := Upsert(s, r);
    forall k: Key
      ensures Lookup(Overlay(m, u), k) == Lookup(Apply(Overlay(m, s), r), k)
    {
      OverlayAt(m, u, k);
      OverlayAt(m, s, k);
      FindIsMembership(u, k);
      FindIsMembership(s, k);
    }
    SameLookups(Overlay(m, u), Apply(Overlay(m, s), r));
  }

  lemma {:induction false} SameLookups(a: map<Key, nat>, b: map<Key, nat>)
    requires forall k: Key :: Lookup(a, k) == Lookup(b, k)
    ensures a == b
  {
    forall k: Key ensures k in a <==> k in b { assert Lookup(a, k) == Lookup(b, k); }
    forall k | k in a ensures a[k] == b[k] { assert Lookup(a, k) == Lookup(b, k); }
  }

  lemma {:induction false} OverlayUpsertAll(m: map<Key, nat>, s: seq<Rec>, rs: seq<Rec>)
    requires Sorted(s)
    ensures Overlay(m, UpsertAll(s, rs)) == Overlay(Overlay(m, s), rs)
  {
    if rs != [] {
      var init := rs[..|rs| - 1];
      OverlayUpsertAll(m, s, init);
      UpsertAllSorted(s, init);
      OverlayUpsert(m, UpsertAll(s, init), rs[|rs| - 1]);
    }
  }

  /** Over an empty map a tombstone means nothing, so a flush may drop it. */
  lemma {:induction false} AddsKeepMeaning(s: seq<Rec>)
    requires Sorted(s)
    ensures Overlay(map[], Adds(s)) == Overlay(map[], s)
  {
    AddsSorted(s);
    forall k: Key
      ensures Lookup(Overlay(map[], Adds(s)), k) == Lookup(Overlay(map[], s), k)
    {
      OverlayAt(map[], s, k);
      OverlayAt(map[], Adds(s), k);
      FindIsMembership(s, k);
      FindIsMembership(Adds(s), k);
    }
    SameLookups(Overlay(map[], Adds(s)), Overlay(map[], s));
  }

  lemma {:induction false} OverlayConcat(m: map<Key, nat>, a: seq<Rec>, b: seq<Rec>)
    ensures Overlay(m, a + b) == Overlay(Overlay(m, a), b)
  {
    hide Apply;
    if b == [] {
      assert a + b == a;
    } else {
      assert (a + b)[..|a + b| - 1] == a + b[..|b| - 1];
      OverlayConcat(m, a, b[..|b| - 1]);
    }
  }

  /** Over a map without its keys, a sorted run may lose its tombstones, and a tail exactly if that
      tail is all tombstones. */
  lemma {:induction false} TailIsLostIff(m: map<Key, nat>, b: seq<Rec>, l: seq<Rec>)
    requires Sorted(b + l) && forall r :: r in b + l ==> r.key !in m
    ensures Overlay(m, Adds(b)) == Overlay(m, b + l) <==> Adds(l) == []
  {
    hide Lt;
    hide Adds;
    hide Overlay;
    var x := b + l;
    PrefixSorted(b, l);
    AddsSorted(b);
    if Adds(l) == [] {
      forall k: Key
        ensures Lookup(Overlay(m, Adds(b)), k) == Lookup(Overlay(m, x), k)
      {
        OverlayAt(m, x, k);
        OverlayAt(m, Adds(b), k);
        FindIsMembership(x, k);
        FindIsMembership(Adds(b), k);
        UniqueAt(b, l, k);
      }
      SameLookups(Overlay(m, Adds(b)), Overlay(m, x));
    } else {
      var r := Adds(l)[0];
      assert r in Adds(l) && r in x;
      OverlayAt(m, x, r.key);
      OverlayAt(m, Adds(b), r.key);
      FindIsMembership(x, r.key);
      FindIsMembership(Adds(b), r.key);
      UniqueAt(b, l, r.key);
    }
  }

  lemma {:induction false} PrefixSorted(b: seq<Rec>, l: seq<Rec>)
    requires Sorted(b + l)
    ensures Sorted(b)
  {
    hide Lt;
    assert forall j :: 0 <= j < |b| ==> (b + l)[j] == b[j];
  }

  /** A key of a sorted run stands at one place only. */
  lemma {:induction false} UniqueAt(b: seq<Rec>, l: seq<Rec>, k: Key)
    requires Sorted(b + l)
    ensures forall r, s :: r in b + l && s in b + l && r.key == k && s.key == k ==> r == s
    ensures forall r, s :: r in b && s in l ==> r.key != s.key
  {
    hide Lt;
    LtIrreflexive(k);
    var x := b + l;
    forall r, s | r in b && s in l
      ensures r.key != s.key
    {
      var i :| 0 <= i < |b| && b[i] == r;
      var j :| 0 <= j < |l| && l[j] == s;
      assert x[i] == r && x[|b| + j] == s;
      LtIrreflexive(r.key);
    }
  }
}
