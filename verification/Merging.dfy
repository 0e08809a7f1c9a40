// Laws of merging a sorted list into a sorted run and dropping its tombstones.
module Merging {
  import opened Keys
  import opened Records

  /** The run after all records of ys went in and the tombstones went out. */
  function Merged(run: seq<Rec>, ys: seq<Rec>): seq<Rec> {
    Adds(UpsertAll(run, ys))
  }

  lemma {:induction false} SortedSameElements(a: seq<Rec>, b: seq<Rec>)
    requires Sorted(a) && Sorted(b)
    requires forall x :: x in a <==> x in b
    ensures a == b
  {
    if a == [] {
      if b != [] {
        FirstIsLeast(b, a);
        assert false;
      }
    } else {
      assert a[0] in a;
      FirstIsLeast(a, b);
      assert a == [a[0]] + a[1..] && b == [b[0]] + b[1..];
      forall x ensures x in a[1..] <==> x in b[1..] {
        TailElements(a, x);
        TailElements(b, x);
      }
      SortedSameElements(a[1..], b[1..]);
    }
  }

  lemma {:induction false} FirstIsLeast(a: seq<Rec>, b: seq<Rec>)
    requires Sorted(a) && Sorted(b) && a != []
    requires forall x :: x in a <==> x in b
    ensures b != [] && a[0] == b[0]
  {
    hide Lt;
    LtIsStrictTotalOrder();
    assert a[0] in b;
    assert b[0] in a;
  }

  lemma {:induction false} TailElements(a: seq<Rec>, x: Rec)
    requires Sorted(a) && a != []
    ensures x in a[1..] <==> x in a && x != a[0]
  {
    hide Lt;
    LtIsStrictTotalOrder();
    assert a == [a[0]] + a[1..];
  }

  /** Earlier tombstones do not matter to a later merge. */
  lemma {:induction false} AddsUpsertAdds(s: seq<Rec>, r: Rec)
    requires Sorted(s)
    ensures Adds(Upsert(Adds(s), r)) == Adds(Upsert(s, r))
  {
    hide Upsert;
    hide Adds;
    AddsSorted(s);
    UpsertSorted(s, r);
    UpsertSorted(Adds(s), r);
    AddsSorted(Upsert(s, r));
    AddsSorted(Upsert(Adds(s), r));
    SortedSameElements(Adds(Upsert(Adds(s), r)), Adds(Upsert(s, r)));
  }

  lemma {:induction false} MergedOfAdds(s: seq<Rec>, ys: seq<Rec>)
    requires Sorted(s)
    ensures Merged(Adds(s), ys) == Merged(s, ys)
  {
    if ys == [] {
      AddsOfAdds(Adds(s));
    } else {
      var init, r := ys[..|ys| - 1], ys[|ys| - 1];
      AddsSorted(s);
      MergedOfAdds(s, init);
      UpsertAllSorted(s, init);
      UpsertAllSorted(Adds(s), init);
      AddsUpsertAdds(UpsertAll(s, init), r);
      AddsUpsertAdds(UpsertAll(Adds(s), init), r);
    }
  }

  /** Two merges in a row are one merge of both lists. */
  lemma {:induction false} MergedTwice(s: seq<Rec>, a: seq<Rec>, b: seq<Rec>)
    requires Sorted(s)
    ensures Merged(Merged(s, a), b) == Merged(s, a + b)
  {
    UpsertAllSorted(s, a);
    MergedOfAdds(UpsertAll(s, a), b);
    UpsertAllConcat(s, a, b);
  }

  // ---- merging touches only the stretch the keys fall into -------------------------

  lemma {:induction false} LowerLocal(pre: seq<Rec>, s: seq<Rec>, post: seq<Rec>, key: Key)
    requires AllBelow(pre, key) && AllAbove(post, key)
    ensures Lower(pre + s + post, key) == |pre| + Lower(s, key)
    ensures Lower(s, key) == |s| && post != [] ==> post[0].key != key
  {
    hide Lt;
    LtIsStrictTotalOrder();
    LowerIs(pre + s + post, key, |pre| + Lower(s, key));
  }

  lemma {:induction false} UpsertLocal(pre: seq<Rec>, s: seq<Rec>, post: seq<Rec>, r: Rec)
    requires AllBelow(pre, r.key) && AllAbove(post, r.key)
    ensures Upsert(pre + s + post, r) == pre + Upsert(s, r) + post
  {
    hide Lt;
    LowerLocal(pre, s, post, r.key);
    hide Lower;
    hide AllBelow;
    hide AllAbove;
    var p := Lower(s, r.key);
    EditInside(pre, s, post, p, r);
    if p == |s| && post != [] {
      assert (pre + s + post)[|pre| + p] == post[0];
    }
  }

  lemma {:induction false} EditInside(pre: seq<Rec>, s: seq<Rec>, post: seq<Rec>, p: nat, r: Rec)
    requires p <= |s|
    ensures (pre + s + post)[..|pre| + p] + [r] + (pre + s + post)[|pre| + p..]
         == pre + (s[..p] + [r] + s[p..]) + post
    ensures p < |s| ==> (pre + s + post)[|pre| + p] == s[p]
    ensures p < |s| ==> (pre + s + post)[|pre| + p := r] == pre + s[p := r] + post
  {
    assert (pre + s + post)[..|pre| + p] == pre + s[..p];
    assert (pre + s + post)[|pre| + p..] == s[p..] + post;
  }

  /** Every key of ys lies strictly between the runs pre and post. */
  ghost predicate Between(pre: seq<Rec>, ys: seq<Rec>, post: seq<Rec>) {
    forall i :: 0 <= i < |ys| ==> AllBelow(pre, ys[i].key) && AllAbove(post, ys[i].key)
  }

  lemma {:induction false} UpsertAllLocal(pre: seq<Rec>, s: seq<Rec>, post: seq<Rec>, ys: seq<Rec>)
    requires Between(pre, ys, post)
    ensures UpsertAll(pre + s + post, ys) == pre + UpsertAll(s, ys) + post
  {
    if ys != [] {
      var init := ys[..|ys| - 1];
      UpsertAllLocal(pre, s, post, init);
      UpsertLocal(pre, UpsertAll(s, init), post, ys[|ys| - 1]);
    }
  }

  lemma {:induction false} MergedLocal(pre: seq<Rec>, s: seq<Rec>, post: seq<Rec>, ys: seq<Rec>)
    requires Between(pre, ys, post) && AllAdds(pre) && AllAdds(post)
    ensures Merged(pre + s + post, ys) == pre + Merged(s, ys) + post
  {
    UpsertAllLocal(pre, s, post, ys);
    var u := UpsertAll(s, ys);
    AddsConcat(pre + u, post);
    AddsConcat(pre, u);
    AddsOfAdds(pre);
    AddsOfAdds(post);
  }

  lemma {:induction false} UpsertBehind(s: seq<Rec>, r: Rec)
    requires AllBelow(s, r.key)
    ensures Upsert(s, r) == s + [r]
  {
    hide Lt;
    LowerIs(s, r.key, |s|);
  }

  /** Inserting a sorted list behind a run appends it; in particular, loading a sorted file
      record by record into an empty list gives back the file. */
  lemma {:induction false} UpsertAllBehind(s: seq<Rec>, ys: seq<Rec>)
    requires Sorted(ys) && forall i :: 0 <= i < |ys| ==> AllBelow(s, ys[i].key)
    ensures UpsertAll(s, ys) == s + ys
  {
    if ys != [] {
      hide Lt;
      hide Upsert;
      var init, r := ys[..|ys| - 1], ys[|ys| - 1];
      UpsertAllBehind(s, init);
      UpsertBehind(s + init, r);
      assert ys == init + [r];
    }
  }
}
