// silopit_getoff: two binary searches that agree with the store read as one map.
module LookupLaws {
  import opened Keys
  import opened Records
  import opened Images
  import opened Metas
  import opened Stores
  import opened StoreLaws
  import opened MergeLaws
  import opened MergeTheorem

  function OffsetOf(r: Option<Rec>): nat {
    match r
    case Some(x) => x.val
    case None => 0
  }

  lemma {:induction false} SameKeySamePlace(s: seq<Rec>, key: Key, i: nat)
    requires Sorted(s) && i < |s| && s[i].key == key
    ensures Find(s, key) == Some(s[i])
  {
    FindIsMembership(s, key);
    assert s[i] in s;
  }

  /** The search over the blocks of a sorted file. */
  lemma {:induction false} OffsetInFinds(f: Image, key: Key, left: nat, right: nat)
    requires Sorted(ReadAll(f)) && left <= right <= f.footer.count
    requires forall j :: 0 <= j < left ==> Lt(ReadAll(f)[j].key, key)
    requires forall j :: right <= j < f.footer.count ==> Lt(key, ReadAll(f)[j].key)
    ensures OffsetIn(f, key, left, right) == OffsetOf(Find(ReadAll(f), key))
    decreases right - left
  {
    hide Lt;
    hide ReadRec;
    hide Find;
    LtIsStrictTotalOrder();
    var s := ReadAll(f);
    if left == right {
      NotThere(s, key);
    } else {
      var i := Mid(left, right);
      assert s[i] == ReadRec(f, i);
      var cmp := Strcmp(key, s[i].key);
      if cmp == 0 {
        SameKeySamePlace(s, key, i);
      } else if cmp < 0 {
        OffsetInFinds(f, key, left, i);
      } else {
        OffsetInFinds(f, key, i + 1, right);
      }
    }
  }

  lemma {:induction false} NotThere(s: seq<Rec>, key: Key)
    requires Sorted(s) && forall j :: 0 <= j < |s| ==> s[j].key != key
    ensures Find(s, key) == None
  {
    FindIsMembership(s, key);
  }

  /** Only the file the directory search picks can hold the key. */
  lemma {:induction false} OnlyOneFile(st: Store, key: Key)
    requires Inv(st)
    ensures var i := Search(st.dir, key);
            Find(Flat(st.dir, st.files), key) ==
            if i < |st.dir| then Find(FileRecs(st.files, st.dir[i]), key) else None
  {
    hide Inv;
    hide Flat;
    hide FileRecs;
    hide Find;
    hide Search;
    hide Lt;
    InvEnds(st);
    SearchFinds(st.dir, key);
    var i := Search(st.dir, key);
    if i < |st.dir| {
      KeyBetween(st, i, key);
      FlatAround(st.dir, i, st.files);
      FlatSorted(st);
      FileOf(st, i);
      FindInMiddle(Flat(st.dir[..i], st.files), FileRecs(st.files, st.dir[i]), Flat(st.dir[i + 1..], st.files), key);
    } else {
      FlatSorted(st);
      PastAll(st, key);
      NotThere(Flat(st.dir, st.files), key);
    }
  }

  lemma {:induction false} PastAll(st: Store, key: Key)
    requires Inv(st) && forall j :: 0 <= j < |st.dir| ==> Lt(st.dir[j].end, key)
    ensures forall j :: 0 <= j < |Flat(st.dir, st.files)| ==> Flat(st.dir, st.files)[j].key != key
  {
    hide Inv;
    hide Lt;
    var list := [Rec(key, 0, ADD)];
    FlatBelowAll(st, list);
    assert AllBelow(Flat(st.dir, st.files), list[0].key);
    LtIrreflexive(key);
  }

  lemma {:induction false} KeyBetween(st: Store, i: nat, key: Key)
    requires Inv(st) && i < |st.dir| && Le(key, st.dir[i].end)
    requires i > 0 ==> Lt(st.dir[i - 1].end, key)
    ensures AllBelow(Flat(st.dir[..i], st.files), key) && AllAbove(Flat(st.dir[i + 1..], st.files), key)
  {
    hide Inv;
    hide Lt;
    var list := [Rec(key, 0, ADD)];
    GroupBetween(st, i, list);
    assert AllBelow(Flat(st.dir[..i], st.files), list[0].key);
  }

  lemma {:induction false} FindInMiddle(pre: seq<Rec>, s: seq<Rec>, post: seq<Rec>, key: Key)
    requires Sorted(pre + s + post) && Sorted(s) && AllBelow(pre, key) && AllAbove(post, key)
    ensures Find(pre + s + post, key) == Find(s, key)
  {
    hide Lt;
    LtIrreflexive(key);
    FindIsMembership(pre + s + post, key);
    FindIsMembership(s, key);
    hide Find;
    var t := pre + s + post;
    assert forall r :: r in t <==> r in pre || r in s || r in post;
    if Find(s, key).Some? {
      assert Find(s, key).value in t;
    }
  }

  /** The offset that the two binary searches return is the one the store as a map gives the
      key, and 0 when no file has it. */
  lemma {:induction false} GetOffIsLookup(st: Store, key: Key)
    requires Inv(st)
    ensures GetOff(st, key) == OffsetOf(Find(Flat(st.dir, st.files), key))
    ensures GetOff(st, key) == (match Lookup(Contents(st), key) case Some(v) => v case None => 0)
  {
    hide Inv;
    hide Flat;
    hide Search;
    hide Lt;
    hide Find;
    hide OffsetIn;
    hide ReadAll;
    OnlyOneFile(st, key);
    var i := Search(st.dir, key);
    if i < |st.dir| {
      FileOf(st, i);
      var f := st.files[st.dir[i].name];
      OffsetInFinds(f, key, 0, f.footer.count);
    }
    FlatSorted(st);
    OverlayAt(map[], Flat(st.dir, st.files), key);
    FoundAreAdds(Flat(st.dir, st.files), key);
  }

  lemma {:induction false} FoundAreAdds(s: seq<Rec>, key: Key)
    requires AllAdds(s)
    ensures Find(s, key).Some? ==> Find(s, key).value.opt == ADD
  {
  }

  /** A lookup leaves the name of the first file whose end is not below the key, and finds nothing if that file is
      not there; behind all ends it finds nothing and leaves the name as it was. */
  lemma {:induction false} LookupLeavesName(st: Store, key: Key, i: nat)
    requires EndsRise(st.dir) && i <= |st.dir|
    requires i > 0 ==> Lt(st.dir[i - 1].end, key)
    requires i < |st.dir| ==> Le(key, st.dir[i].end)
    ensures i == |st.dir| ==> GetOff(st, key) == 0 && AfterGetOff(st, key) == st
    ensures i < |st.dir| ==>
              && AfterGetOff(st, key) == st.(name := st.dir[i].name)
              && (st.dir[i].name !in st.files ==> GetOff(st, key) == 0)
  {
    hide Lt;
    hide Search;
    hide OffsetIn;
    SearchIs(st.dir, key, i);
  }
}
