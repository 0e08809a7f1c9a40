// The exact law for every list: where its keys route to files, behind them, or both.
module AnyLists {
  import opened Keys
  import opened Records
  import opened Merging
  import opened Images
  import opened Metas
  import opened Stores
  import opened StoreLaws
  import opened FlushLaws
  import opened MergeLaws
  import opened MergeTheorem
  import opened MixedLists
  import opened RestartLaws
  import opened StaleIndex
  import opened CutLists
  import opened CutRests
  import opened LostTails
  import opened Lacking
  import opened LooseStores
  import opened Strides
  import opened Damages
  import opened StrayRests
  import opened RoutedLaws

  // ---- nothing in front of the restart ends behind the files --------------------------------------------

  /** The least key above k. */
  function JustAbove(k: Key): Key {
    k + [0]
  }

  lemma {:induction false} JustAboveIff(x: Key, k: Key)
    ensures Lt(x, JustAbove(k)) <==> Le(x, k)
  {
    var s := JustAbove(k);
    if k == [] {
      assert x != [] ==> !Lt(x, s) by {
        if x != [] && x[0] == 0 {
          assert s[1..] == [];
        }
      }
    } else if x != [] && x[0] == k[0] {
      assert s[1..] == JustAbove(k[1..]);
      JustAboveIff(x[1..], k[1..]);
      assert x == k <==> x[1..] == k[1..] by {
        assert x == [x[0]] + x[1..] && k == [k[0]] + k[1..];
      }
    }
  }

  ghost predicate EndsUpTo(dir: seq<MetaNode>, hi: Key) {
    forall j :: 0 <= j < |dir| ==> Le(dir[j].end, hi)
  }

  lemma {:induction false} BelowIsUpTo(st: Store, hi: Key)
    requires StoreBelow(st, JustAbove(hi))
    ensures EndsUpTo(st.dir, hi)
  {
    hide Lt;
    hide AllBelow;
    hide JustAbove;
    forall j | 0 <= j < |st.dir|
      ensures Le(st.dir[j].end, hi)
    {
      assert NodeBelow(st, st.dir[j], JustAbove(hi));
      JustAboveIff(st.dir[j].end, hi);
    }
  }

  lemma {:induction false} UpToIsBelow(st: Store, run: seq<Rec>, hi: Key)
    requires Loose(st) && EndsUpTo(st.dir, hi) && RunUpTo(run, hi)
    ensures StoreBelow(st, JustAbove(hi)) && AllBelow(run, JustAbove(hi))
  {
    hide Lt;
    hide FileRecs;
    hide JustAbove;
    hide Loose;
    LooseParts(st);
    LtIsStrictTotalOrder();
    forall i | 0 <= i < |st.dir|
      ensures NodeBelow(st, st.dir[i], JustAbove(hi))
    {
      FineFile(st, i);
      JustAboveIff(st.dir[i].end, hi);
      var l := FileRecs(st.files, st.dir[i]);
      forall j | 0 <= j < |l|
        ensures Lt(l[j].key, JustAbove(hi))
      {
        assert Le(l[j].key, st.dir[i].end);
        JustAboveIff(l[j].key, hi);
      }
    }
    forall j | 0 <= j < |run|
      ensures Lt(run[j].key, JustAbove(hi))
    {
      JustAboveIff(run[j].key, hi);
    }
  }

  /** The walk has come up to the restart: no file and no run reaches behind hi. */
  lemma {:induction false} RidesUpTo(st: Store, run: seq<Rec>, q: nat, b: nat, k: Key, hi: Key)
    requires Riding(st, run, q, b, k) && st.dir[|st.dir| - 1].end == hi && Le(k, hi)
    ensures Loose(st) && EndsUpTo(st.dir, hi) && RunUpTo(run, hi)
  {
    hide Lt;
    hide Loose;
    hide Sorted;
    LtIsStrictTotalOrder();
    forall j | 0 <= j < |st.dir|
      ensures Le(st.dir[j].end, hi)
    {
      assert b < j < |st.dir| - 1 ==> Lt(st.dir[j].end, st.dir[|st.dir| - 1].end);
    }
  }

  lemma {:induction false} FlushUpTo(st: Store, run: seq<Rec>, hi: Key)
    requires Loose(st) && EndsUpTo(st.dir, hi) && RunUpTo(run, hi)
    ensures st.maxCount > 0
    ensures ChunksFit(Chunks(run, st.maxCount)) && FlushMerge(st, run).Done? ==>
              EndsUpTo(FlushMerge(st, run).store.dir, hi)
  {
    hide Lt;
    hide Loose;
    hide EndsUpTo;
    hide RunUpTo;
    hide StoreBelow;
    hide AllBelow;
    hide FlushMerge;
    hide FlushNew;
    hide Chunks;
    hide ChunksFit;
    UpToIsBelow(st, run, hi);
    FlushBelow(st, run, JustAbove(hi));
    if ChunksFit(Chunks(run, st.maxCount)) && FlushMerge(st, run).Done? {
      BelowIsUpTo(FlushMerge(st, run).store, hi);
    }
  }

  // ---- the walk up to the restart ---------------------------------------------------------------------

  /** Walking on from a state with a run: first the head, and then the restart. */
  ghost predicate RestartsBehind(st: Store, run: seq<Rec>, list: seq<Rec>, h: nat, pos: nat, hi: Key)
    requires st.maxCount > 0 && pos <= h < |list|
  {
    var o := Walk(st, Some(run), list[..h], pos);
    && (o.Stopped? ==> Walk(st, Some(run), list, pos) == o)
    && (o.Done? ==>
          && o.store.maxCount > 0 && EndsUpTo(o.store.dir, hi)
          && Walk(st, Some(run), list, pos) == FlushNew(o.store, list[..|list| - h]))
  }

  lemma {:induction false} RestartsNow(st: Store, run: seq<Rec>, q: nat, b: nat, k: Key, list: seq<Rec>, h: nat,
                                       hi: Key)
    requires Riding(st, run, q, b, k) && st.dir[|st.dir| - 1].end == hi && Le(k, hi) && st.maxCount > 0
    requires h < |list| && Lt(hi, list[h].key) && WalkFits(st, Some(run), list[..h], h)
    ensures RestartsBehind(st, run, list, h, h, hi)
  {
    hide Lt;
    hide Riding;
    hide Loose;
    hide RunUpTo;
    hide Walk;
    hide WalkFits;
    hide FlushMerge;
    hide WriteNew;
    hide Chunks;
    hide ChunksFit;
    var head := list[..h];
    RidesUpTo(st, run, q, b, k, hi);
    LtIsStrictTotalOrder();
    SearchPastAll(st.dir, list[h].key, 0);
    WalkRestarts(st, Some(run), list, h);
    assert list[0..0 + (|list| - h)] == list[..|list| - h];
    WalkEndsAt(st, run, head);
    EndsFit(st, run, head);
    FlushUpTo(st, run, hi);
    LimitsStay(st, Some(run));
  }

  lemma {:induction false} HeadThenRestart(st: Store, run: seq<Rec>, q: nat, b: nat, k: Key, list: seq<Rec>, h: nat,
                                           pos: nat, hi: Key)
    requires Riding(st, run, q, b, k) && st.dir[|st.dir| - 1].end == hi && Le(k, hi) && st.maxCount > 0
    requires pos <= h < |list| && Sorted(list) && LeftUpTo(list[..h], pos, hi) && Lt(hi, list[h].key)
    requires pos < h ==> Lt(k, list[pos].key)
    requires WalkFits(st, Some(run), list[..h], pos)
    ensures RestartsBehind(st, run, list, h, pos, hi)
    decreases h - pos
  {
    hide Lt;
    hide Riding;
    hide Loose;
    hide RunUpTo;
    hide Sorted;
    hide Walk;
    hide WalkFits;
    hide FlushMerge;
    hide FlushNew;
    hide Chunks;
    hide ChunksFit;
    hide EndsUpTo;
    hide LeftUpTo;
    var head := list[..h];
    if pos == h {
      RestartsNow(st, run, q, b, k, list, h, hi);
    } else {
      FrontOf(list, h, pos);
      OneLess(head, pos, hi);
      var go, st', run', q', b' := BothStride(st, run, q, b, k, list, pos, head, pos);
      if go {
        HeadThenRestart(st', run', q', b', head[pos].key, list, h, pos + 1, hi);
      }
    }
  }

  lemma {:induction false} FrontOf(list: seq<Rec>, h: nat, pos: nat)
    requires Sorted(list) && pos < h < |list|
    ensures Sorted(list[..h]) && |list[..h]| == h && list[..h][pos] == list[pos]
    ensures pos + 1 < h ==> Lt(list[pos].key, list[pos + 1].key)
  {
    hide Lt;
    assert list == list[..h] + list[h..];
    SortedParts(list[..h], list[h..]);
  }

  lemma {:induction false} WalkKeepsSize(st: Store, merge: Option<seq<Rec>>, list: seq<Rec>, pos: nat)
    requires st.maxCount > 0 && pos <= |list|
    ensures Walk(st, merge, list, pos).Done? ==>
              && Walk(st, merge, list, pos).store.maxCount == st.maxCount
              && |Walk(st, merge, list, pos).store.dir| >= |st.dir|
    decreases |list| - pos
  {
    hide FlushOpen;
    hide Search;
    hide Load;
    hide Upsert;
    hide WriteNew;
    LimitsStay(st, merge);
    if pos < |list| {
      var i, o := Search(st.dir, list[pos].key), FlushOpen(st, merge);
      if i == |st.dir| {
        if o.Done? {
          LimitsStayNew(o.store, Chunks(list[..|list| - pos], o.store.maxCount));
        }
      } else if st.name == st.dir[i].name {
        var open := if merge.None? then Load(st, st.name) else merge;
        if open.Some? {
          WalkKeepsSize(st, Some(Upsert(open.value, list[pos])), list, pos + 1);
        }
      } else if o.Done? {
        var st' := o.store.(name := o.store.dir[i].name);
        var open := Load(st', st'.name);
        if open.Some? {
          WalkKeepsSize(st', Some(Upsert(open.value, list[pos])), list, pos + 1);
        }
      }
    }
  }

  // ---- the first stride -----------------------------------------------------------------------------------

  /** A merge opens the file of its first record. */
  lemma {:induction false} MergeOpensAt(st: Store, list: seq<Rec>, i: nat)
    requires Inv(st) && list != [] && Search(st.dir, list[0].key) == i < |st.dir|
    ensures st.maxCount > 0
    ensures var run := Upsert(FileRecs(st.files, st.dir[i]), list[0]);
            && Merge(st, list) == Walk(Renamed(st, i), Some(run), list, 1)
            && (WalkFits(st, None, list, 0) ==> WalkFits(Renamed(st, i), Some(run), list, 1))
  {
    hide Lt;
    hide Inv;
    hide FileRecs;
    hide Search;
    hide Upsert;
    hide Load;
    hide Merge;
    hide Walk;
    hide WalkFits;
    hide FitsBehind;
    InvPositive(st);
    RenamedKeeps(st, i, list[0].key);
    LoadsFile(Renamed(st, i), i);
    if st.name == st.dir[i].name {
      assert Renamed(st, i) == st;
      OpensAtHand(st, list, i);
    } else {
      FirstStride(st, list, i);
    }
  }

  lemma {:induction false} OpenedRides(st: Store, cur: Rec, i: nat)
    requires Inv(st) && Search(st.dir, cur.key) == i < |st.dir|
    ensures Riding(Renamed(st, i), Upsert(FileRecs(st.files, st.dir[i]), cur), i, i, cur.key)
    ensures Le(cur.key, LastEnd(st.dir))
  {
    hide Lt;
    hide FileRecs;
    hide Inv;
    hide Loose;
    hide Upsert;
    hide Search;
    LtIsStrictTotalOrder();
    RenamedKeeps(st, i, cur.key);
    InvIsLoose(Renamed(st, i));
    InvEnds(st);
    SearchFinds(st.dir, cur.key);
    FileOf(st, i);
    UpsertUpTo(FileRecs(st.files, st.dir[i]), cur, st.dir[i].end);
    forall j | 0 <= j < |st.dir|
      ensures j < i ==> Lt(st.dir[j].end, cur.key)
      ensures j >= i ==> Le(cur.key, st.dir[j].end)
    {
      assert i < j ==> Lt(st.dir[i].end, st.dir[j].end);
    }
    assert i < |st.dir| - 1 ==> Lt(st.dir[i].end, LastEnd(st.dir));
  }

  /** The merge of a list that reaches behind the files is the merge of the records that route to them,
      and then the restart, however often it cuts files on the way. */
  lemma {:induction false} MergeRestarts(st: Store, list: seq<Rec>)
    requires Inv(st) && Sorted(list) && list != [] && Mixed(st.dir, list)
    requires st.maxCount > 0 && WalkFits(st, None, Head(st.dir, list), 0)
    ensures var head := Head(st.dir, list);
            var o := Merge(st, head);
            && (o.Stopped? ==> Merge(st, list) == o)
            && (o.Done? ==>
                  && o.store.maxCount == st.maxCount && o.store.dir != []
                  && EndsUpTo(o.store.dir, LastEnd(st.dir))
                  && Merge(st, list) == FlushNew(o.store, Restarted(st.dir, list)))
  {
    hide Lt;
    hide FileRecs;
    hide Inv;
    hide Riding;
    hide Sorted;
    hide Mixed;
    hide Walk;
    hide WalkFits;
    hide Merge;
    hide FlushNew;
    hide Upsert;
    hide Search;
    hide UpTo;
    hide EndsUpTo;
    InvEnds(st);
    MixedHasFiles(st.dir, list);
    HeadRoutes(st.dir, list);
    var head, hi := Head(st.dir, list), LastEnd(st.dir);
    var h := |head|;
    assert head == list[..h] && head[0] == list[0];
    HeadUpTo(st.dir, head);
    RoutesLoosely(st.dir, head[0].key);
    var i := Search(st.dir, head[0].key);
    MergeOpensAt(st, head, i);
    MergeOpensAt(st, list, i);
    OpenedRides(st, head[0], i);
    var run := Upsert(FileRecs(st.files, st.dir[i]), head[0]);
    if 1 < h {
      FrontOf(list, h, 0);
    }
    HeadThenRestart(Renamed(st, i), run, i, i, head[0].key, list, h, 1, hi);
    WalkKeepsSize(Renamed(st, i), Some(run), head, 1);
  }

  lemma {:induction false} HeadUpTo(dir: seq<MetaNode>, head: seq<Rec>)
    requires AllRoute(dir, head) && head != []
    ensures dir != [] && LeftUpTo(head, 1, LastEnd(dir)) && Le(head[0].key, LastEnd(dir))
  {
    hide Lt;
  }

  // ---- a head that went wrong ---------------------------------------------------------------------------

  lemma {:induction false} KeysUpToEnd(st: Store, k: Key)
    requires Inv(st) && st.dir != [] && k in Contents(st)
    ensures Le(k, LastEnd(st.dir))
  {
    hide Lt;
    hide Inv;
    hide Flat;
    hide Overlay;
    FlatPrefix(st, |st.dir|);
    assert st.dir[..|st.dir|] == st.dir;
    FlatSorted(st);
    var flat := Flat(st.dir, st.files);
    OverlayAt(map[], flat, k);
    FindIsMembership(flat, k);
  }

  /** Neither the restart nor the records behind the files mention a key of a file that the head does not. */
  lemma {:induction false} NotBehind(dir: seq<MetaNode>, list: seq<Rec>, k: Key)
    requires EndsRise(dir) && Sorted(list) && list != [] && Mixed(dir, list) && dir != []
    requires Without(Head(dir, list), k) && Le(k, LastEnd(dir))
    ensures Without(list, k) && Without(Restarted(dir, list), k)
  {
    hide Lt;
    hide Mixed;
    LtIsStrictTotalOrder();
    HeadRoutes(dir, list);
    var h := |Head(dir, list)|;
    forall j | 0 <= j < |list|
      ensures list[j].key != k
    {
      assert j < h ==> Head(dir, list)[j] == list[j];
      assert j > h ==> Lt(list[h].key, list[j].key);
    }
  }

  lemma {:induction false} RestartLacks(st1: Store, run: seq<Rec>, k: Key)
    requires StoreWithout(st1, k) && Without(run, k) && st1.maxCount > 0 && ChunksFit(Chunks(run, st1.maxCount))
    ensures FlushNew(st1, run).Done? ==> k !in Contents(FlushNew(st1, run).store)
  {
    hide StoreWithout;
    hide Without;
    hide WriteNew;
    hide Chunks;
    hide ChunksFit;
    hide Contents;
    ChunksConserve(run, st1.maxCount);
    WriteNewWithout(st1, Chunks(run, st1.maxCount), k);
    if FlushNew(st1, run).Done? {
      NotInContents(FlushNew(st1, run).store, k);
    }
  }

  /** Where the records that route to files are merged wrong, the restart does not mend it. */
  lemma {:induction false} SpoiledHead(st: Store, list: seq<Rec>, st1: Store)
    requires Inv(st) && Sorted(list) && list != [] && Mixed(st.dir, list) && st.maxCount > 0 && st.dir != []
    requires st1.maxCount == st.maxCount && Merge(st, list) == FlushNew(st1, Restarted(st.dir, list))
    requires ChunksFit(Chunks(Restarted(st.dir, list), st.maxCount)) && Spoiled(st, Head(st.dir, list), Done(st1))
    ensures !MergesRight(st, list)
  {
    hide Lt;
    hide Inv;
    hide Sorted;
    hide Mixed;
    hide Merge;
    hide FlushNew;
    hide Restarted;
    hide Head;
    hide Chunks;
    hide ChunksFit;
    hide Disordered;
    hide StoreWithout;
    hide Without;
    hide Contents;
    hide Overlay;
    var run := Restarted(st.dir, list);
    InvEnds(st);
    if Disordered(st1) {
      RestartRun(st, list);
      FlushNewDisordered(st1, run);
      if Merge(st, list).Done? {
        DisorderedIsNotInv(Merge(st, list).store);
      }
    } else {
      var k: Key :| Missing(st, Head(st.dir, list), k, st1);
      KeysUpToEnd(st, k);
      NotBehind(st.dir, list, k);
      RestartLacks(st1, run, k);
      OverlayKeeps(Contents(st), list, k);
    }
  }

  // ---- every list -----------------------------------------------------------------------------------------

  /** What the merge writes fits the directory and the byte format. */
  ghost predicate MergeFits(st: Store, list: seq<Rec>)
    requires st.maxCount > 0
  {
    if PastEnd(st.dir, list) then HasRoom(st, list) && WritesFit(st, list)
    else if AllRoute(st.dir, list) then AllFits(st, list)
    else
      var head := Head(st.dir, list);
      && AllFits(st, head) && WalkFits(st, None, head, 0)
      && var chunks := Chunks(Restarted(st.dir, list), st.maxCount);
         && ChunksFit(chunks)
         && (Merge(st, head).Done? ==> |Merge(st, head).store.dir| + |chunks| < Merge(st, head).store.maxFiles)
  }

  /** Behind all files, every chunk keeps a record; where all keys route to files, the list is right by its
      structure; and otherwise its head is, and the restart is fine for the store that leaves. */
  ghost predicate RightAtAll(st: Store, list: seq<Rec>)
    requires st.maxCount > 0
  {
    if PastEnd(st.dir, list) then AllHaveAdds(Chunks(list, st.maxCount))
    else if AllRoute(st.dir, list) then RightList(st, list)
    else
      var head := Head(st.dir, list);
      RightList(st, head) && Merge(st, head).Done? && RestartFine(st, list, Merge(st, head).store)
  }

  lemma {:induction false} PastEndCutsNothing(st: Store, list: seq<Rec>)
    requires Inv(st) && Sorted(list) && PastEnd(st.dir, list)
    ensures OnlyLastSplits(st, list)
  {
    hide Lt;
    hide Inv;
    hide Rebuilt;
    InvEnds(st);
    LtIsStrictTotalOrder();
    forall i | 0 <= i < |st.dir|
      ensures Group(st.dir, list, i) == []
    {
      EndsRiseTo(st.dir, i, |st.dir| - 1);
      UpToIs(list, st.dir[i].end, 0);
    }
  }

  lemma {:induction false} AppendedIff(st: Store, list: seq<Rec>)
    requires Inv(st) && st.maxCount > 0 && Sorted(list) && list != [] && PastEnd(st.dir, list)
    requires HasRoom(st, list) && WritesFit(st, list)
    ensures MergesRight(st, list) <==> AllHaveAdds(Chunks(list, st.maxCount))
  {
    hide Lt;
    hide Inv;
    hide Merge;
    hide Chunks;
    hide ChunksFit;
    hide OnlyLastSplits;
    hide HasRoom;
    hide WritesFit;
    hide PastEnd;
    hide AllRoute;
    hide Sorted;
    hide AllHaveAdds;
    hide Contents;
    hide Overlay;
    hide Flat;
    hide Merged;
    PastEndCutsNothing(st, list);
    MergeCorrect(st, list);
    MergeableIsSound(st, list);
  }

  lemma {:induction false} MixedIff(st: Store, list: seq<Rec>)
    requires Inv(st) && st.maxCount > 1 && Sorted(list) && list != [] && Mixed(st.dir, list) && MergeFits(st, list)
    ensures st.dir != []
    ensures var head := Head(st.dir, list);
            MergesRight(st, list) <==>
              RightList(st, head) && Merge(st, head).Done? && RestartFine(st, list, Merge(st, head).store)
  {
    hide Lt;
    hide Inv;
    hide Sorted;
    hide Merge;
    hide FlushNew;
    hide Restarted;
    hide Head;
    hide Chunks;
    hide ChunksFit;
    hide AllRoute;
    hide PastEnd;
    hide AllFits;
    hide WalkFits;
    hide RightList;
    hide RestartFine;
    hide Spoiled;
    hide Contents;
    hide Overlay;
    InvEnds(st);
    HeadRoutes(st.dir, list);
    MergeRestarts(st, list);
    var head := Head(st.dir, list);
    RoutedRightIff(st, head);
    RightOrSpoiled(st, head);
    if Merge(st, head).Done? {
      var st1 := Merge(st, head).store;
      if MergesRight(st, head) {
        RestartRightIff(st, list, st1);
      } else {
        SpoiledHead(st, list, st1);
      }
    }
  }

  /** The exact law of the merge, for every list: it ends with the directory in order and the list overlaid
      exactly if the list is right for the store. */
  lemma {:induction false} MergesRightExactly(st: Store, list: seq<Rec>)
    requires Inv(st) && st.maxCount > 1 && Sorted(list) && list != [] && MergeFits(st, list)
    ensures MergesRight(st, list) <==> RightAtAll(st, list)
  {
    hide Lt;
    hide Inv;
    hide Sorted;
    hide Merge;
    hide MergesRight;
    hide Head;
    hide Chunks;
    hide AllRoute;
    hide AllFits;
    hide WalkFits;
    hide RightList;
    hide RestartFine;
    hide HasRoom;
    hide WritesFit;
    hide AllHaveAdds;
    if PastEnd(st.dir, list) {
      AppendedIff(st, list);
    } else if AllRoute(st.dir, list) {
      RoutedRightIff(st, list);
    } else {
      MixedIff(st, list);
    }
  }
}
