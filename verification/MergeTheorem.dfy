// What silopit_merge does to the store as a map, and exactly when it does it right.
module MergeTheorem {
  import opened Keys
  import opened Records
  import opened Merging
  import opened Images
  import opened Metas
  import opened Stores
  import opened StoreLaws
  import opened FlushLaws
  import opened MergeLaws

  /** All files, read as one map from keys to value offsets. */
  ghost function Contents(st: Store): map<Key, nat> {
    Overlay(map[], Flat(st.dir, st.files))
  }

  /** Lists whose keys route uniformly, and whose merge splits at most the last file it touches. */
  ghost predicate Mergeable(st: Store, list: seq<Rec>) {
    && Inv(st) && list != [] && Sorted(list)
    && (AllRoute(st.dir, list) || PastEnd(st.dir, list))
    && OnlyLastSplits(st, list) && HasRoom(st, list) && WritesFit(st, list)
  }

  lemma {:induction false} NotBoth(dir: seq<MetaNode>, list: seq<Rec>)
    requires list != [] && AllRoute(dir, list)
    ensures !PastEnd(dir, list)
  {
    hide Lt;
    LtIsStrictTotalOrder();
    assert Le(list[0].key, dir[|dir| - 1].end);
  }

  // ---- the walk from its first record -------------------------------------------------------

  lemma {:induction false} FirstGroup(dir: seq<MetaNode>, list: seq<Rec>)
    requires EndsRise(dir) && Sorted(list) && list != [] && AllRoute(dir, list)
    ensures var t := Search(dir, list[0].key);
            && t < |dir| && GroupStart(dir, list, t) == 0 && 0 < GroupEnd(dir, list, t)
            && forall j :: 0 <= j < t ==> Group(dir, list, j) == []
  {
    hide Lt;
    hide Search;
    LtIsStrictTotalOrder();
    SearchFinds(dir, list[0].key);
    var t := Search(dir, list[0].key);
    forall j | 0 <= j < t
      ensures UpTo(list, dir[j].end) == 0
    {
      UpToIs(list, dir[j].end, 0);
    }
    assert Le(list[0].key, dir[|dir| - 1].end);
  }

  lemma {:induction false} WalkBegins(st: Store, list: seq<Rec>, t: nat)
    requires Inv(st) && list != [] && t == Search(st.dir, list[0].key) < |st.dir|
    ensures st.maxCount > 0
    ensures var st' := st.(name := st.dir[t].name);
            Walk(st, None, list, 0) == Walk(st', Some(Collected(st', list, t, 0, 1)), list, 1)
  {
    hide Inv;
    hide Search;
    hide Load;
    hide FileRecs;
    hide Upsert;
    hide Collected;
    hide Walk;
    InvPositive(st);
    var st' := st.(name := st.dir[t].name);
    InvIgnoresRest(st, st.(name := st.dir[t].name));
    LoadsFile(st', t);
    CollectFirst(st', list, t, 0);
    WalkOpensFirst(st, list, t);
  }

  lemma {:induction false} WalkOpensFirst(st: Store, list: seq<Rec>, t: nat)
    requires st.maxCount > 0 && list != [] && t == Search(st.dir, list[0].key) < |st.dir|
    requires var st' := st.(name := st.dir[t].name); Load(st', st'.name).Some?
    ensures var st' := st.(name := st.dir[t].name);
            Walk(st, None, list, 0) == Walk(st', Some(Upsert(Load(st', st'.name).value, list[0])), list, 1)
  {
    hide Search;
    hide Upsert;
    hide Load;
    LimitsStay(st, None);
    LoadIgnoresName(st, st.dir[t].name);
    if st.name == st.dir[t].name {
      assert st.(name := st.dir[t].name) == st;
    }
  }

  lemma {:induction false} LoadIgnoresName(st: Store, name: Name)
    ensures Load(st.(name := name), name) == Load(st, name)
  {
  }

  lemma {:induction false} FirstProgress(st: Store, list: seq<Rec>, t: nat)
    requires Inv(st) && t < |st.dir| && list != []
    requires GroupStart(st.dir, list, t) == 0 && 0 < GroupEnd(st.dir, list, t)
    ensures Progress(st, st.(name := st.dir[t].name), list, t, 0, 1)
  {
    hide FileRecs;
    hide Flat;
    hide UpTo;
    hide Inv;
    hide Merged;
    InvEnds(st);
    InvIgnoresRest(st, st.(name := st.dir[t].name));
    FlatOfAdds(st);
    assert list[..0] == [];
  }

  lemma {:induction false} FlatOfAdds(st: Store)
    ensures Merged(Flat(st.dir, st.files), []) == Flat(st.dir, st.files)
  {
    hide Flat;
    AddsOfAdds(Flat(st.dir, st.files));
  }

  lemma {:induction false} RoutedMerge(st: Store, list: seq<Rec>)
    requires Mergeable(st, list) && AllRoute(st.dir, list)
    ensures st.maxCount > 0
    ensures Merge(st, list).Done? <==> EveryChunkHasAdds(st, list)
    ensures MergedInto(st, Merge(st, list), list)
  {
    hide Walk;
    hide Search;
    hide MergedInto;
    hide Chunks;
    hide AllHaveAdds;
    hide Rebuilt;
    InvEnds(st);
    NotBoth(st.dir, list);
    FirstGroup(st.dir, list);
    var t := Search(st.dir, list[0].key);
    hide Group;
    FirstProgress(st, list, t);
    WalkBegins(st, list, t);
    hide Inv;
    hide Sorted;
    hide Fit;
    hide EndsRise;
    assert Walkable(st, list);
    WalkCorrect(st, st.(name := st.dir[t].name), list, t, 0, 1);
  }

  // ---- a list with a routed head ---------------------------------------------------------------

  lemma {:induction false} WalkableMergeable(st: Store, list: seq<Rec>)
    requires Walkable(st, list) && list != []
    ensures Mergeable(st, list)
  {
    hide Inv;
    hide Sorted;
    hide Group;
    hide Rebuilt;
    hide Chunks;
    hide ChunksFit;
    hide OnlyLastSplits;
    NotBoth(st.dir, list);
  }

  lemma {:induction false} NothingDoneYet(st: Store, head: seq<Rec>, t: nat)
    requires t < |st.dir| && forall j :: 0 <= j < t ==> Group(st.dir, head, j) == []
    ensures EndsDone(st, st.(name := st.dir[t].name), head, t)
  {
    hide Group;
    hide Rebuilt;
  }

  /** The merge of a longer list reaches the end of its routed head like the merge of the head. */
  lemma {:induction false} MergeReaches(st: Store, head: seq<Rec>, list: seq<Rec>)
    returns (stops: bool, stE: Store, i: nat, g: nat)
    requires Walkable(st, head) && head != [] && head <= list
    ensures st.maxCount > 0
    ensures stops ==> Merge(st, head).Stopped? && Merge(st, list) == Merge(st, head)
    ensures !stops ==>
              && Progress(st, stE, head, i, g, |head|) && stE.maxCount > 0 && EndsDone(st, stE, head, i)
              && var run := Collected(stE, head, i, g, |head|);
                 && Merge(st, head) == FlushMerge(stE, run)
                 && Merge(st, list) == Walk(stE, Some(run), list, |head|)
  {
    hide Walk;
    hide Search;
    hide Inv;
    hide Progress;
    hide EndsDone;
    hide FlushMerge;
    hide Chunks;
    hide ChunksFit;
    hide Rebuilt;
    hide Group;
    hide UpTo;
    hide Collected;
    InvEnds(st);
    FirstGroup(st.dir, head);
    var t := Search(st.dir, head[0].key);
    FirstProgress(st, head, t);
    WalkBegins(st, head, t);
    WalkBegins(st, list, t);
    NothingDoneYet(st, head, t);
    var st' := st.(name := st.dir[t].name);
    FirstCollected(st', head, list, t);
    stops, stE, i, g := ReachEnd(st, st', head, list, t, 0, 1);
  }

  lemma {:induction false} FirstCollected(st: Store, head: seq<Rec>, list: seq<Rec>, t: nat)
    requires t < |st.dir| && head != [] && head <= list
    ensures Collected(st, head, t, 0, 1) == Collected(st, list, t, 0, 1)
  {
    hide FileRecs;
    assert head[0..1] == list[0..1];
  }

  // ---- a list behind every file -----------------------------------------------------------------

  lemma {:induction false} WalkFallsThrough(st: Store, list: seq<Rec>)
    requires st.maxCount > 0 && list != [] && PastEnd(st.dir, list) && EndsRise(st.dir)
    ensures Merge(st, list) == FlushNew(st, list)
  {
    hide Lt;
    hide FlushNew;
    if st.dir != [] {
      var key := list[0].key;
      forall j | 0 <= j < |st.dir|
        ensures Lt(st.dir[j].end, key)
      {
        if j < |st.dir| - 1 {
          LtTransitive(st.dir[j].end, st.dir[|st.dir| - 1].end, key);
        }
      }
      SearchPastAll(st.dir, key, 0);
      assert list[..|list| - 0] == list;
    }
  }

  lemma {:induction false} AppendedMerge(st: Store, list: seq<Rec>)
    requires Mergeable(st, list) && PastEnd(st.dir, list)
    ensures st.maxCount > 0
    ensures Merge(st, list).Done? <==> EveryChunkHasAdds(st, list)
    ensures MergedInto(st, Merge(st, list), list)
  {
    hide Lt;
    hide FlushNew;
    hide Chunks;
    hide AllHaveAdds;
    hide Merge;
    InvEnds(st);
    WalkFallsThrough(st, list);
    FlushNewCorrect(st, list);
    FlatBelowAll(st, list);
    UpsertAllBehind(Flat(st.dir, st.files), list);
    AddsConcat(Flat(st.dir, st.files), list);
    AddsOfAdds(Flat(st.dir, st.files));
  }

  lemma {:induction false} FlatBelowAll(st: Store, list: seq<Rec>)
    requires Inv(st) && PastEnd(st.dir, list)
    ensures forall i :: 0 <= i < |list| ==> AllBelow(Flat(st.dir, st.files), list[i].key)
  {
    hide Lt;
    hide Inv;
    hide Flat;
    LtIsStrictTotalOrder();
    FlatPrefix(st, |st.dir|);
    assert st.dir[..|st.dir|] == st.dir;
    var flat := Flat(st.dir, st.files);
    if st.dir == [] {
      FlatEmpty(st.files);
    } else {
      forall i, j | 0 <= i < |list| && 0 <= j < |flat|
        ensures Lt(flat[j].key, list[i].key)
      {
        assert flat[j] in flat;
      }
    }
  }

  // ---- the theorem ----------------------------------------------------------------------------------

  /** A merge stops the process exactly when some chunk it would write holds tombstones only.
      Otherwise the invariant holds again, and the store read as one sorted run is the old one
      with the whole list merged in. */
  lemma {:induction false} MergeCorrect(st: Store, list: seq<Rec>)
    requires Mergeable(st, list)
    ensures st.maxCount > 0
    ensures Merge(st, list).Done? <==> EveryChunkHasAdds(st, list)
    ensures MergedInto(st, Merge(st, list), list)
  {
    if AllRoute(st.dir, list) {
      RoutedMerge(st, list);
    } else {
      AppendedMerge(st, list);
    }
  }

  /** A store that reads as the old one with the list merged in is, as a map, the old one overlaid. */
  lemma {:induction false} MergedOverlays(st: Store, st': Store, list: seq<Rec>)
    requires Inv(st) && Flat(st'.dir, st'.files) == Merged(Flat(st.dir, st.files), list)
    ensures Contents(st') == Overlay(Contents(st), list)
  {
    hide Flat;
    hide Inv;
    hide Overlay;
    FlatSorted(st);
    var flat := Flat(st.dir, st.files);
    UpsertAllSorted(flat, list);
    AddsKeepMeaning(UpsertAll(flat, list));
    OverlayUpsertAll(map[], flat, list);
  }

  /** As a map: ADD records override, tombstones remove, although no tombstone is stored. */
  lemma {:induction false} MergeOverlays(st: Store, list: seq<Rec>)
    requires Mergeable(st, list)
    ensures st.maxCount > 0
    ensures Merge(st, list).Done? ==> Contents(Merge(st, list).store) == Overlay(Contents(st), list)
  {
    hide Flat;
    hide Merge;
    hide Overlay;
    hide Contents;
    MergeCorrect(st, list);
    if Merge(st, list).Done? {
      MergedOverlays(st, Merge(st, list).store, list);
    }
  }

  /** The merge does what it is for: it ends, the directory is in order, and the store is the old one
      overlaid with the list. */
  ghost predicate MergesRight(st: Store, list: seq<Rec>)
    requires st.maxCount > 0
  {
    && Merge(st, list).Done? && Inv(Merge(st, list).store)
    && Contents(Merge(st, list).store) == Overlay(Contents(st), list)
  }

  /** The merge stops the process, or it is right. */
  ghost predicate SoundMerge(st: Store, list: seq<Rec>)
    requires st.maxCount > 0
  {
    Merge(st, list).Done? ==> MergesRight(st, list)
  }

  /** Lists that route uniformly and cut at most the last file they touch merge soundly. */
  lemma {:induction false} MergeableIsSound(st: Store, list: seq<Rec>)
    requires Mergeable(st, list)
    ensures st.maxCount > 0 && SoundMerge(st, list)
  {
    hide Merge;
    hide Contents;
    hide Overlay;
    hide Inv;
    hide Flat;
    hide Merged;
    MergeCorrect(st, list);
    MergeOverlays(st, list);
  }
}
