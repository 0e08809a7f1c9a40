// The exact law for every list whose keys route to files, however often its merge cuts them.
module RoutedLaws {
  import opened Keys
  import opened Records
  import opened Merging
  import opened Images
  import opened Metas
  import opened Stores
  import opened StoreLaws
  import opened FlushLaws
  import opened MergeLaws
  import opened MergeTheorem
  import opened MixedLists
  import opened RestartLaws
  import opened StaleIndex
  import opened CutLists
  import opened CutRests
  import opened LostTails
  import opened Lacking
  import opened LooseStores
  import opened Strides
  import opened Damages
  import opened Astrays
  import opened StrayRests

  // ---- a stray record that fits ----------------------------------------------------------------------

  lemma {:induction false} SameFlush(s: Store, t: nat, run: seq<Rec>, key: Key)
    requires t < |s.dir| && NamesOk(s.dir) && s.name == s.dir[t].name && s.dir[t].name in s.files
    requires run != [] && s.maxCount > 0
    ensures Stretched(s, t, key).maxCount == s.maxCount
    ensures FlushMerge(Stretched(s, t, key), run) == FlushMerge(s, run)
  {
    hide Chunks;
    hide Adds;
    hide FlushMerge;
    hide Overwritten;
    hide WriteNew;
    hide NumberedBelow;
    var s2 := Stretched(s, t, key);
    assert forall i :: 0 <= i < |s.dir| ==> s2.dir[i].name == s.dir[i].name;
    ChunksConserve(run, s.maxCount);
    var c := Chunks(run, s.maxCount);
    FlushMergeUnfolds(s, run);
    FlushMergeUnfolds(s2, run);
    if Adds(c[0]) != [] {
      WriteOverIs(s, t, c[0]);
      WriteOverIs(s2, t, c[0]);
      SameOverwritten(s, t, c[0], key);
    }
  }

  lemma {:induction false} FitsNext(s: Store, t: nat, cur: Rec, p: nat)
    requires Astray(s, t, cur, p) && FitsBehind(s, t, cur.key)
    ensures p == t + 1 && s.dir[t].name in s.files
    ensures var s2 := Stretched(s, t, cur.key);
            && Inv(s2) && s2.maxCount == s.maxCount && s2.name == s.name == s2.dir[t].name && |s2.dir| == |s.dir|
            && FileRecs(s2.files, s2.dir[t]) == FileRecs(s.files, s.dir[t]) && s2.dir[t].end == cur.key
            && (forall j :: 0 <= j < |s.dir| && j != t ==> s2.dir[j] == s.dir[j])
            && SplitAt(s2.dir, t, cur.key) && Contents(s2) == Contents(s)
  {
    hide Lt;
    hide Inv;
    hide FileRecs;
    hide Flat;
    hide AllAbove;
    LtIsStrictTotalOrder();
    StretchedInv(s, t, cur.key);
    var s2 := Stretched(s, t, cur.key);
    InvEnds(s2);
    forall j | 0 <= j < |s2.dir|
      ensures j < t ==> Lt(s2.dir[j].end, cur.key)
      ensures j >= t ==> Le(cur.key, s2.dir[j].end)
    {
      assert j > t ==> Lt(s2.dir[t].end, s2.dir[j].end);
    }
  }

  lemma {:induction false} StretchedRides(s: Store, t: nat, cur: Rec, p: nat)
    requires Astray(s, t, cur, p) && FitsBehind(s, t, cur.key)
    ensures s.dir[t].name in s.files
    ensures Riding(Stretched(s, t, cur.key), StrayRun(s, t, cur), t, t, cur.key)
  {
    hide Lt;
    hide FileRecs;
    hide Inv;
    hide Loose;
    hide Adds;
    hide Upsert;
    hide Astray;
    hide Stretched;
    hide FitsBehind;
    hide RunUpTo;
    hide Contents;
    AstrayPlace(s, t, cur, p);
    StrayParts(s, t, cur, p);
    FitsNext(s, t, cur, p);
    InvIsLoose(Stretched(s, t, cur.key));
    InvEnds(Stretched(s, t, cur.key));
  }

  /** A merge whose first record routes to the file at hand. */
  lemma {:induction false} OpensAtHand(st: Store, list: seq<Rec>, i: nat)
    requires st.maxCount > 0 && list != [] && Search(st.dir, list[0].key) == i < |st.dir|
    requires st.name == st.dir[i].name && Load(st, st.name).Some?
    ensures var run := Upsert(Load(st, st.name).value, list[0]);
            && Merge(st, list) == Walk(st, Some(run), list, 1)
            && (WalkFits(st, None, list, 0) ==> WalkFits(st, Some(run), list, 1))
  {
    hide Search;
    hide Upsert;
    hide Load;
    LimitsStay(st, None);
  }

  /** Before the flush the two stores differ in the end of file t only, and the flush sets it. */
  lemma {:induction false} WalkAlike(s: Store, t: nat, cur: Rec, p: nat, rest: seq<Rec>)
    requires Astray(s, t, cur, p) && FitsBehind(s, t, cur.key) && s.maxCount > 0 && Follows(s.dir, cur, rest)
    ensures s.dir[t].name in s.files && Stretched(s, t, cur.key).maxCount > 0
    ensures var s2, run := Stretched(s, t, cur.key), StrayRun(s, t, cur);
            && Walk(s2, Some(run), rest, 0) == Walk(s, Some(run), rest, 0)
            && (WalkFits(s, Some(run), rest, 0) ==> WalkFits(s2, Some(run), rest, 0))
  {
    hide Lt;
    hide FileRecs;
    hide Inv;
    hide Astray;
    hide Stretched;
    hide FitsBehind;
    hide Follows;
    hide Contents;
    hide FlushMerge;
    hide Chunks;
    hide ChunksFit;
    hide Search;
    hide SplitAt;
    hide Load;
    hide Upsert;
    AstrayPlace(s, t, cur, p);
    FitsNext(s, t, cur, p);
    FollowsParts(s.dir, cur, rest);
    InvNames(s);
    var s2, run := Stretched(s, t, cur.key), StrayRun(s, t, cur);
    SameFlush(s, t, run, cur.key);
    if rest != [] {
      NextAstray(s, t, cur, p, rest[0].key);
      SameNext(s.dir, s2.dir, t, rest[0].key, Search(s.dir, rest[0].key), cur.key);
      LimitsStay(s, Some(run));
      LimitsStay(s2, Some(run));
    }
  }

  lemma {:induction false} SameNext(a: seq<MetaNode>, b: seq<MetaNode>, t: nat, key: Key, i: nat, k: Key)
    requires EndsRise(a) && t < i < |a| == |b| && SplitAt(a, i, key) && Lt(k, key) && b[t].end == k
    requires forall j :: 0 <= j < |a| && j != t ==> b[j] == a[j]
    ensures Search(b, key) == i
  {
    hide Lt;
    hide Search;
    SearchSplits(b, key, i);
  }

  /** Where the stray record fits, the merge goes on as if its file had ended there all the time. */
  lemma {:induction false} StrayFitsIn(s: Store, t: nat, cur: Rec, p: nat, rest: seq<Rec>)
    requires Astray(s, t, cur, p) && FitsBehind(s, t, cur.key) && s.maxCount > 0 && Follows(s.dir, cur, rest)
    requires WalkFits(s, Some(StrayRun(s, t, cur)), rest, 0)
    ensures s.dir[t].name in s.files && Stretched(s, t, cur.key).maxCount > 0
    ensures Walk(s, Some(StrayRun(s, t, cur)), rest, 0) == Merge(Stretched(s, t, cur.key), [cur] + rest)
  {
    hide Lt;
    hide FileRecs;
    hide Inv;
    hide Astray;
    hide Stretched;
    hide FitsBehind;
    hide Follows;
    hide Contents;
    hide Walk;
    hide WalkFits;
    hide Merge;
    hide Load;
    hide Search;
    hide Upsert;
    hide Riding;
    hide LeftBehind;
    hide LeftUpTo;
    hide TailOf;
    hide Adds;
    AstrayPlace(s, t, cur, p);
    StrayParts(s, t, cur, p);
    FitsNext(s, t, cur, p);
    FollowsParts(s.dir, cur, rest);
    WalkAlike(s, t, cur, p, rest);
    StretchedRides(s, t, cur, p);
    var s2, run, list := Stretched(s, t, cur.key), StrayRun(s, t, cur), [cur] + rest;
    InvEnds(s2);
    SearchSplits(s2.dir, cur.key, t);
    LoadsFile(s2, t);
    OpensAtHand(s2, list, t);
    BehindFront([cur], rest);
    WalkForgets(s2, run, t, t, cur.key, list, 1, rest, 0, LastEnd(s.dir));
  }

  /** The walk behind a stray record ends right exactly if the record fits, and then the merge does that
      goes on as if its file had ended there all the time. */
  lemma {:induction false} StrayIff(s: Store, t: nat, cur: Rec, p: nat, rest: seq<Rec>)
    requires Astray(s, t, cur, p) && s.maxCount > 1 && StrayFits(s, t, cur)
    requires Follows(s.dir, cur, rest) && WalkFits(s, Some(StrayRun(s, t, cur)), rest, 0)
    ensures EndsRight(s, [cur] + rest, Walk(s, Some(StrayRun(s, t, cur)), rest, 0)) <==>
              && FitsBehind(s, t, cur.key) && s.dir[t].name in s.files
              && MergesRight(Stretched(s, t, cur.key), [cur] + rest)
  {
    hide Lt;
    hide FileRecs;
    hide Inv;
    hide Merge;
    hide Walk;
    hide WalkFits;
    hide Astray;
    hide StrayFits;
    hide StrayRun;
    hide FitsBehind;
    hide Follows;
    hide Contents;
    hide Overlay;
    hide Stretched;
    AstrayPlace(s, t, cur, p);
    if FitsBehind(s, t, cur.key) {
      FitsNext(s, t, cur, p);
      StrayFitsIn(s, t, cur, p, rest);
    } else {
      StrayNeverRight(s, t, cur, p, rest);
    }
  }

  // ---- one cut ------------------------------------------------------------------------------------------

  /** The store to go on with behind a cut: that of the merge of the head, with the file at the old place
      ending at the stray key. */
  ghost function Onward(s: Store, t: nat, cur: Rec): Store
    requires t < |s.dir| && s.dir[t].name in s.files
  {
    Stretched(Renamed(s, t), t, cur.key)
  }

  /** What the walk writes from the stray record on fits the directory and the byte format. */
  ghost predicate OnwardFits(s: Store, t: nat, cur: Rec, rest: seq<Rec>) {
    t < |s.dir| && s.maxCount > 0 ==>
      StrayFits(Renamed(s, t), t, cur) && WalkFits(Renamed(s, t), Some(StrayRun(s, t, cur)), rest, 0)
  }

  ghost predicate RightOnward(s: Store, t: nat, cur: Rec, rest: seq<Rec>) {
    t < |s.dir| && s.maxCount > 0 && s.dir[t].name in s.files && MergesRight(Onward(s, t, cur), [cur] + rest)
  }

  lemma {:induction false} WholeWalk(st: Store, head: seq<Rec>, cur: Rec, f: nat, t: nat, rest: seq<Rec>)
    requires OneMore(st, head, cur, f, t) && st.maxCount > 0 && |Parts(st, head, f)| > 1
    requires Sorted(head + [cur] + rest) && AllRoute(st.dir, rest)
    requires var o := Merge(st, head); o.Done? ==> OnwardFits(o.store, t, cur, rest)
    ensures var o := Merge(st, head);
            && (o.Stopped? ==> Merge(st, head + [cur] + rest) == o)
            && (o.Done? ==>
                  && t < |o.store.dir| && o.store.maxCount == st.maxCount && Left(st, head, f, o.store)
                  && Follows(o.store.dir, cur, rest)
                  && Astray(Renamed(o.store, t), t, cur, t + |Parts(st, head, f)| - 1)
                  && Merge(st, head + [cur] + rest)
                     == Walk(Renamed(o.store, t), Some(StrayRun(o.store, t, cur)), rest, 0))
  {
    hide Lt;
    hide FileRecs;
    hide Inv;
    hide Merge;
    hide Walk;
    hide WalkFits;
    hide OneMore;
    hide Left;
    hide Parts;
    hide Astray;
    hide Sorted;
    hide Upsert;
    hide Riding;
    hide LeftUpTo;
    hide LeftBehind;
    hide TailOf;
    hide StrayFits;
    hide FitsBehind;
    hide Follows;
    hide AllRoute;
    hide Adds;
    hide AllAbove;
    hide ChunksHaveAddsFrom;
    var front := head + [cur];
    OneMorePlaces(st, head, cur, f, t);
    OneMoreWalk(st, head, cur, f, t, front + rest);
    if Merge(st, head).Done? {
      var s := Merge(st, head).store;
      AstrayThere(st, head, cur, f, t, s);
      LeftLimits(st, head, f, s);
      var s', p := Renamed(s, t), t + |Parts(st, head, f)| - 1;
      FollowsThere(st.dir, s.dir, head, cur, rest);
      FollowsParts(s.dir, cur, rest);
      StrayParts(s', t, cur, p);
      StrayRides(s', t, cur, p);
      BehindFront(front, rest);
      WalkForgets(s', StrayRun(s', t, cur), t, p, cur.key, front + rest, |front|, rest, 0, LastEnd(s.dir));
    }
  }

  lemma {:induction false} FollowsThere(a: seq<MetaNode>, b: seq<MetaNode>, head: seq<Rec>, cur: Rec, rest: seq<Rec>)
    requires a != [] && b != [] && LastEnd(a) == LastEnd(b) && Sorted(head + [cur] + rest) && AllRoute(a, rest)
    ensures Follows(b, cur, rest)
  {
    hide Lt;
    assert head + [cur] + rest == head + ([cur] + rest);
    SortedParts(head, [cur] + rest);
  }

  lemma {:induction false} RenamedRun(s: Store, t: nat, cur: Rec)
    requires t < |s.dir|
    ensures StrayRun(Renamed(s, t), t, cur) == StrayRun(s, t, cur)
    ensures Renamed(s, t).dir == s.dir && Renamed(s, t).files == s.files && Renamed(s, t).maxCount == s.maxCount
  {
    hide FileRecs;
  }

  lemma {:induction false} OnwardHolds(st: Store, head: seq<Rec>, cur: Rec, rest: seq<Rec>, c: map<Key, nat>)
    requires c == Overlay(Contents(st), head)
    ensures Overlay(c, [cur] + rest) == Overlay(Contents(st), head + [cur] + rest)
  {
    hide Contents;
    hide Overlay;
    OverlayConcat(Contents(st), head, [cur] + rest);
    assert head + [cur] + rest == head + ([cur] + rest);
  }

  lemma {:induction false} HeadHolds(st: Store, head: seq<Rec>, f: nat, s: Store, t: nat)
    requires Walkable(st, head) && st.maxCount > 0 && f < |st.dir| && t < |s.dir| && Left(st, head, f, s)
    ensures Contents(Renamed(s, t)) == Overlay(Contents(st), head)
  {
    hide Flat;
    hide Inv;
    hide Merged;
    hide Overlay;
    hide HoldsChunks;
    hide MovedBack;
    hide Parts;
    WalkableInv(st, head);
    MergedOverlays(st, s, head);
  }

  lemma {:induction false} OneMoreHead(st: Store, head: seq<Rec>, cur: Rec, f: nat, t: nat)
    requires OneMore(st, head, cur, f, t)
    ensures Walkable(st, head)
  {
  }

  /** Behind the head: right exactly if the record fits behind the file at the old place. */
  lemma {:induction false} BehindHead(st: Store, head: seq<Rec>, cur: Rec, f: nat, t: nat, rest: seq<Rec>, s: Store)
    requires OneMore(st, head, cur, f, t) && st.maxCount > 1 && |Parts(st, head, f)| > 1
    requires Left(st, head, f, s) && t < |s.dir| && s.maxCount == st.maxCount && Follows(s.dir, cur, rest)
    requires OnwardFits(s, t, cur, rest)
    ensures EndsRight(Renamed(s, t), [cur] + rest, Walk(Renamed(s, t), Some(StrayRun(s, t, cur)), rest, 0)) <==>
              && |Parts(st, head, f)| == 2 && AllAbove(FileRecs(st.files, st.dir[t]), cur.key)
              && RightOnward(s, t, cur, rest)
  {
    hide Lt;
    hide FileRecs;
    hide Inv;
    hide Walk;
    hide WalkFits;
    hide OneMore;
    hide Left;
    hide Parts;
    hide Astray;
    hide StrayFits;
    hide StrayRun;
    hide FitsBehind;
    hide Follows;
    hide AllAbove;
    hide Contents;
    hide Overlay;
    hide Stretched;
    hide EndsRight;
    hide MergesRight;
    OneMorePlaces(st, head, cur, f, t);
    AstrayThere(st, head, cur, f, t, s);
    RenamedRun(s, t, cur);
    StrayIff(Renamed(s, t), t, cur, t + |Parts(st, head, f)| - 1, rest);
  }

  /** A list that goes on behind a cut merges right exactly if every chunk of its head keeps a record, the
      file before was cut in two, the record behind the cut lies below every key of its own file, and the
      merge of that record and the rest into the store that ends there is right. */
  lemma {:induction false} CutOnwardIff(st: Store, head: seq<Rec>, cur: Rec, f: nat, t: nat, rest: seq<Rec>)
    requires OneMore(st, head, cur, f, t) && st.maxCount > 1 && |Parts(st, head, f)| > 1
    requires Sorted(head + [cur] + rest) && AllRoute(st.dir, rest)
    requires var o := Merge(st, head); o.Done? ==> OnwardFits(o.store, t, cur, rest)
    ensures MergesRight(st, head + [cur] + rest) <==>
              && ChunksHaveAddsFrom(st, head, 0) && Merge(st, head).Done?
              && |Parts(st, head, f)| == 2 && AllAbove(FileRecs(st.files, st.dir[t]), cur.key)
              && RightOnward(Merge(st, head).store, t, cur, rest)
  {
    hide Lt;
    hide FileRecs;
    hide Inv;
    hide Merge;
    hide Walk;
    hide WalkFits;
    hide OneMore;
    hide Left;
    hide Parts;
    hide Astray;
    hide Sorted;
    hide Walkable;
    hide OnwardFits;
    hide RightOnward;
    hide StrayRun;
    hide Follows;
    hide AllRoute;
    hide AllAbove;
    hide Contents;
    hide Overlay;
    hide Renamed;
    hide ChunksHaveAddsFrom;
    OneMorePlaces(st, head, cur, f, t);
    OneMoreHead(st, head, cur, f, t);
    OneMoreMerge(st, head, cur, f, t);
    WholeWalk(st, head, cur, f, t, rest);
    if Merge(st, head).Done? {
      var s := Merge(st, head).store;
      HeadHolds(st, head, f, s, t);
      OnwardHolds(st, head, cur, rest, Contents(Renamed(s, t)));
      BehindHead(st, head, cur, f, t, rest, s);
    }
  }

  // ---- any number of cuts ---------------------------------------------------------------------------------

  /** The merge cuts a file at record n, before it touches the file of that record. */
  ghost predicate CutsAt(st: Store, list: seq<Rec>, n: nat, f: nat, t: nat) {
    && 0 < n < |list| && st.maxCount > 0 && OneMore(st, list[..n], list[n], f, t)
    && |Parts(st, list[..n], f)| > 1
  }

  /** Right by the structure of the list alone: if only the last file it touches may be cut, every chunk
      keeps a record; otherwise the first cut is right, and so is what comes behind it. */
  ghost predicate RightList(st: Store, list: seq<Rec>)
    requires st.maxCount > 0
    decreases |list|, 1
  {
    if OnlyLastSplits(st, list) then EveryChunkHasAdds(st, list) else
      exists n: nat, f: nat, t: nat :: CutsAt(st, list, n, f, t) && RightCut(st, list, n, f, t)
  }

  /** Every chunk up to the cut keeps a record, the file is cut in two, the next record lies below every
      key of its own file, and the list from there on is right for what that leaves. */
  ghost predicate RightCut(st: Store, list: seq<Rec>, n: nat, f: nat, t: nat)
    requires CutsAt(st, list, n, f, t)
    decreases |list|, 0
  {
    && ChunksHaveAddsFrom(st, list[..n], 0) && Merge(st, list[..n]).Done?
    && |Parts(st, list[..n], f)| == 2 && AllAbove(FileRecs(st.files, st.dir[t]), list[n].key)
    && var s := Merge(st, list[..n]).store;
       && t < |s.dir| && s.maxCount > 0 && s.dir[t].name in s.files
       && RightList(Onward(s, t, list[n]), list[n..])
  }

  /** What is written on the way fits the directory and the byte format. */
  ghost predicate AllFits(st: Store, list: seq<Rec>)
    requires st.maxCount > 0
    decreases |list|
  {
    && GroupsFit(st, list)
    && forall n: nat, f: nat, t: nat :: CutsAt(st, list, n, f, t) && Merge(st, list[..n]).Done? ==>
         var s := Merge(st, list[..n]).store;
         && OnwardFits(s, t, list[n], list[n + 1..])
         && (t < |s.dir| && s.maxCount > 0 && s.dir[t].name in s.files ==> AllFits(Onward(s, t, list[n]), list[n..]))
  }

  lemma {:induction false} CutFits(st: Store, list: seq<Rec>, n: nat, f: nat, t: nat)
    requires st.maxCount > 0 && AllFits(st, list) && CutsAt(st, list, n, f, t) && Merge(st, list[..n]).Done?
    ensures var s := Merge(st, list[..n]).store;
            && OnwardFits(s, t, list[n], list[n + 1..])
            && (t < |s.dir| && s.maxCount > 0 && s.dir[t].name in s.files ==> AllFits(Onward(s, t, list[n]), list[n..]))
  {
    hide Merge;
    hide OneMore;
    hide Parts;
    hide OnwardFits;
    hide Onward;
    hide GroupsFit;
  }

  lemma {:induction false} UncutIff(st: Store, list: seq<Rec>)
    requires Inv(st) && st.maxCount > 0 && Sorted(list) && list != [] && AllRoute(st.dir, list)
    requires OnlyLastSplits(st, list) && GroupsFit(st, list)
    ensures MergesRight(st, list) <==> EveryChunkHasAdds(st, list)
    ensures Merge(st, list).Done? ==> MergesRight(st, list)
  {
    hide Lt;
    hide Inv;
    hide Merge;
    hide Chunks;
    hide ChunksFit;
    hide Group;
    hide Rebuilt;
    hide OnlyLastSplits;
    hide AllRoute;
    hide PastEnd;
    hide Sorted;
    hide Contents;
    hide Overlay;
    hide Flat;
    hide Merged;
    hide EveryChunkHasAdds;
    NotBoth(st.dir, list);
    MergeCorrect(st, list);
    MergeableIsSound(st, list);
  }

  lemma {:induction false} CutPieces(st: Store, list: seq<Rec>, n: nat, f: nat, t: nat)
    requires CutsAt(st, list, n, f, t) && Sorted(list) && AllRoute(st.dir, list)
    ensures list == list[..n] + [list[n]] + list[n + 1..] && list[n..] == [list[n]] + list[n + 1..]
    ensures Sorted(list[n..]) && AllRoute(st.dir, list[n + 1..]) && AllRoute(st.dir, list[n..])
    ensures f < t < |st.dir| && OneMore(st, list[..n], list[n], f, t) && |Parts(st, list[..n], f)| > 1
  {
    hide Lt;
    hide Search;
    hide Walkable;
    hide Parts;
    hide Sorted;
    ListPieces(st.dir, list, n);
  }

  lemma {:induction false} ListPieces(dir: seq<MetaNode>, list: seq<Rec>, n: nat)
    requires n < |list| && Sorted(list) && AllRoute(dir, list)
    ensures list == list[..n] + [list[n]] + list[n + 1..] && list[n..] == [list[n]] + list[n + 1..]
    ensures Sorted(list[n..]) && AllRoute(dir, list[n + 1..]) && AllRoute(dir, list[n..])
  {
    hide Lt;
    hide Sorted;
    assert list == list[..n] + list[n..];
    SortedParts(list[..n], list[n..]);
  }

  /** The store to go on with is in order, and ends where the old one does. */
  lemma {:induction false} OnwardStore(st: Store, head: seq<Rec>, cur: Rec, f: nat, t: nat, s: Store)
    requires OneMore(st, head, cur, f, t) && st.maxCount > 0 && Left(st, head, f, s)
    requires |Parts(st, head, f)| == 2 && AllAbove(FileRecs(st.files, st.dir[t]), cur.key)
    ensures t < |s.dir| && s.maxCount == st.maxCount && s.dir[t].name in s.files
    ensures var b := Onward(s, t, cur);
            && Inv(b) && b.maxCount == st.maxCount
            && st.dir != [] && b.dir != [] && LastEnd(b.dir) == LastEnd(st.dir)
  {
    hide Lt;
    hide FileRecs;
    hide Inv;
    hide OneMore;
    hide Left;
    hide Parts;
    hide Astray;
    hide FitsBehind;
    hide AllAbove;
    hide Contents;
    hide Stretched;
    OneMorePlaces(st, head, cur, f, t);
    LeftLimits(st, head, f, s);
    AstrayThere(st, head, cur, f, t, s);
    AstrayPlace(Renamed(s, t), t, cur, t + 1);
    FitsNext(Renamed(s, t), t, cur, t + 1);
    assert Onward(s, t, cur).dir[|s.dir| - 1] == s.dir[|s.dir| - 1];
  }

  lemma {:induction false} RoutesStill(a: seq<MetaNode>, b: seq<MetaNode>, list: seq<Rec>)
    requires a != [] && b != [] && LastEnd(a) == LastEnd(b) && AllRoute(a, list)
    ensures AllRoute(b, list)
  {
    hide Lt;
  }

  /** A list that the laws of the merge apply to. */
  ghost predicate Routed(st: Store, list: seq<Rec>) {
    Inv(st) && st.maxCount > 1 && Sorted(list) && list != [] && AllRoute(st.dir, list)
  }

  lemma {:induction false} RoutedOnward(st: Store, list: seq<Rec>, n: nat, f: nat, t: nat)
    requires Routed(st, list) && AllFits(st, list) && CutsAt(st, list, n, f, t) && Merge(st, list[..n]).Done?
    requires |Parts(st, list[..n], f)| == 2 && AllAbove(FileRecs(st.files, st.dir[t]), list[n].key)
    ensures var s := Merge(st, list[..n]).store;
            && t < |s.dir| && s.maxCount > 0 && s.dir[t].name in s.files
            && Routed(Onward(s, t, list[n]), list[n..]) && AllFits(Onward(s, t, list[n]), list[n..])
  {
    hide Lt;
    hide FileRecs;
    hide Inv;
    hide Merge;
    hide OneMore;
    hide Left;
    hide Parts;
    hide AllAbove;
    hide Sorted;
    hide AllRoute;
    hide Onward;
    hide AllFits;
    hide OnwardFits;
    hide ChunksHaveAddsFrom;
    CutPieces(st, list, n, f, t);
    OneMoreMerge(st, list[..n], list[n], f, t);
    var s := Merge(st, list[..n]).store;
    OnwardStore(st, list[..n], list[n], f, t, s);
    RoutesStill(st.dir, Onward(s, t, list[n]).dir, list[n..]);
    CutFits(st, list, n, f, t);
  }

  /** One cut of a list, with the law for what lies behind it. */
  lemma {:induction false} RightCutIff(st: Store, list: seq<Rec>, n: nat, f: nat, t: nat)
    requires Routed(st, list) && AllFits(st, list) && CutsAt(st, list, n, f, t)
    ensures MergesRight(st, list) <==> RightCut(st, list, n, f, t)
    decreases |list|, 0
  {
    hide Lt;
    hide FileRecs;
    hide Inv;
    hide Merge;
    hide MergesRight;
    hide OneMore;
    hide Parts;
    hide AllAbove;
    hide Sorted;
    hide AllRoute;
    hide Onward;
    hide AllFits;
    hide OnwardFits;
    hide RightList;
    hide ChunksHaveAddsFrom;
    CutPieces(st, list, n, f, t);
    if Merge(st, list[..n]).Done? {
      CutFits(st, list, n, f, t);
    }
    CutOnwardIff(st, list[..n], list[n], f, t, list[n + 1..]);
    if Merge(st, list[..n]).Done? && |Parts(st, list[..n], f)| == 2
       && AllAbove(FileRecs(st.files, st.dir[t]), list[n].key) {
      RoutedOnward(st, list, n, f, t);
      RoutedRightIff(Onward(Merge(st, list[..n]).store, t, list[n]), list[n..]);
    }
  }

  /** The exact law for lists whose keys route to files: their merge is right exactly if the list is, by
      its structure, whatever it cuts. */
  lemma {:induction false} RoutedRightIff(st: Store, list: seq<Rec>)
    requires Routed(st, list) && AllFits(st, list)
    ensures MergesRight(st, list) <==> RightList(st, list)
    decreases |list|, 1
  {
    hide Lt;
    hide Inv;
    hide Merge;
    hide MergesRight;
    hide Sorted;
    hide AllRoute;
    hide OnlyLastSplits;
    hide EveryChunkHasAdds;
    hide GroupsFit;
    hide CutsAt;
    hide RightCut;
    hide OneMore;
    hide Parts;
    hide Goes;
    AllFitsGroups(st, list);
    if OnlyLastSplits(st, list) {
      UncutIff(st, list);
    } else {
      var n, f, t := FirstCut(st, list);
      CutsThere(st, list, n, f, t);
      RightCutIff(st, list, n, f, t);
      if n': nat, f': nat, t': nat :| CutsAt(st, list, n', f', t') && RightCut(st, list, n', f', t') {
        RightCutIff(st, list, n', f', t');
      }
    }
  }

  lemma {:induction false} AllFitsGroups(st: Store, list: seq<Rec>)
    requires st.maxCount > 0 && AllFits(st, list)
    ensures GroupsFit(st, list)
  {
    hide GroupsFit;
    hide CutsAt;
    hide Merge;
    hide OnwardFits;
    hide Onward;
  }

  lemma {:induction false} CutsThere(st: Store, list: seq<Rec>, n: nat, f: nat, t: nat)
    requires n < |list| && st.maxCount > 0 && OneMore(st, list[..n], list[n], f, t)
    requires |Parts(st, list[..n], f)| > 1
    ensures CutsAt(st, list, n, f, t)
  {
    hide Walkable;
    hide Sorted;
    hide Search;
    hide Parts;
  }

  // ---- what a wrong merge leaves ---------------------------------------------------------------------------

  /** A stored key that the list does not mention, behind its first, is in no file any more. */
  ghost predicate Missing(st: Store, list: seq<Rec>, k: Key, b: Store) {
    StoreWithout(b, k) && k in Contents(st) && Without(list, k) && list != [] && Lt(list[0].key, k)
  }

  ghost predicate Spoiled(st: Store, list: seq<Rec>, o: Outcome) {
    o.Done? ==> Disordered(o.store) || exists k: Key :: Missing(st, list, k, o.store)
  }

  /** A run that is cut where it landed is that of a file behind the first cut, as it was. */
  lemma {:induction false} LandedFile(st: Store, head: seq<Rec>, cur: Rec, f: nat, t: nat, s: Store)
    requires OneMore(st, head, cur, f, t) && st.maxCount > 0 && Left(st, head, f, s) && |Parts(st, head, f)| > 1
    requires t < |s.dir| && |FileRecs(s.files, s.dir[t])| >= 2 * st.maxCount
    ensures var j := t - (|Parts(st, head, f)| - 1);
            f < j < |st.dir| && FileRecs(s.files, s.dir[t]) == FileRecs(st.files, st.dir[j])
  {
    hide Lt;
    hide Walkable;
    hide Search;
    hide FileRecs;
    hide Left;
    hide Chunks;
    hide Rebuilt;
    hide Adds;
    hide Sorted;
    LandsThere(st, head, cur, f, t, s);
    var parts := Parts(st, head, f);
    OneChunkIff(Rebuilt(st, head, f), st.maxCount);
    ChunksConserve(Rebuilt(st, head, f), st.maxCount);
    if t < f + |parts| {
      assert false;
    }
  }

  lemma {:induction false} BehindTheHead(st: Store, head: seq<Rec>, cur: Rec, f: nat, t: nat, j: nat, x: Rec)
    requires OneMore(st, head, cur, f, t) && f < j < |st.dir| && x in FileRecs(st.files, st.dir[j])
    ensures head != [] && Lt(LastKey(head), x.key)
  {
    hide Lt;
    hide FileRecs;
    hide Inv;
    hide Search;
    hide OnlyLastSplits;
    hide Chunks;
    hide ChunksFit;
    hide Group;
    WalkableInv(st, head);
    InvEnds(st);
    SearchFinds(st.dir, LastKey(head));
    EndsRiseTo(st.dir, f, j - 1);
    FileRange(st, j);
    LtIsStrictTotalOrder();
  }

  lemma {:induction false} NotInList(head: seq<Rec>, cur: Rec, rest: seq<Rec>, k: Key)
    requires Sorted(head + [cur] + rest) && head != [] && Lt(LastKey(head), k) && Lt(k, cur.key)
    ensures Without(head + [cur] + rest, k) && Lt(head[0].key, k)
  {
    hide Lt;
    LtIsStrictTotalOrder();
    var list := head + [cur] + rest;
    assert list[|head|] == cur && list[|head| - 1] == head[|head| - 1] && list[0] == head[0];
    forall j | 0 <= j < |list|
      ensures list[j].key != k
    {
      assert j < |head| - 1 ==> Lt(list[j].key, list[|head| - 1].key);
      assert j > |head| ==> Lt(list[|head|].key, list[j].key);
    }
  }

  /** What a stray record ruins, the list never mends: the lost key is not one of its own. */
  lemma {:induction false} RuinedIsSpoiled(st: Store, head: seq<Rec>, cur: Rec, f: nat, t: nat, rest: seq<Rec>,
                                           s: Store, o: Outcome)
    requires OneMore(st, head, cur, f, t) && st.maxCount > 0 && |Parts(st, head, f)| > 1 && Left(st, head, f, s)
    requires t < |s.dir| && Sorted(head + [cur] + rest) && Ruined(Renamed(s, t), t, cur, o)
    ensures Spoiled(st, head + [cur] + rest, o)
  {
    hide Lt;
    hide FileRecs;
    hide Inv;
    hide OneMore;
    hide Left;
    hide Parts;
    hide Sorted;
    hide StoreWithout;
    hide Disordered;
    hide Contents;
    hide Without;
    LeftLimitsAt(st, head, f, s, cur, t);
    if o.Done? && !Disordered(o.store) {
      var x: Rec :| Gone(Renamed(s, t), t, cur, x, o.store);
      LandedFile(st, head, cur, f, t, s);
      var j := t - (|Parts(st, head, f)| - 1);
      BehindTheHead(st, head, cur, f, t, j, x);
      OneMoreInv(st, head, cur, f, t);
      StoredIsThere(st, j, x);
      NotInList(head, cur, rest, x.key);
      assert (head + [cur] + rest)[0] == head[0];
      assert Missing(st, head + [cur] + rest, x.key, o.store);
    }
  }

  lemma {:induction false} OneMoreInv(st: Store, head: seq<Rec>, cur: Rec, f: nat, t: nat)
    requires OneMore(st, head, cur, f, t)
    ensures Inv(st) && head != []
  {
    hide Inv;
    hide Sorted;
    hide Search;
  }

  lemma {:induction false} LeftLimitsAt(st: Store, head: seq<Rec>, f: nat, s: Store, cur: Rec, t: nat)
    requires OneMore(st, head, cur, f, t) && st.maxCount > 0 && Left(st, head, f, s)
    ensures s.maxCount == st.maxCount
  {
    hide OneMore;
    hide Left;
    OneMorePlaces(st, head, cur, f, t);
    LeftLimits(st, head, f, s);
  }

  /** What is missing behind a cut is missing of the whole list. */
  lemma {:induction false} SpoiledOnward(st: Store, list: seq<Rec>, n: nat, s: Store, o: Outcome)
    requires Sorted(list) && 0 < n < |list| && Contents(s) == Overlay(Contents(st), list[..n])
    requires Spoiled(s, list[n..], o)
    ensures Spoiled(st, list, o)
  {
    hide Lt;
    hide StoreWithout;
    hide Disordered;
    hide Contents;
    hide Overlay;
    if o.Done? && !Disordered(o.store) {
      var k: Key :| Missing(s, list[n..], k, o.store);
      LtIsStrictTotalOrder();
      assert list[n..][0] == list[n];
      forall j | 0 <= j < |list|
        ensures list[j].key != k
      {
        assert j < n ==> Lt(list[j].key, list[n].key);
        assert j >= n ==> list[n..][j - n] == list[j];
      }
      assert Without(list[..n], k);
      OverlayLacks(Contents(st), list[..n], k);
      assert Missing(st, list, k, o.store);
    }
  }

  lemma {:induction false} OverlayLacks(m: map<Key, nat>, list: seq<Rec>, k: Key)
    requires k in Overlay(m, list) && Without(list, k)
    ensures k in m
  {
    if list != [] {
      OverlayLacks(m, list[..|list| - 1], k);
    }
  }

  /** At one cut: the merge stops, or the stray record ruins it, or it goes on from an ordered store. */
  lemma {:induction false} CutSpoilsOrGoesOn(st: Store, list: seq<Rec>, n: nat, f: nat, t: nat)
    requires Routed(st, list) && AllFits(st, list) && CutsAt(st, list, n, f, t)
    ensures var o := Merge(st, list[..n]);
            || Spoiled(st, list, Merge(st, list))
            || (&& o.Done? && |Parts(st, list[..n], f)| == 2 && AllAbove(FileRecs(st.files, st.dir[t]), list[n].key)
                && t < |o.store.dir| && o.store.maxCount > 0 && o.store.dir[t].name in o.store.files
                && Contents(Onward(o.store, t, list[n])) == Overlay(Contents(st), list[..n])
                && Onward(o.store, t, list[n]).maxCount > 0
                && Merge(st, list) == Merge(Onward(o.store, t, list[n]), list[n..]))
  {
    hide Lt;
    hide FileRecs;
    hide Inv;
    hide Merge;
    hide Walk;
    hide WalkFits;
    hide OneMore;
    hide Left;
    hide Parts;
    hide Astray;
    hide Sorted;
    hide AllRoute;
    hide AllAbove;
    hide AllFits;
    hide StrayFits;
    hide StrayRun;
    hide FitsBehind;
    hide Follows;
    hide Contents;
    hide Overlay;
    hide Stretched;
    hide Ruined;
    hide ChunksHaveAddsFrom;
    CutPieces(st, list, n, f, t);
    var head, cur, rest := list[..n], list[n], list[n + 1..];
    if Merge(st, head).Done? {
      CutFits(st, list, n, f, t);
    }
    WholeWalk(st, head, cur, f, t, rest);
    if Merge(st, head).Done? {
      var s := Merge(st, head).store;
      var s', p := Renamed(s, t), t + |Parts(st, head, f)| - 1;
      RenamedRun(s, t, cur);
      AstrayThere(st, head, cur, f, t, s);
      if FitsBehind(s', t, cur.key) {
        OneMoreHead(st, head, cur, f, t);
        HeadHolds(st, head, f, s, t);
        FitsNext(s', t, cur, p);
        StrayFitsIn(s', t, cur, p, rest);
      } else {
        StrayRuins(s', t, cur, p, rest);
        RuinedIsSpoiled(st, head, cur, f, t, rest, s, Merge(st, list));
      }
    }
  }

  /** A merge of a routed list is right, or it stops, or leaves the directory out of order or without a
      stored key: nothing that new files behind it could mend. */
  lemma {:induction false} RightOrSpoiled(st: Store, list: seq<Rec>)
    requires Routed(st, list) && AllFits(st, list)
    ensures MergesRight(st, list) || Spoiled(st, list, Merge(st, list))
    decreases |list|
  {
    hide Lt;
    hide Inv;
    hide FileRecs;
    hide Merge;
    hide Sorted;
    hide AllRoute;
    hide AllAbove;
    hide OnlyLastSplits;
    hide EveryChunkHasAdds;
    hide GroupsFit;
    hide CutsAt;
    hide OneMore;
    hide Parts;
    hide Goes;
    hide Onward;
    hide Contents;
    hide Overlay;
    hide Missing;
    hide Disordered;
    AllFitsGroups(st, list);
    if OnlyLastSplits(st, list) {
      UncutIff(st, list);
    } else {
      var n, f, t := FirstCut(st, list);
      CutsThere(st, list, n, f, t);
      CutSpoilsOrGoesOn(st, list, n, f, t);
      CutPlace(st, list, n, f, t);
      var o := Merge(st, list[..n]);
      if !Spoiled(st, list, Merge(st, list)) {
        RoutedOnward(st, list, n, f, t);
        var b := Onward(o.store, t, list[n]);
        RightOrSpoiled(b, list[n..]);
        if Spoiled(b, list[n..], Merge(st, list)) {
          SpoiledOnward(st, list, n, b, Merge(st, list));
        } else {
          SameOverlay(Contents(st), list, n);
        }
      }
    }
  }

  lemma {:induction false} CutPlace(st: Store, list: seq<Rec>, n: nat, f: nat, t: nat)
    requires CutsAt(st, list, n, f, t)
    ensures 0 < n < |list| && f < t < |st.dir|
  {
    hide Walkable;
    hide Sorted;
    hide Search;
    hide Parts;
  }

  lemma {:induction false} SameOverlay(m: map<Key, nat>, list: seq<Rec>, n: nat)
    requires n <= |list|
    ensures Overlay(Overlay(m, list[..n]), list[n..]) == Overlay(m, list)
  {
    hide Overlay;
    OverlayConcat(m, list[..n], list[n..]);
    assert list == list[..n] + list[n..];
  }
}
