// Lists whose merge cuts a file before it touches another: the name of that other file is taken
// from a place where it no longer stands.
module CutLists {
  import opened Keys
  import opened Records
  import opened Merging
  import opened Images
  import opened Metas
  import opened Stores
  import opened StoreLaws
  import opened FlushLaws
  import opened MergeLaws
  import opened MergeTheorem
  import opened MixedLists
  import opened LookupLaws
  import opened StaleIndex

  /** The walk takes the head, whose last record goes to file f; one more record goes to file t behind it. */
  ghost predicate OneMore(st: Store, head: seq<Rec>, cur: Rec, f: nat, t: nat) {
    && Walkable(st, head) && head != [] && Sorted(head + [cur])
    && f == Search(st.dir, LastKey(head)) && t == Search(st.dir, cur.key) && f < t < |st.dir|
  }

  /** What file f is cut into once the head is merged in. */
  ghost function Parts(st: Store, head: seq<Rec>, f: nat): (c: seq<seq<Rec>>)
    requires f < |st.dir| && st.maxCount > 0
    ensures |c| > 0
  {
    Chunks(Rebuilt(st, head, f), st.maxCount)
  }

  /** What then stands at place t. */
  ghost function Landing(st: Store, head: seq<Rec>, f: nat, t: nat): seq<Rec>
    requires f < t < |st.dir| && st.maxCount > 0
  {
    var parts := Parts(st, head, f);
    if t < f + |parts| then Adds(parts[t - f]) else FileRecs(st.files, st.dir[t - (|parts| - 1)])
  }

  /** The run that the last record lands in has room and fits the byte format, and unless it is the
      right one, it is not cut. */
  ghost predicate LandingFits(st: Store, head: seq<Rec>, cur: Rec, f: nat, t: nat)
    requires f < t < |st.dir| && st.maxCount > 0
  {
    var run := Upsert(Landing(st, head, f, t), cur);
    && ChunksFit(Chunks(run, st.maxCount))
    && if |Parts(st, head, f)| == 1 then |st.dir| + |Chunks(run, st.maxCount)| <= st.maxFiles
       else |run| <= 2 * st.maxCount
  }

  // ---- the walk up to the last record -----------------------------------------------------------

  lemma {:induction false} LastGroupIs(st0: Store, st: Store, head: seq<Rec>, i: nat, g: nat)
    requires Walkable(st0, head) && Progress(st0, st, head, i, g, |head|)
    ensures head != [] && Search(st0.dir, LastKey(head)) == i
  {
    hide Lt;
    hide Walkable;
    hide Progress;
    hide Search;
    hide UpTo;
    hide SameEndsFrom;
    hide Sorted;
    hide Inv;
    hide EndsRise;
    hide Flat;
    hide Merged;
    hide AllRoute;
    ProgressGives(st0, st, head, i, g, |head|);
    ProgressEnds(st0, st, head, i, g, |head|);
    SameAsItself(st0.dir, st.dir, i);
    StaysInGroup(st0.dir, st0.dir, head, i, |head| - 1);
  }

  lemma {:induction false} SameAsItself(dir0: seq<MetaNode>, dir: seq<MetaNode>, i: nat)
    requires SameEndsFrom(dir0, dir, i)
    ensures SameEndsFrom(dir0, dir0, i)
  {
  }

  lemma {:induction false} StillBehind(st0: Store, st: Store, head: seq<Rec>, i: nat, g: nat, key: Key, t: nat)
    requires Walkable(st0, head) && Progress(st0, st, head, i, g, |head|)
    requires t == Search(st0.dir, key) && i < t < |st0.dir|
    ensures Search(st.dir, key) == t && |st.dir| == |st0.dir|
    ensures st.dir[t] == st0.dir[t] && FileRecs(st.files, st.dir[t]) == FileRecs(st0.files, st0.dir[t])
  {
    hide Lt;
    hide Walkable;
    hide Search;
    hide Inv;
    hide FileRecs;
    hide Flat;
    hide Merged;
    hide UpTo;
    ProgressEnds(st0, st, head, i, g, |head|);
    SearchFinds(st0.dir, key);
    SearchIs(st.dir, key, t);
  }

  lemma {:induction false} WalkOnto(st: Store, run: seq<Rec>, list: seq<Rec>, pos: nat, t: nat)
    requires pos < |list| && st.maxCount > 0 && t == Search(st.dir, list[pos].key) < |st.dir|
    requires st.name != st.dir[t].name
    requires FlushMerge(st, run).Done? ==> Inv(FlushMerge(st, run).store)
    ensures var o := FlushMerge(st, run);
            && (o.Stopped? ==> Walk(st, Some(run), list, pos) == o)
            && (o.Done? ==>
                  && t < |o.store.dir| && o.store.maxCount > 0
                  && Walk(st, Some(run), list, pos)
                     == Walk(o.store.(name := o.store.dir[t].name),
                             Some(Upsert(FileRecs(o.store.files, o.store.dir[t]), list[pos])), list, pos + 1))
  {
    hide Search;
    hide FlushMerge;
    hide Load;
    hide Upsert;
    hide Inv;
    hide FileRecs;
    hide Walk;
    WalkOpens(st, run, list, pos, t);
    if FlushMerge(st, run).Done? {
      var st1 := FlushMerge(st, run).store;
      var st' := st1.(name := st1.dir[t].name);
      InvIgnoresRest(st1, st1.(name := st1.dir[t].name));
      LoadsFile(st', t);
    }
  }

  /** What the merge of the head leaves: its parts where file f was, the files behind moved back. */
  ghost predicate Left(st: Store, head: seq<Rec>, f: nat, s: Store)
    requires f < |st.dir| && st.maxCount > 0
  {
    && Inv(s) && s.maxCount == st.maxCount && s.maxFiles == st.maxFiles
    && Flat(s.dir, s.files) == Merged(Flat(st.dir, st.files), head)
    && HoldsChunks(s, f, Parts(st, head, f))
    && MovedBack(st, s, f + 1, |Parts(st, head, f)| - 1)
  }

  lemma {:induction false} MovedFrom(st0: Store, st: Store, head: seq<Rec>, i: nat, g: nat, s: Store, n: nat)
    requires Progress(st0, st, head, i, g, |head|) && MovedBack(st, s, i + 1, n)
    ensures MovedBack(st0, s, i + 1, n)
  {
    hide FileRecs;
    hide Inv;
    hide Flat;
    hide Merged;
    hide UpTo;
  }

  lemma {:induction false} HeadLeaves(st0: Store, st: Store, head: seq<Rec>, i: nat, g: nat)
    requires Walkable(st0, head) && Progress(st0, st, head, i, g, |head|)
    ensures st.maxCount > 0 && st0.maxCount > 0 && i < |st0.dir| && i < |st.dir| && g <= |head|
    ensures var run := Collected(st, head, i, g, |head|);
            && (FlushMerge(st, run).Done? ==> Left(st0, head, i, FlushMerge(st, run).store))
  {
    hide Walkable;
    hide Progress;
    hide FlushMerge;
    hide Chunks;
    hide ChunksFit;
    hide Inv;
    hide Flat;
    hide Merged;
    hide Sorted;
    hide FileRecs;
    hide UpsertAll;
    hide Group;
    hide Rebuilt;
    hide Within;
    hide HoldsChunks;
    hide MovedBack;
    ProgressGives(st0, st, head, i, g, |head|);
    ProgressEnds(st0, st, head, i, g, |head|);
    InvPositive(st0);
    CollectedIsGroup(st0, st, head, i, g, |head|);
    CollectedFits(st0, st, head, i, g, |head|);
    CloseGroup(st0, st, head, i, g, |head|);
    assert head[..|head|] == head;
    var run := Collected(st, head, i, g, |head|);
    FlushMergeShifts(st, i, run);
    if FlushMerge(st, run).Done? {
      MovedFrom(st0, st, head, i, g, FlushMerge(st, run).store, |Chunks(run, st.maxCount)| - 1);
    }
  }

  /** The merge of a longer list is the merge of the head, and then the next record goes into whatever
      stands at place t. */
  lemma {:induction false} OneMoreWalk(st: Store, head: seq<Rec>, cur: Rec, f: nat, t: nat, list: seq<Rec>)
    requires OneMore(st, head, cur, f, t) && head + [cur] <= list
    ensures st.maxCount > 0
    ensures var o := Merge(st, head);
            && (o.Done? <==> ChunksHaveAddsFrom(st, head, 0))
            && (o.Stopped? ==> Merge(st, list) == o)
            && (o.Done? ==>
                  && Left(st, head, f, o.store) && t < |o.store.dir| && o.store.maxCount > 0
                  && Merge(st, list)
                     == Walk(o.store.(name := o.store.dir[t].name),
                             Some(Upsert(FileRecs(o.store.files, o.store.dir[t]), cur)), list, |head| + 1))
  {
    hide Lt;
    hide Merge;
    hide Walk;
    hide FlushMerge;
    hide Inv;
    hide Walkable;
    hide Progress;
    hide EndsDone;
    hide Search;
    hide Collected;
    hide Sorted;
    hide Group;
    hide Rebuilt;
    hide AllRoute;
    hide Left;
    hide Upsert;
    hide FileRecs;
    hide Mergeable;
    hide PastEnd;
    hide ChunksHaveAddsFrom;
    WalkableMergeable(st, head);
    MergeCorrect(st, head);
    RoutedNotPast(st, head);
    EveryChunkOfRouted(st, head);
    NextInList(head, cur, list);
    var stops, stE, i, g := MergeReaches(st, head, list);
    if !stops {
      LastGroupIs(st, stE, head, i, g);
      StillBehind(st, stE, head, i, g, cur.key, t);
      HeadLeaves(st, stE, head, i, g);
      NameIsOther(st, stE, head, i, g, t);
      var run := Collected(stE, head, i, g, |head|);
      if FlushMerge(stE, run).Done? {
        LeftInv(st, head, i, FlushMerge(stE, run).store);
      }
      WalkOnto(stE, run, list, |head|, t);
    }
  }

  lemma {:induction false} NextInList(head: seq<Rec>, cur: Rec, list: seq<Rec>)
    requires head + [cur] <= list
    ensures head <= list && |head| < |list| && list[|head|] == cur
  {
    assert (head + [cur])[|head|] == cur;
  }

  /** The same for a list that ends there. */
  lemma {:induction false} OneMoreMerge(st: Store, head: seq<Rec>, cur: Rec, f: nat, t: nat)
    requires OneMore(st, head, cur, f, t)
    ensures st.maxCount > 0
    ensures var o := Merge(st, head);
            && (o.Done? <==> ChunksHaveAddsFrom(st, head, 0))
            && (o.Stopped? ==> Merge(st, head + [cur]) == o)
            && (o.Done? ==>
                  && Left(st, head, f, o.store) && t < |o.store.dir| && o.store.maxCount > 0
                  && Merge(st, head + [cur])
                     == FlushMerge(o.store.(name := o.store.dir[t].name),
                                   Upsert(FileRecs(o.store.files, o.store.dir[t]), cur)))
  {
    hide Merge;
    hide Walk;
    hide FlushMerge;
    hide OneMore;
    hide Left;
    hide Upsert;
    hide FileRecs;
    hide ChunksHaveAddsFrom;
    var list := head + [cur];
    OneMoreWalk(st, head, cur, f, t, list);
    if Merge(st, head).Done? {
      var s := Merge(st, head).store;
      WalkEndsAt(s.(name := s.dir[t].name), Upsert(FileRecs(s.files, s.dir[t]), cur), list);
    }
  }

  lemma {:induction false} RoutedNotPast(st: Store, head: seq<Rec>)
    requires Walkable(st, head) && head != []
    ensures !PastEnd(st.dir, head)
  {
    NotBoth(st.dir, head);
  }

  lemma {:induction false} LeftInv(st: Store, head: seq<Rec>, f: nat, s: Store)
    requires f < |st.dir| && st.maxCount > 0 && Left(st, head, f, s)
    ensures Inv(s)
  {
  }

  lemma {:induction false} NameIsOther(st0: Store, st: Store, head: seq<Rec>, i: nat, g: nat, t: nat)
    requires Walkable(st0, head) && Progress(st0, st, head, i, g, |head|) && i < t < |st.dir|
    ensures st.name != st.dir[t].name
  {
    hide Walkable;
    hide Progress;
    hide Inv;
    ProgressGives(st0, st, head, i, g, |head|);
    InvNames(st);
  }

  // ---- where the last record lands -----------------------------------------------------------------

  /** Place t of the store that the head leaves: n places in front of the file of the key. */
  lemma {:induction false} LandsThere(st: Store, head: seq<Rec>, cur: Rec, f: nat, t: nat, s: Store)
    requires OneMore(st, head, cur, f, t) && st.maxCount > 0 && Left(st, head, f, s)
    ensures var n := |Parts(st, head, f)| - 1;
            && |s.dir| == |st.dir| + n && s.dir[t + n] == st.dir[t]
            && FileRecs(s.files, s.dir[t + n]) == FileRecs(st.files, st.dir[t])
            && Lt(s.dir[t + n - 1].end, cur.key) && Le(cur.key, st.dir[t].end)
            && FileRecs(s.files, s.dir[t]) == Landing(st, head, f, t)
  {
    hide Lt;
    hide Walkable;
    hide FileRecs;
    hide Inv;
    hide Flat;
    hide Merged;
    hide Sorted;
    hide Search;
    hide Rebuilt;
    hide Chunks;
    hide Adds;
    hide Within;
    hide HoldsChunks;
    hide Holds;
    hide MovedBack;
    WalkableInv(st, head);
    RebuiltWithin(st, head, f);
    SearchShifts(st, f, Rebuilt(st, head, f), s, cur.key);
    PlaceHolds(st, head, f, t, s);
  }

  lemma {:induction false} WalkableInv(st: Store, head: seq<Rec>)
    requires Walkable(st, head)
    ensures Inv(st) && Sorted(head)
  {
  }

  lemma {:induction false} PlaceHolds(st: Store, head: seq<Rec>, f: nat, t: nat, s: Store)
    requires f < t < |st.dir| && st.maxCount > 0
    requires HoldsChunks(s, f, Parts(st, head, f)) && MovedBack(st, s, f + 1, |Parts(st, head, f)| - 1)
    ensures FileRecs(s.files, s.dir[t]) == Landing(st, head, f, t)
  {
    hide FileRecs;
    hide Parts;
    hide Adds;
    var parts := Parts(st, head, f);
    if t < f + |parts| {
      assert Holds(s, f + (t - f), parts[t - f]);
    }
  }

  lemma {:induction false} RebuiltWithin(st: Store, head: seq<Rec>, f: nat)
    requires Walkable(st, head) && head != [] && f == Search(st.dir, LastKey(head)) < |st.dir|
    ensures var run := Rebuilt(st, head, f); run != [] && Within(run, st.dir, f, st.dir[f].end)
  {
    hide Lt;
    hide Search;
    hide FileRecs;
    hide UpsertAll;
    hide Within;
    hide UpTo;
    hide Chunks;
    hide ChunksFit;
    hide OnlyLastSplits;
    hide Inv;
    InvEnds(st);
    hide EndsRise;
    GroupIn(st.dir, head, f);
    FileOf(st, f);
    FileWithin(st, f);
    WithinUpsertAll(FileRecs(st.files, st.dir[f]), Group(st.dir, head, f), st.dir, f, st.dir[f].end);
    UpsertAllHolds(FileRecs(st.files, st.dir[f]), Group(st.dir, head, f));
  }

  lemma {:induction false} GroupIn(dir: seq<MetaNode>, head: seq<Rec>, f: nat)
    requires EndsRise(dir) && Sorted(head) && head != [] && f == Search(dir, LastKey(head)) < |dir|
    ensures Group(dir, head, f) != [] && Within(Group(dir, head, f), dir, f, dir[f].end)
  {
    hide Lt;
    hide Search;
    LtIsStrictTotalOrder();
    SearchFinds(dir, LastKey(head));
    UpToIs(head, dir[f].end, |head|);
    var a := GroupStart(dir, head, f);
    assert f > 0 ==> Lt(dir[f - 1].end, LastKey(head));
    assert a < |head|;
    var ys := Group(dir, head, f);
    assert ys == head[a..];
    forall j | 0 <= j < |ys|
      ensures Le(ys[j].key, dir[f].end) && (f > 0 ==> Lt(dir[f - 1].end, ys[j].key))
    {
      assert ys[j] == head[a + j];
      assert j > 0 ==> Lt(head[a].key, head[a + j].key);
    }
  }

  // ---- one place too far in front ------------------------------------------------------------------

  /** The store with the end of file t moved up to the key. */
  ghost function Stretched(s: Store, t: nat, key: Key): Store
    requires t < |s.dir| && s.dir[t].name in s.files
  {
    var f := s.files[s.dir[t].name];
    s.(dir := s.dir[t := s.dir[t].(end := key)],
       files := s.files[s.dir[t].name := f.(footer := f.footer.(key := key))])
  }

  /** A key between two files: above the end of file t, below every key of the file behind it. */
  ghost predicate FitsBehind(s: Store, t: nat, key: Key) {
    && t + 1 < |s.dir|
    && Lt(s.dir[t].end, key) && Lt(key, s.dir[t + 1].end) && AllAbove(FileRecs(s.files, s.dir[t + 1]), key)
  }

  lemma {:induction false} EndRead(f: Image, key: Key)
    ensures ReadAll(f.(footer := f.footer.(key := key))) == ReadAll(f)
  {
    var g := f.(footer := f.footer.(key := key));
    assert forall i :: 0 <= i < f.footer.count ==> ReadRec(g, i) == ReadRec(f, i);
  }

  lemma {:induction false} StretchedRecs(s: Store, t: nat, key: Key, j: nat)
    requires Inv(s) && t < |s.dir| && j < |s.dir| && s.dir[t].name in s.files
    ensures var s' := Stretched(s, t, key);
            && FileRecs(s'.files, s'.dir[j]) == FileRecs(s.files, s.dir[j])
            && s'.dir[j].name == s.dir[j].name
  {
    hide Inv;
    hide ReadAll;
    InvNames(s);
    var f := s.files[s.dir[t].name];
    EndRead(f, key);
    if j != t {
      OtherFileStays(s.files, s.dir[t].name, f.(footer := f.footer.(key := key)), s.dir[j]);
    }
  }

  lemma {:induction false} StretchedEnds(dir: seq<MetaNode>, t: nat, key: Key)
    requires EndsRise(dir) && NamesOk(dir) && LsnsOk(dir) && t + 1 < |dir|
    requires Lt(dir[t].end, key) && Lt(key, dir[t + 1].end)
    ensures var d := dir[t := dir[t].(end := key)];
            EndsRise(d) && NamesOk(d) && LsnsOk(d) && NameSet(d) == NameSet(dir)
  {
    hide Lt;
    hide NumberedBelow;
    LtIsStrictTotalOrder();
    var d := dir[t := dir[t].(end := key)];
    forall i, j | 0 <= i < j < |d|
      ensures Lt(d[i].end, d[j].end)
    {
      if i == t && j > t + 1 {
        assert Lt(dir[t + 1].end, dir[j].end);
      }
    }
    assert forall i :: 0 <= i < |dir| ==> d[i].name == dir[i].name;
  }

  lemma {:induction false} StretchedFile(s: Store, t: nat, key: Key, j: nat)
    requires Inv(s) && FitsBehind(s, t, key) && j < |s.dir| && s.dir[t].name in s.files
    ensures FileOk(Stretched(s, t, key), j)
  {
    hide Lt;
    hide ReadAll;
    hide FileRecs;
    hide Sorted;
    hide Fit;
    hide EndsRise;
    hide LsnsOk;
    hide FilesOk;
    hide NumberedBelow;
    StretchedRecs(s, t, key, j);
    assert FileOk(s, j);
    LtIsStrictTotalOrder();
    var s' := Stretched(s, t, key);
    assert j > 0 && j != t + 1 ==> s'.dir[j - 1].end == s.dir[j - 1].end;
    assert s.dir[j].name in s'.files;
  }

  /** The key fits behind file t: stretching the file up to it keeps the invariant. */
  lemma {:induction false} StretchedInv(s: Store, t: nat, key: Key)
    requires Inv(s) && FitsBehind(s, t, key)
    ensures s.dir[t].name in s.files
    ensures var s' := Stretched(s, t, key);
            && Inv(s') && Flat(s'.dir, s'.files) == Flat(s.dir, s.files)
            && FileRecs(s'.files, s'.dir[t]) == FileRecs(s.files, s.dir[t])
  {
    hide Lt;
    hide FileRecs;
    hide FileOk;
    hide Flat;
    hide EndsRise;
    hide NamesOk;
    hide LsnsOk;
    hide NameSet;
    FileOf(s, t);
    var s' := Stretched(s, t, key);
    StretchedEnds(s.dir, t, key);
    forall j | 0 <= j < |s.dir|
      ensures FileOk(s', j)
      ensures FileRecs(s'.files, s'.dir[j]) == FileRecs(s.files, s.dir[j])
    {
      StretchedFile(s, t, key, j);
      StretchedRecs(s, t, key, j);
    }
    FlatSame(s'.dir, s.dir, s'.files, s.files);
  }

  // ---- what the misplaced record does ---------------------------------------------------------------

  lemma {:induction false} LandsBehind(s: Store, t: nat, cur: Rec)
    requires Inv(s) && t < |s.dir| && Lt(s.dir[t].end, cur.key)
    ensures var l := FileRecs(s.files, s.dir[t]);
            && l != [] && Upsert(l, cur) == l + [cur] && AllBelow(l, cur.key)
            && Adds(l + [cur]) == l + Adds([cur]) && Adds(l + [cur]) != []
  {
    hide Lt;
    hide Adds;
    hide EndsRise;
    LtIsStrictTotalOrder();
    assert FileOk(s, t);
    hide FileRecs;
    var l := FileRecs(s.files, s.dir[t]);
    UpsertBehind(l, cur);
    AddsConcat(l, [cur]);
    AddsOfAdds(l);
  }

  /** The flush of an uncut run under another file's name: that file takes it over, and its end. */
  lemma {:induction false} FlushInto(s: Store, t: nat, run: seq<Rec>)
    requires Inv(s) && t < |s.dir| && s.name == s.dir[t].name
    requires run != [] && Adds(run) != [] && |run| <= 2 * s.maxCount
    ensures s.maxCount > 0
    ensures FlushMerge(s, run) == Done(Overwritten(s, t, run))
  {
    hide Overwritten;
    hide Write;
    hide WriteNew;
    hide Adds;
    hide FlushMerge;
    InvPositive(s);
    InvNames(s);
    hide Inv;
    FlushMergeUnfolds(s, run);
    ChunksConserve(run, s.maxCount);
    WriteOverIs(s, t, run);
    assert [run][1..] == [];
    NoMoreChunks(Overwritten(s, t, run), []);
  }

  /** Ends that do not rise, or keys of the next file at or below the new end: the invariant is gone. */
  lemma {:induction false} MisplacedSpoils(s: Store, t: nat, run: seq<Rec>)
    requires Inv(s) && t + 1 < |s.dir| && run != []
    requires !FitsBehind(s, t, LastKey(run)) && Lt(s.dir[t].end, LastKey(run))
    ensures !Inv(Overwritten(s, t, run))
  {
    hide Lt;
    hide FileRecs;
    hide WriteImage;
    hide BufferAfter;
    hide Inv;
    var r := Overwritten(s, t, run);
    if Inv(r) {
      InvNames(s);
      OtherFileStays(s.files, s.dir[t].name, WriteImage(run, s.buf), s.dir[t + 1]);
      FileRange(r, t + 1);
      assert false;
    }
  }

  lemma {:induction false} SameOverwritten(s: Store, t: nat, run: seq<Rec>, key: Key)
    requires t < |s.dir| && s.dir[t].name in s.files && run != []
    ensures Overwritten(Stretched(s, t, key), t, run) == Overwritten(s, t, run)
  {
    hide WriteImage;
    hide BufferAfter;
  }

  lemma {:induction false} UpsertOne(s: seq<Rec>, r: Rec)
    ensures UpsertAll(s, [r]) == Upsert(s, r)
  {
    assert [r][..0] == [];
    assert UpsertAll(s, []) == s;
  }

  lemma {:induction false} StretchedParts(s: Store, t: nat, key: Key)
    requires t < |s.dir| && s.dir[t].name in s.files
    ensures var s' := Stretched(s, t, key);
            && |s'.dir| == |s.dir| && s'.dir[t].name == s.dir[t].name && s'.dir[t].end == key
            && s'.name == s.name && s'.maxCount == s.maxCount && s'.maxFiles == s.maxFiles
  {
  }

  lemma {:induction false} RunBehind(s: Store, t: nat, cur: Rec)
    requires Inv(s) && t < |s.dir| && s.dir[t].end == cur.key
    ensures Within([cur], s.dir, t, cur.key)
    ensures var run := UpsertAll(FileRecs(s.files, s.dir[t]), [cur]);
            run != [] && Sorted(run) && Within(run, s.dir, t, cur.key)
  {
    hide Lt;
    hide FileRecs;
    hide UpsertAll;
    hide Inv;
    FileOf(s, t);
    FileWithin(s, t);
    if t > 0 {
      FileRange(s, t);
    }
    var l := FileRecs(s.files, s.dir[t]);
    WithinUpsertAll(l, [cur], s.dir, t, cur.key);
    UpsertAllSorted(l, [cur]);
    UpsertAllHolds(l, [cur]);
  }

  /** Where the key fits, the record may go into the file in front as well. */
  lemma {:induction false} FitsSo(s: Store, t: nat, cur: Rec)
    requires Inv(s) && FitsBehind(s, t, cur.key) && s.name == s.dir[t].name && |s.dir| < s.maxFiles
    requires var run := FileRecs(s.files, s.dir[t]) + [cur];
             |run| <= 2 * s.maxCount && ChunksFit([run])
    ensures var r := Overwritten(s, t, FileRecs(s.files, s.dir[t]) + [cur]);
            Inv(r) && Flat(r.dir, r.files) == Merged(Flat(s.dir, s.files), [cur])
            && r.maxCount == s.maxCount && r.maxFiles == s.maxFiles
  {
    hide Lt;
    hide Inv;
    hide FileRecs;
    hide Flat;
    hide Merged;
    hide Upsert;
    hide Adds;
    hide Overwritten;
    hide Stretched;
    hide ChunksFit;
    hide FlushMerge;
    hide Within;
    hide Sorted;
    hide UpsertAll;
    hide AllHaveAdds;
    InvPositive(s);
    LandsBehind(s, t, cur);
    StretchedInv(s, t, cur.key);
    var l := FileRecs(s.files, s.dir[t]);
    var run := l + [cur];
    var s' := Stretched(s, t, cur.key);
    StretchedParts(s, t, cur.key);
    RunBehind(s', t, cur);
    UpsertOne(l, cur);
    ChunksConserve(run, s.maxCount);
    FlushCollected(s', t, [cur]);
    FlushInto(s', t, run);
    FlatMerged(s', t, [cur]);
    SameOverwritten(s, t, run, cur.key);
  }

  // ---- the whole merge ---------------------------------------------------------------------------------

  /** The store that the head leaves, with the name of place t current. */
  ghost function Renamed(s: Store, t: nat): Store
    requires t < |s.dir|
  {
    s.(name := s.dir[t].name)
  }

  lemma {:induction false} RenamedKeeps(s: Store, t: nat, key: Key)
    requires Inv(s) && t < |s.dir|
    ensures var s' := Renamed(s, t);
            && Inv(s') && s'.dir == s.dir && s'.files == s.files && s'.name == s'.dir[t].name
            && s'.maxCount == s.maxCount && s'.maxFiles == s.maxFiles
            && (FitsBehind(s', t, key) <==> FitsBehind(s, t, key))
  {
    hide Lt;
    hide FileRecs;
    hide Inv;
    InvIgnoresRest(s, s.(name := s.dir[t].name));
  }

  /** The place n in front of the key's file takes the key exactly if n is 1 and the key is below
      every key of that file. */
  lemma {:induction false} FitsBehindIff(st: Store, head: seq<Rec>, cur: Rec, f: nat, t: nat, s: Store)
    requires OneMore(st, head, cur, f, t) && st.maxCount > 0 && Left(st, head, f, s)
    requires |Parts(st, head, f)| > 1
    ensures t < |s.dir| && Lt(s.dir[t].end, cur.key) && t + 1 < |s.dir|
    ensures FitsBehind(s, t, cur.key) <==>
              |Parts(st, head, f)| == 2 && AllAbove(FileRecs(st.files, st.dir[t]), cur.key)
  {
    hide Lt;
    hide Walkable;
    hide Inv;
    hide Flat;
    hide Merged;
    hide Sorted;
    hide Search;
    hide Parts;
    hide HoldsChunks;
    hide MovedBack;
    hide FileRecs;
    hide EndsRise;
    hide AllAbove;
    LandsThere(st, head, cur, f, t, s);
    var n := |Parts(st, head, f)| - 1;
    InvEnds(s);
    EndsUpTo(s.dir, t, t + n - 1, cur.key);
    if n == 1 {
      if AllAbove(FileRecs(s.files, s.dir[t + 1]), cur.key) {
        AboveSome(s, t + 1, cur.key);
      }
    } else {
      EndsUpTo(s.dir, t + 1, t + n - 1, cur.key);
      LtAsymmetric(s.dir[t + 1].end, cur.key);
    }
  }

  lemma {:induction false} EndsUpTo(dir: seq<MetaNode>, i: nat, j: nat, key: Key)
    requires EndsRise(dir) && i <= j < |dir| && Lt(dir[j].end, key)
    ensures Lt(dir[i].end, key)
  {
    hide Lt;
    LtIsStrictTotalOrder();
  }

  lemma {:induction false} AboveSome(s: Store, i: nat, key: Key)
    requires Inv(s) && i < |s.dir| && AllAbove(FileRecs(s.files, s.dir[i]), key)
    ensures Lt(key, s.dir[i].end)
  {
    hide Lt;
    hide Inv;
    hide FileRecs;
    LtIsStrictTotalOrder();
    SomeKeyUpToEnd(s, i);
    assert Lt(key, FileRecs(s.files, s.dir[i])[0].key);
  }

  lemma {:induction false} SomeKeyUpToEnd(s: Store, i: nat)
    requires Inv(s) && i < |s.dir|
    ensures var l := FileRecs(s.files, s.dir[i]); l != [] && Le(l[0].key, s.dir[i].end)
  {
    hide FileRecs;
    hide Lt;
    assert FileOk(s, i);
  }

  lemma {:induction false} MergedWhole(st: Store, s: Store, r: Store, head: seq<Rec>, cur: Rec)
    requires Inv(st) && Flat(s.dir, s.files) == Merged(Flat(st.dir, st.files), head)
    requires Flat(r.dir, r.files) == Merged(Flat(s.dir, s.files), [cur])
    ensures Contents(r) == Overlay(Contents(st), head + [cur])
  {
    hide Inv;
    hide Flat;
    hide Contents;
    hide Overlay;
    hide Merged;
    FlatSorted(st);
    MergedTwice(Flat(st.dir, st.files), head, [cur]);
    MergedOverlays(st, r, head + [cur]);
  }

  /** Nothing was cut: the last record goes into its own file. */
  lemma {:induction false} RightPlace(st: Store, head: seq<Rec>, cur: Rec, f: nat, t: nat, s: Store)
    requires OneMore(st, head, cur, f, t) && st.maxCount > 0 && Left(st, head, f, s)
    requires |Parts(st, head, f)| == 1 && LandingFits(st, head, cur, f, t)
    ensures t < |s.dir| && s.maxCount > 0
    ensures var run := Upsert(FileRecs(st.files, st.dir[t]), cur);
            var o := FlushMerge(Renamed(s, t), Upsert(FileRecs(s.files, s.dir[t]), cur));
            && (o.Done? <==> AllHaveAdds(Chunks(run, st.maxCount)))
            && (o.Done? ==> Inv(o.store) && Contents(o.store) == Overlay(Contents(st), head + [cur]))
  {
    hide Lt;
    hide Walkable;
    hide Inv;
    hide Flat;
    hide FileRecs;
    hide Merged;
    hide Sorted;
    hide Search;
    hide Parts;
    hide HoldsChunks;
    hide MovedBack;
    hide Chunks;
    hide ChunksFit;
    hide AllHaveAdds;
    hide Upsert;
    hide UpsertAll;
    hide Within;
    hide Contents;
    hide Overlay;
    hide FlushMerge;
    hide Renamed;
    hide EndsRise;
    LandsThere(st, head, cur, f, t, s);
    WalkableInv(st, head);
    RenamedKeeps(s, t, cur.key);
    var s' := Renamed(s, t);
    UpsertOne(FileRecs(s.files, s.dir[t]), cur);
    InRange(s', t, cur);
    FlushCollected(s', t, [cur]);
    FlatMerged(s', t, [cur]);
    var o := FlushMerge(s', Upsert(FileRecs(s.files, s.dir[t]), cur));
    if o.Done? {
      MergedWhole(st, s, o.store, head, cur);
    }
  }

  lemma {:induction false} InRange(s: Store, t: nat, cur: Rec)
    requires Inv(s) && t < |s.dir| && Le(cur.key, s.dir[t].end) && (t > 0 ==> Lt(s.dir[t - 1].end, cur.key))
    ensures Within([cur], s.dir, t, s.dir[t].end)
    ensures var run := UpsertAll(FileRecs(s.files, s.dir[t]), [cur]);
            s.maxCount > 0 && run != [] && Sorted(run) && Within(run, s.dir, t, s.dir[t].end)
  {
    hide Lt;
    hide FileRecs;
    hide UpsertAll;
    hide Inv;
    InvPositive(s);
    FileOf(s, t);
    FileWithin(s, t);
    var l := FileRecs(s.files, s.dir[t]);
    WithinUpsertAll(l, [cur], s.dir, t, s.dir[t].end);
    UpsertAllSorted(l, [cur]);
    UpsertAllHolds(l, [cur]);
  }

  /** File f was cut: the last record goes into a file in front of its own. */
  lemma {:induction false} WrongPlace(st: Store, head: seq<Rec>, cur: Rec, f: nat, t: nat, s: Store)
    requires OneMore(st, head, cur, f, t) && st.maxCount > 0 && Left(st, head, f, s)
    requires |Parts(st, head, f)| > 1 && LandingFits(st, head, cur, f, t)
    ensures t < |s.dir| && s.maxCount > 0
    ensures var run := FileRecs(s.files, s.dir[t]) + [cur];
            var r := Overwritten(Renamed(s, t), t, run);
            && FlushMerge(Renamed(s, t), Upsert(FileRecs(s.files, s.dir[t]), cur)) == Done(r)
            && (Inv(r) <==> FitsBehind(s, t, cur.key))
            && (FitsBehind(s, t, cur.key) ==> Contents(r) == Overlay(Contents(st), head + [cur]))
  {
    hide Lt;
    hide Walkable;
    hide Inv;
    hide Flat;
    hide FileRecs;
    hide Merged;
    hide Sorted;
    hide Search;
    hide Parts;
    hide HoldsChunks;
    hide MovedBack;
    hide ChunksFit;
    hide Upsert;
    hide Adds;
    hide Within;
    hide Contents;
    hide Overlay;
    hide FlushMerge;
    hide Renamed;
    hide Overwritten;
    hide FitsBehind;
    LandsThere(st, head, cur, f, t, s);
    FitsBehindIff(st, head, cur, f, t, s);
    WalkableInv(st, head);
    RenamedKeeps(s, t, cur.key);
    var s' := Renamed(s, t);
    LandsBehind(s', t, cur);
    var run := FileRecs(s.files, s.dir[t]) + [cur];
    FlushInto(s', t, run);
    if FitsBehind(s, t, cur.key) {
      RoomForCut(st, head, cur, f, t);
      FitsSo(s', t, cur);
      MergedWhole(st, s, Overwritten(s', t, run), head, cur);
    } else {
      MisplacedSpoils(s', t, run);
    }
  }

  lemma {:induction false} RoomForCut(st: Store, head: seq<Rec>, cur: Rec, f: nat, t: nat)
    requires OneMore(st, head, cur, f, t) && st.maxCount > 0
    ensures |st.dir| + |Parts(st, head, f)| <= st.maxFiles
  {
    hide Lt;
    hide Search;
    hide Rebuilt;
    hide Group;
    hide Chunks;
    hide ChunksFit;
    hide Inv;
    WalkableInv(st, head);
    InvEnds(st);
    GroupIn(st.dir, head, f);
  }

  /** A list whose last record alone goes to a later file than the one the merge cuts, or would cut:
      the merge is right exactly if every chunk keeps a record and file f stays whole, or is cut in two
      and the record lies in front of all that its own file holds. */
  lemma {:induction false} CutMergeIff(st: Store, head: seq<Rec>, cur: Rec, f: nat, t: nat)
    requires OneMore(st, head, cur, f, t) && st.maxCount > 0 && LandingFits(st, head, cur, f, t)
    ensures MergesRight(st, head + [cur]) <==>
              && ChunksHaveAddsFrom(st, head, 0)
              && match |Parts(st, head, f)|
                 case 1 => AllHaveAdds(Chunks(Upsert(FileRecs(st.files, st.dir[t]), cur), st.maxCount))
                 case 2 => AllAbove(FileRecs(st.files, st.dir[t]), cur.key)
                 case _ => false
  {
    hide Merge;
    hide Walkable;
    hide Sorted;
    hide Search;
    hide LandingFits;
    hide Left;
    hide Inv;
    hide FileRecs;
    hide Chunks;
    hide Upsert;
    hide Parts;
    hide AllAbove;
    hide AllHaveAdds;
    hide ChunksHaveAddsFrom;
    hide Contents;
    hide Overlay;
    hide FlushMerge;
    hide FitsBehind;
    OneMoreMerge(st, head, cur, f, t);
    if Merge(st, head).Done? {
      var s := Merge(st, head).store;
      if |Parts(st, head, f)| == 1 {
        RightPlace(st, head, cur, f, t, s);
      } else {
        WrongPlace(st, head, cur, f, t, s);
        FitsBehindIff(st, head, cur, f, t, s);
      }
    }
  }

  // ---- a key that is hidden ----------------------------------------------------------------------------

  lemma {:induction false} NotInFront(l: seq<Rec>, cur: Rec, key: Key)
    requires AllBelow(l, key) && Lt(key, cur.key)
    ensures forall x :: x in Adds(l + [cur]) ==> x.key != key
  {
    hide Lt;
    hide Adds;
    LtIrreflexive(key);
    var s := l + [cur];
    forall x | x in Adds(s)
      ensures x.key != key
    {
      var j :| 0 <= j < |s| && s[j] == x;
    }
  }

  /** File f is cut in two, and the last record lands in front of its own file: every key of that file
      below it can be looked up before the merge and not after it, although the list never mentions it. */
  lemma {:induction false} CutHidesKey(st: Store, head: seq<Rec>, cur: Rec, f: nat, t: nat, e: Rec)
    requires OneMore(st, head, cur, f, t) && st.maxCount > 0 && LandingFits(st, head, cur, f, t)
    requires ChunksHaveAddsFrom(st, head, 0) && |Parts(st, head, f)| == 2
    requires e in FileRecs(st.files, st.dir[t]) && Lt(e.key, cur.key) && Lt(cur.key, st.dir[t].end)
    ensures GetOff(st, e.key) == e.val
    ensures Merge(st, head + [cur]).Done? && GetOff(Merge(st, head + [cur]).store, e.key) == 0
  {
    hide Lt;
    hide Merge;
    hide Walkable;
    hide Sorted;
    hide Search;
    hide LandingFits;
    hide Left;
    hide Inv;
    hide FileRecs;
    hide Upsert;
    hide Parts;
    hide ChunksHaveAddsFrom;
    hide Contents;
    hide Overlay;
    hide FlushMerge;
    hide FitsBehind;
    hide GetOff;
    hide Overwritten;
    OneMoreMerge(st, head, cur, f, t);
    var s := Merge(st, head).store;
    WrongPlace(st, head, cur, f, t, s);
    FoundBefore(st, head, cur, f, t, e);
    HiddenBehind(st, head, cur, f, t, s, e);
  }

  lemma {:induction false} FoundBefore(st: Store, head: seq<Rec>, cur: Rec, f: nat, t: nat, e: Rec)
    requires OneMore(st, head, cur, f, t) && e in FileRecs(st.files, st.dir[t])
    ensures GetOff(st, e.key) == e.val
  {
    hide Lt;
    hide Flat;
    hide FileRecs;
    hide GetOff;
    hide Search;
    hide Find;
    hide Inv;
    WalkableInv(st, head);
    FileOf(st, t);
    FlatAround(st.dir, t, st.files);
    FlatSorted(st);
    FindIsMembership(Flat(st.dir, st.files), e.key);
    GetOffIsLookup(st, e.key);
  }

  /** A lookup between the old end and the new one ends in the file that took the record. */
  lemma {:induction false} LookupIn(s: Store, t: nat, run: seq<Rec>, key: Key)
    requires Inv(s) && t + 1 < |s.dir| && ChunkOk(run)
    requires Lt(s.dir[t].end, key) && Le(key, LastKey(run)) && Lt(LastKey(run), s.dir[t + 1].end)
    requires forall x :: x in Adds(run) ==> x.key != key
    ensures GetOff(Overwritten(s, t, run), key) == 0
  {
    hide Lt;
    hide FileOk;
    hide FilesOk;
    hide NumberedBelow;
    hide LsnsOk;
    hide WriteImage;
    hide BufferAfter;
    hide ReadAll;
    hide Search;
    hide Adds;
    hide Fit;
    hide OffsetIn;
    var r := Overwritten(s, t, run);
    LtIsStrictTotalOrder();
    StretchedEnds(s.dir, t, LastKey(run));
    SearchIs(r.dir, key, t);
    WrittenFile(run, s.buf);
    var f := WriteImage(run, s.buf);
    NotThere(ReadAll(f), key);
    OffsetInFinds(f, key, 0, f.footer.count);
  }

  lemma {:induction false} LandedChunk(s: Store, t: nat, cur: Rec)
    requires Inv(s) && t < |s.dir| && Lt(s.dir[t].end, cur.key)
    requires Fit(Adds(FileRecs(s.files, s.dir[t]) + [cur]))
    ensures ChunkOk(FileRecs(s.files, s.dir[t]) + [cur])
  {
    hide Lt;
    hide FileRecs;
    hide Inv;
    hide Fit;
    hide Adds;
    LandsBehind(s, t, cur);
    FileOf(s, t);
    var l := FileRecs(s.files, s.dir[t]);
    UpsertSorted(l, cur);
  }

  lemma {:induction false} OneChunkFits(run: seq<Rec>, m: nat)
    requires m > 0 && |run| <= 2 * m && ChunksFit(Chunks(run, m))
    ensures Fit(Adds(run))
  {
    hide Fit;
    hide Adds;
    assert Chunks(run, m)[0] == run;
  }

  lemma {:induction false} AboveFront(s: Store, t: nat, e: Rec)
    requires Inv(s) && t + 1 < |s.dir| && e in FileRecs(s.files, s.dir[t + 1])
    ensures Lt(s.dir[t].end, e.key) && AllBelow(FileRecs(s.files, s.dir[t]), e.key)
  {
    hide Lt;
    hide FileRecs;
    hide Inv;
    FileRange(s, t + 1);
    FileOf(s, t);
    LtIsStrictTotalOrder();
  }

  lemma {:induction false} HiddenBehind(st: Store, head: seq<Rec>, cur: Rec, f: nat, t: nat, s: Store, e: Rec)
    requires OneMore(st, head, cur, f, t) && st.maxCount > 0 && Left(st, head, f, s)
    requires |Parts(st, head, f)| == 2 && LandingFits(st, head, cur, f, t)
    requires e in FileRecs(st.files, st.dir[t]) && Lt(e.key, cur.key) && Lt(cur.key, st.dir[t].end)
    ensures t < |s.dir|
    ensures GetOff(Overwritten(Renamed(s, t), t, FileRecs(s.files, s.dir[t]) + [cur]), e.key) == 0
  {
    hide Lt;
    hide Walkable;
    hide FileRecs;
    hide Inv;
    hide Flat;
    hide Merged;
    hide Sorted;
    hide Search;
    hide Parts;
    hide HoldsChunks;
    hide MovedBack;
    hide ReadAll;
    hide Fit;
    hide Adds;
    hide GetOff;
    hide FitsBehind;
    LandsThere(st, head, cur, f, t, s);
    FitsBehindIff(st, head, cur, f, t, s);
    RenamedKeeps(s, t, cur.key);
    var s' := Renamed(s, t);
    LandsBehind(s', t, cur);
    AboveFront(s', t, e);
    var run := FileRecs(s.files, s.dir[t]) + [cur];
    OneChunkFits(run, s.maxCount);
    LandedChunk(s', t, cur);
    NotInFront(FileRecs(s.files, s.dir[t]), cur, e.key);
    LookupIn(s', t, run, e.key);
  }
}
