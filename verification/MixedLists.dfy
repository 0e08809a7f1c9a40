// Lists that route partly to existing files and partly behind the last one: the walk
// restarts at the head of the list with the count of what is left.
module MixedLists {
  import opened Keys
  import opened Records
  import opened Merging
  import opened Images
  import opened Metas
  import opened Stores
  import opened StoreLaws
  import opened FlushLaws
  import opened MergeLaws
  import opened MergeTheorem
  import opened RestartLaws

  /** Some key routes to a file and some key lies behind them all. */
  ghost predicate Mixed(dir: seq<MetaNode>, list: seq<Rec>) {
    dir != [] && !AllRoute(dir, list) && !PastEnd(dir, list)
  }

  ghost function LastEnd(dir: seq<MetaNode>): Key
    requires dir != []
  {
    dir[|dir| - 1].end
  }

  /** The records that route to a file. */
  ghost function Head(dir: seq<MetaNode>, list: seq<Rec>): seq<Rec>
    requires dir != []
  {
    list[..UpTo(list, LastEnd(dir))]
  }

  /** What the restart writes: from the head of the list, as many records as lie behind the files. */
  ghost function Restarted(dir: seq<MetaNode>, list: seq<Rec>): seq<Rec>
    requires dir != []
  {
    list[..|list| - |Head(dir, list)|]
  }

  /** What it never reaches. */
  ghost function Lost(dir: seq<MetaNode>, list: seq<Rec>): seq<Rec>
    requires dir != []
  {
    list[|list| - |Head(dir, list)|..]
  }

  /** Where the files end once the routed records are merged in. */
  ghost function EndsAfter(st: Store, list: seq<Rec>): (ends: seq<Key>)
    ensures |ends| == |st.dir|
  {
    seq(|st.dir|, i requires 0 <= i < |st.dir| => EndAfter(st, list, i))
  }

  /** What the restart writes has room and fits the byte format. */
  ghost predicate RestartFits(st: Store, list: seq<Rec>)
    requires st.maxCount > 0 && st.dir != []
  {
    var chunks := Chunks(Restarted(st.dir, list), st.maxCount);
    |st.dir| + |chunks| < st.maxFiles && ChunksFit(chunks)
  }

  /** When the restart is right: every rebuilt file and every chunk keeps a record, the chunks do
      no harm to the files, and nothing is lost but tombstones. */
  ghost predicate RestartIsRight(st: Store, list: seq<Rec>)
    requires st.maxCount > 0 && st.dir != []
  {
    var chunks := Chunks(Restarted(st.dir, list), st.maxCount);
    && ChunksHaveAddsFrom(st, list, 0) && AllHaveAdds(chunks)
    && Harmless(EndsAfter(st, list), chunks, LastEnd(st.dir))
    && Adds(Lost(st.dir, list)) == []
  }

  // ---- the head of the list --------------------------------------------------------------------

  lemma {:induction false} HeadRoutes(dir: seq<MetaNode>, list: seq<Rec>)
    requires EndsRise(dir) && Sorted(list) && list != [] && Mixed(dir, list)
    ensures var head := Head(dir, list);
            && 0 < |head| < |list| && head <= list && Sorted(head) && AllRoute(dir, head)
            && Lt(LastEnd(dir), list[|head|].key)
  {
    hide Lt;
    LtIsStrictTotalOrder();
    var hi := LastEnd(dir);
    var b :| 0 <= b < |list| && !Lt(hi, list[b].key);
    assert 0 < b ==> Lt(list[0].key, list[b].key);
  }

  lemma {:induction false} GroupsOfHead(dir: seq<MetaNode>, list: seq<Rec>, i: nat)
    requires EndsRise(dir) && Sorted(list) && list != [] && Mixed(dir, list) && i < |dir|
    ensures UpTo(Head(dir, list), dir[i].end) == UpTo(list, dir[i].end) <= |Head(dir, list)|
    ensures Group(dir, Head(dir, list), i) == Group(dir, list, i)
    ensures GroupEnd(dir, list, i) < |list|
  {
    hide Lt;
    hide UpTo;
    hide Sorted;
    hide EndsRise;
    hide Mixed;
    hide Head;
    HeadRoutes(dir, list);
    UpToOfHead(dir, list, i);
    if i > 0 {
      UpToOfHead(dir, list, i - 1);
    }
    SameGroup(dir, Head(dir, list), list, i);
  }

  lemma {:induction false} SameGroup(dir: seq<MetaNode>, head: seq<Rec>, list: seq<Rec>, i: nat)
    requires head <= list && i < |dir| && UpTo(head, dir[i].end) == UpTo(list, dir[i].end)
    requires i > 0 ==> UpTo(head, dir[i - 1].end) == UpTo(list, dir[i - 1].end)
    ensures Group(dir, head, i) == Group(dir, list, i)
  {
    hide Lt;
    hide UpTo;
    var a, b := GroupStart(dir, list, i), GroupEnd(dir, list, i);
    if a <= b {
      assert head[a..b] == list[a..b];
    }
  }

  lemma {:induction false} UpToOfHead(dir: seq<MetaNode>, list: seq<Rec>, i: nat)
    requires EndsRise(dir) && Sorted(list) && Mixed(dir, list) && i < |dir|
    requires |Head(dir, list)| < |list| && Lt(LastEnd(dir), list[|Head(dir, list)|].key)
    ensures UpTo(Head(dir, list), dir[i].end) == UpTo(list, dir[i].end) <= |Head(dir, list)|
  {
    hide Lt;
    LtIsStrictTotalOrder();
    var k, u, head := dir[i].end, UpTo(list, dir[i].end), Head(dir, list);
    assert Le(k, LastEnd(dir));
    assert u <= |head|;
    UpToIs(head, k, u);
  }

  /** The head alone is a list the walk handles, and it cuts no file. */
  lemma {:induction false} HeadIsWalkable(st: Store, list: seq<Rec>)
    requires Inv(st) && Sorted(list) && list != [] && Mixed(st.dir, list)
    requires OnlyLastSplits(st, list) && HasRoom(st, list) && WritesFit(st, list)
    ensures var head := Head(st.dir, list);
            && Walkable(st, head) && head != [] && EndsAfter(st, head) == EndsAfter(st, list)
            && (forall i :: 0 <= i < |st.dir| && Group(st.dir, head, i) != [] ==>
                |Rebuilt(st, head, i)| <= 2 * st.maxCount)
            && (ChunksHaveAddsFrom(st, head, 0) <==> ChunksHaveAddsFrom(st, list, 0))
  {
    hide Lt;
    hide FileRecs;
    hide Chunks;
    hide AllHaveAdds;
    hide ChunksFit;
    hide Group;
    hide GroupEnd;
    hide PastEnd;
    hide Sorted;
    hide UpsertAll;
    hide Head;
    InvEnds(st);
    hide Inv;
    hide EndsRise;
    HeadRoutes(st.dir, list);
    var head := Head(st.dir, list);
    forall i | 0 <= i < |st.dir|
      ensures Group(st.dir, head, i) == Group(st.dir, list, i) && GroupEnd(st.dir, list, i) < |list|
    {
      GroupsOfHead(st.dir, list, i);
    }
  }

  // ---- the restart ---------------------------------------------------------------------------------

  lemma {:induction false} RestartsThere(st0: Store, st: Store, head: seq<Rec>, list: seq<Rec>, i: nat, g: nat)
    requires Walkable(st0, head) && Progress(st0, st, head, i, g, |head|)
    requires |head| < |list| && st0.dir != [] && Lt(LastEnd(st0.dir), list[|head|].key)
    ensures Search(st.dir, list[|head|].key) == |st.dir|
  {
    hide Lt;
    hide Walkable;
    hide Progress;
    hide Search;
    ProgressEnds(st0, st, head, i, g, |head|);
    var key := list[|head|].key;
    LtIsStrictTotalOrder();
    assert LastEnd(st.dir) == LastEnd(st0.dir);
    assert forall j :: 0 <= j < |st.dir| - 1 ==> Lt(st.dir[j].end, st.dir[|st.dir| - 1].end);
    SearchPastAll(st.dir, key, 0);
    SearchIs(st.dir, key, |st.dir|);
  }

  lemma {:induction false} WalkOnRestarts(st0: Store, st: Store, head: seq<Rec>, list: seq<Rec>, i: nat, g: nat)
    requires Walkable(st0, head) && Progress(st0, st, head, i, g, |head|)
    requires head <= list && |head| < |list| && st0.dir != [] && Lt(LastEnd(st0.dir), list[|head|].key)
    ensures i < |st.dir| && g <= |head| && st.maxCount > 0
    ensures var run := Collected(st, head, i, g, |head|);
            var o := FlushMerge(st, run);
            && (o.Done? ==> o.store.maxCount > 0)
            && Walk(st, Some(run), list, |head|) == if o.Done? then FlushNew(o.store, list[..|list| - |head|]) else o
  {
    hide Lt;
    hide Walkable;
    hide Progress;
    hide Search;
    hide Walk;
    hide FlushMerge;
    hide FlushNew;
    hide Collected;
    hide Inv;
    ProgressGives(st0, st, head, i, g, |head|);
    RestartsThere(st0, st, head, list, i, g);
    WalkRestarts(st, Some(Collected(st, head, i, g, |head|)), list, |head|);
    assert list[0..0 + (|list| - |head|)] == list[..|list| - |head|];
  }

  /** A mixed merge is the merge of the head, and then the restart. */
  lemma {:induction false} MixedMerge(st: Store, list: seq<Rec>)
    requires Inv(st) && Sorted(list) && list != [] && Mixed(st.dir, list)
    requires OnlyLastSplits(st, list) && HasRoom(st, list) && WritesFit(st, list)
    ensures st.maxCount > 0
    ensures var o := Merge(st, Head(st.dir, list));
            && (o.Stopped? ==> Merge(st, list).Stopped?)
            && (o.Done? ==> o.store.maxCount > 0 && Merge(st, list) == FlushNew(o.store, Restarted(st.dir, list)))
  {
    hide Lt;
    hide Merge;
    hide Walk;
    hide FlushMerge;
    hide FlushNew;
    hide Inv;
    hide Walkable;
    hide Progress;
    hide EndsDone;
    hide Search;
    hide Collected;
    hide Sorted;
    hide Mixed;
    hide Head;
    hide OnlyLastSplits;
    hide HasRoom;
    hide WritesFit;
    hide Group;
    hide Rebuilt;
    hide AllRoute;
    InvEnds(st);
    MixedHasFiles(st.dir, list);
    HeadIsWalkable(st, list);
    HeadRoutes(st.dir, list);
    var head := Head(st.dir, list);
    var stops, stE, i, g := MergeReaches(st, head, list);
    if !stops {
      WalkOnRestarts(st, stE, head, list, i, g);
    }
  }

  lemma {:induction false} MixedHasFiles(dir: seq<MetaNode>, list: seq<Rec>)
    requires Mixed(dir, list)
    ensures dir != []
  {
  }

  /** Where the files end after the head was merged. */
  lemma {:induction false} HeadEnds(st: Store, head: seq<Rec>)
    requires Walkable(st, head) && head != [] && st.maxCount > 0
    requires forall i :: 0 <= i < |st.dir| && Group(st.dir, head, i) != [] ==> |Rebuilt(st, head, i)| <= 2 * st.maxCount
    ensures Merge(st, head).Done? ==> EndKeys(Merge(st, head).store.dir) == EndsAfter(st, head)
  {
    hide Walkable;
    hide Progress;
    hide EndsDone;
    hide Merge;
    hide FlushMerge;
    hide Collected;
    hide Group;
    hide Rebuilt;
    var stops, stE, i, g := MergeReaches(st, head, head);
    if !stops && Merge(st, head).Done? {
      LastGroupCloses(st, stE, head, i, g);
      EndsAllDone(st, stE, head, i, g);
    }
  }

  lemma {:induction false} LastGroupCloses(st0: Store, st: Store, head: seq<Rec>, i: nat, g: nat)
    requires Walkable(st0, head) && Progress(st0, st, head, i, g, |head|)
    requires forall j :: 0 <= j < |st0.dir| && Group(st0.dir, head, j) != [] ==>
             |Rebuilt(st0, head, j)| <= 2 * st0.maxCount
    ensures st.maxCount > 0 && i < |st.dir|
    ensures Collected(st, head, i, g, |head|) == Rebuilt(st0, head, i) != [] && Group(st0.dir, head, i) != []
    ensures var o := FlushMerge(st, Rebuilt(st0, head, i));
            o.Done? ==> o.store == Overwritten(st, i, Rebuilt(st0, head, i))
  {
    hide Walkable;
    hide Progress;
    hide Group;
    hide FlushMerge;
    hide FileRecs;
    hide UpsertAll;
    hide Chunks;
    hide ChunksFit;
    hide AllHaveAdds;
    hide Inv;
    hide Flat;
    hide Merged;
    hide Sorted;
    hide Within;
    hide Overwritten;
    ProgressGives(st0, st, head, i, g, |head|);
    ProgressEnds(st0, st, head, i, g, |head|);
    CollectedIsGroup(st0, st, head, i, g, |head|);
    CollectedFits(st0, st, head, i, g, |head|);
    FlushCollected(st, i, head[g..|head|]);
  }

  lemma {:induction false} EndsAllDone(st0: Store, st: Store, head: seq<Rec>, i: nat, g: nat)
    requires Walkable(st0, head) && Progress(st0, st, head, i, g, |head|) && EndsDone(st0, st, head, i)
    requires i < |st.dir| && Rebuilt(st0, head, i) != [] && Group(st0.dir, head, i) != []
    ensures EndKeys(Overwritten(st, i, Rebuilt(st0, head, i)).dir) == EndsAfter(st0, head)
  {
    hide Lt;
    hide Walkable;
    hide Progress;
    hide Rebuilt;
    hide Group;
    hide WriteImage;
    hide BufferAfter;
    hide UpTo;
    hide EndsRise;
    hide Sorted;
    hide Inv;
    hide Flat;
    hide Merged;
    ProgressGives(st0, st, head, i, g, |head|);
    ProgressEnds(st0, st, head, i, g, |head|);
    InvEnds(st0);
    forall j | i < j < |st0.dir|
      ensures Group(st0.dir, head, j) == []
    {
      NoGroupAt(st0.dir, head, i, j);
    }
  }

  /** Before the restart: the head is merged in, and all of it lies up to the old last end. */
  lemma {:induction false} BeforeRestart(st: Store, list: seq<Rec>)
    requires Inv(st) && Sorted(list) && list != [] && Mixed(st.dir, list)
    requires OnlyLastSplits(st, list) && HasRoom(st, list) && WritesFit(st, list)
    ensures st.maxCount > 0
    ensures var head := Head(st.dir, list);
            var o := Merge(st, head);
            && (o.Done? <==> ChunksHaveAddsFrom(st, list, 0))
            && (o.Done? ==>
                  && MergedInto(st, o, head) && Contents(o.store) == Overlay(Contents(st), head)
                  && EndKeys(o.store.dir) == EndsAfter(st, list)
                  && |o.store.dir| == |st.dir| && Le(LastEnd(o.store.dir), LastEnd(st.dir)))
  {
    hide Lt;
    hide Merge;
    hide Inv;
    hide Walkable;
    hide Sorted;
    hide Mixed;
    hide Head;
    hide OnlyLastSplits;
    hide HasRoom;
    hide WritesFit;
    hide Group;
    hide Rebuilt;
    hide AllRoute;
    hide Mergeable;
    hide MergedInto;
    hide EndAfter;
    hide Overlay;
    hide Contents;
    hide PastEnd;
    hide ChunksHaveAddsFrom;
    InvEnds(st);
    MixedHasFiles(st.dir, list);
    HeadIsWalkable(st, list);
    HeadRoutes(st.dir, list);
    var head := Head(st.dir, list);
    WalkableMergeable(st, head);
    MergeCorrect(st, head);
    MergeOverlays(st, head);
    NotBoth(st.dir, head);
    EveryChunkOfRouted(st, head);
    HeadEnds(st, head);
    if Merge(st, head).Done? {
      var d := Merge(st, head).store.dir;
      assert |d| == |EndKeys(d)| == |st.dir|;
      assert EndKeys(d)[|d| - 1] == LastEnd(d);
      LastEndFalls(st, head, |d| - 1);
    }
  }

  lemma {:induction false} EveryChunkOfRouted(st: Store, head: seq<Rec>)
    requires st.maxCount > 0 && !PastEnd(st.dir, head)
    ensures EveryChunkHasAdds(st, head) <==> ChunksHaveAddsFrom(st, head, 0)
  {
    hide ChunksHaveAddsFrom;
  }

  /** A file never ends later than before. */
  lemma {:induction false} LastEndFalls(st: Store, head: seq<Rec>, i: nat)
    requires Inv(st) && i < |st.dir| && Sorted(head)
    ensures Le(EndAfter(st, head, i), st.dir[i].end)
  {
    hide Lt;
    hide Inv;
    hide FileRecs;
    hide UpsertAll;
    FileOf(st, i);
    var s, ys := FileRecs(st.files, st.dir[i]), Group(st.dir, head, i);
    UpsertAllSorted(s, ys);
    var run := UpsertAll(s, ys);
    if run != [] {
      assert run[|run| - 1] in run;
    }
  }

  // ---- the law is exact --------------------------------------------------------------------------

  /** A store that holds the head as a map has each of its ADD records in a file. */
  lemma {:induction false} AddIsStored(st: Store, st1: Store, head: seq<Rec>, r: Rec)
    requires Inv(st1) && Sorted(head) && Contents(st1) == Overlay(Contents(st), head) && r in head && r.opt == ADD
    ensures Stored(st1, r)
  {
    hide Lt;
    hide Inv;
    hide Flat;
    hide Overlay;
    hide FileRecs;
    FlatSorted(st1);
    var flat := Flat(st1.dir, st1.files);
    FindIsMembership(head, r.key);
    OverlayAt(Contents(st), head, r.key);
    FindIsMembership(flat, r.key);
    OverlayAt(map[], flat, r.key);
    assert r in flat;
    assert st1.dir[..|st1.dir|] == st1.dir;
    var i := FlatRecInFile(st1, |st1.dir|, r);
  }

  /** Every ADD record of the list up to the old last end is stored when the restart begins. */
  lemma {:induction false} HeadIsStored(st: Store, st1: Store, list: seq<Rec>, run: seq<Rec>)
    requires Inv(st) && Sorted(list) && list != [] && Mixed(st.dir, list) && run <= list && st.dir != []
    requires Inv(st1) && Contents(st1) == Overlay(Contents(st), Head(st.dir, list))
    ensures HeadStored(st1, run, LastEnd(st.dir))
  {
    hide Lt;
    hide Inv;
    hide Mixed;
    hide Contents;
    hide Overlay;
    hide Stored;
    InvEnds(st);
    var hi, head := LastEnd(st.dir), Head(st.dir, list);
    HeadRoutes(st.dir, list);
    forall r | r in run && r.opt == ADD && Le(r.key, hi)
      ensures Stored(st1, r)
    {
      var j :| 0 <= j < |run| && run[j] == r;
      assert list[j] == r;
      LtAsymmetricAt(list, hi, |head|, j);
      assert head[j] == r;
      AddIsStored(st, st1, head, r);
    }
  }

  lemma {:induction false} LtAsymmetricAt(list: seq<Rec>, hi: Key, n: nat, j: nat)
    requires Sorted(list) && n < |list| && j < |list| && Lt(hi, list[n].key) && Le(list[j].key, hi)
    ensures j < n
  {
    hide Lt;
    LtIsStrictTotalOrder();
  }

  lemma {:induction false} NoAddsStops(st: Store, chunks: seq<seq<Rec>>)
    requires !AllHaveAdds(chunks)
    ensures WriteNew(st, chunks).Stopped?
    decreases |chunks|
  {
    hide Write;
    hide Adds;
    hide FileName;
    HeadAndTail(chunks);
    if chunks == [] {
      NoChunks(chunks);
    } else if Adds(chunks[0]) == [] {
      NoAddsNoWrite(st, chunks[0], true);
    } else {
      var o := Write(st.(name := FileName(|st.dir|)), chunks[0], true);
      if o.Done? {
        NoAddsStops(o.store, chunks[1..]);
      }
    }
  }

  /** Harmless chunks reach behind hi. */
  lemma {:induction false} HarmlessReaches(ends: seq<Key>, chunks: seq<seq<Rec>>, hi: Key)
    requires Harmless(ends, chunks, hi) && Sorted(Concat(chunks))
    ensures Behind(Concat(chunks), hi) != []
    decreases |chunks|
  {
    hide Lt;
    var c, rest := chunks[0], chunks[1..];
    FirstAndRest(chunks);
    SortedParts(c, Concat(rest));
    if Le(LastKey(c), hi) {
      HarmlessReaches(ends, rest, hi);
      BehindConcat(c, Concat(rest), hi);
    } else {
      LtTotal(LastKey(c), hi);
      BehindCuts(c, Concat(rest), hi);
      LtAsymmetric(hi, LastKey(c));
    }
  }

  lemma {:induction false} RestartRun(st: Store, list: seq<Rec>)
    requires Inv(st) && Sorted(list) && list != [] && Mixed(st.dir, list) && st.dir != [] && st.maxCount > 0
    ensures var run := Restarted(st.dir, list);
            var chunks := Chunks(run, st.maxCount);
            && run <= list && run != [] && Sorted(run) && Concat(chunks) == run
            && chunks != [] && forall i :: 0 <= i < |chunks| ==> chunks[i] != []
  {
    hide Lt;
    hide Inv;
    hide Mixed;
    hide Head;
    hide Chunks;
    hide Concat;
    InvEnds(st);
    HeadRoutes(st.dir, list);
    ChunksConserve(Restarted(st.dir, list), st.maxCount);
  }

  /** Where a harmless restart cuts the list: behind the head. */
  lemma {:induction false} RestartBehindHead(dir: seq<MetaNode>, list: seq<Rec>)
    requires EndsRise(dir) && Sorted(list) && list != [] && Mixed(dir, list) && dir != []
    requires Behind(Restarted(dir, list), LastEnd(dir)) != []
    ensures var tail := list[|Head(dir, list)|..];
            && list == Head(dir, list) + tail && Sorted(tail)
            && tail == Behind(Restarted(dir, list), LastEnd(dir)) + Lost(dir, list)
            && forall r :: r in tail ==> Lt(LastEnd(dir), r.key)
  {
    hide Lt;
    hide Mixed;
    HeadRoutes(dir, list);
    var hi, pos, n := LastEnd(dir), |Head(dir, list)|, |list| - |Head(dir, list)|;
    var u := UpTo(list[..n], hi);
    LtIsStrictTotalOrder();
    assert list[u].key == list[..n][u].key;
    assert Lt(hi, list[u].key);
    assert forall j :: 0 <= j < pos ==> Le(list[j].key, hi);
    assert forall j :: 0 <= j < u ==> Le(list[..n][j].key, hi) && list[..n][j] == list[j];
    assert u == pos;
    forall r | r in list[pos..]
      ensures Lt(hi, r.key)
    {
      var j :| 0 <= j < |list[pos..]| && list[pos..][j] == r;
      assert j > 0 ==> Lt(list[pos].key, list[pos + j].key);
    }
  }

  /** No key behind hi is in files that end up to hi. */
  lemma {:induction false} NotStoredBehind(st: Store, hi: Key, tail: seq<Rec>)
    requires Inv(st) && st.dir != [] && Le(LastEnd(st.dir), hi) && forall r :: r in tail ==> Lt(hi, r.key)
    ensures forall r :: r in tail ==> r.key !in Contents(st)
  {
    hide Lt;
    hide Inv;
    hide Flat;
    hide Overlay;
    FlatPrefix(st, |st.dir|);
    assert st.dir[..|st.dir|] == st.dir;
    var flat := Flat(st.dir, st.files);
    forall r | r in tail
      ensures r.key !in Contents(st)
    {
      OverlayAt(map[], flat, r.key);
      FindIsMembership(flat, r.key);
      LtIsStrictTotalOrder();
    }
  }

  /** The chunks of the restart do no harm to the store that the head leaves, and nothing is lost but
      tombstones. */
  ghost predicate RestartFine(st: Store, list: seq<Rec>, st1: Store)
    requires st.maxCount > 0 && st.dir != []
  {
    var chunks := Chunks(Restarted(st.dir, list), st.maxCount);
    && AllHaveAdds(chunks) && Harmless(EndKeys(st1.dir), chunks, LastEnd(st.dir))
    && Adds(Lost(st.dir, list)) == []
  }

  /** The state before the restart: the head is merged in, and no file ends behind the old last one. */
  ghost predicate ReadyToRestart(st: Store, list: seq<Rec>, st1: Store) {
    && Inv(st) && Sorted(list) && list != [] && Mixed(st.dir, list) && st.maxCount > 0 && st.dir != []
    && Inv(st1) && st1.dir != [] && st1.maxCount == st.maxCount && Le(LastEnd(st1.dir), LastEnd(st.dir))
    && Contents(st1) == Overlay(Contents(st), Head(st.dir, list))
    && Merge(st, list) == FlushNew(st1, Restarted(st.dir, list))
    && var chunks := Chunks(Restarted(st.dir, list), st.maxCount);
       |st1.dir| + |chunks| < st1.maxFiles && ChunksFit(chunks)
  }

  lemma {:induction false} RestartWrites(st: Store, list: seq<Rec>, st1: Store)
    requires ReadyToRestart(st, list, st1)
    ensures var run, hi := Restarted(st.dir, list), LastEnd(st.dir);
            var chunks := Chunks(run, st.maxCount);
            var ok := AllHaveAdds(chunks) && Harmless(EndKeys(st1.dir), chunks, hi);
            && ((Merge(st, list).Done? && Inv(Merge(st, list).store)) <==> ok)
            && (ok ==> Behind(run, hi) != []
                       && Contents(Merge(st, list).store) == Overlay(Contents(st1), Adds(Behind(run, hi))))
  {
    hide Lt;
    hide Merge;
    hide Inv;
    hide Flat;
    hide Overlay;
    hide Adds;
    hide Mixed;
    hide Head;
    hide Behind;
    hide Chunks;
    hide Concat;
    hide WriteNew;
    hide EndKeys;
    hide AllHaveAdds;
    hide ChunksFit;
    hide Harmless;
    hide HeadStored;
    hide Sorted;
    RestartRun(st, list);
    var run, hi := Restarted(st.dir, list), LastEnd(st.dir);
    var chunks := Chunks(run, st.maxCount);
    HeadIsStored(st, st1, list, run);
    if AllHaveAdds(chunks) {
      RestartIff(st1, chunks, hi);
      if Harmless(EndKeys(st1.dir), chunks, hi) {
        HarmlessReaches(EndKeys(st1.dir), chunks, hi);
        OverlayConcat(map[], Flat(st1.dir, st1.files), Adds(Behind(run, hi)));
      }
    } else {
      NoAddsStops(st1, chunks);
    }
  }

  lemma {:induction false} RestartRightIff(st: Store, list: seq<Rec>, st1: Store)
    requires ReadyToRestart(st, list, st1)
    ensures MergesRight(st, list) <==> RestartFine(st, list, st1)
  {
    hide Lt;
    hide Merge;
    hide Inv;
    hide Contents;
    hide Overlay;
    hide Adds;
    hide Mixed;
    hide Head;
    hide Restarted;
    hide Lost;
    hide Behind;
    hide Chunks;
    hide ChunksFit;
    hide FlushNew;
    hide EndKeys;
    hide AllHaveAdds;
    hide Harmless;
    hide Sorted;
    RestartWrites(st, list, st1);
    var head, run, hi := Head(st.dir, list), Restarted(st.dir, list), LastEnd(st.dir);
    var chunks := Chunks(run, st.maxCount);
    if AllHaveAdds(chunks) && Harmless(EndKeys(st1.dir), chunks, hi) {
      InvEnds(st);
      RestartBehindHead(st.dir, list);
      var tail := list[|head|..];
      NotStoredBehind(st1, hi, tail);
      TailIsLostIff(Contents(st1), Behind(run, hi), Lost(st.dir, list));
      OverlayConcat(Contents(st), head, tail);
    }
  }

  lemma {:induction false} MixedRightIff(st: Store, list: seq<Rec>)
    requires Inv(st) && Sorted(list) && list != [] && Mixed(st.dir, list)
    requires OnlyLastSplits(st, list) && HasRoom(st, list) && WritesFit(st, list)
    requires st.maxCount > 0 && st.dir != [] && RestartFits(st, list)
    ensures MergesRight(st, list) <==> RestartIsRight(st, list)
  {
    hide Lt;
    hide Merge;
    hide Inv;
    hide Contents;
    hide Overlay;
    hide Adds;
    hide Mixed;
    hide Head;
    hide Restarted;
    hide Lost;
    hide Chunks;
    hide ChunksFit;
    hide FlushNew;
    hide OnlyLastSplits;
    hide HasRoom;
    hide WritesFit;
    hide ChunksHaveAddsFrom;
    hide EndsAfter;
    hide EndKeys;
    hide Flat;
    hide Merged;
    hide AllHaveAdds;
    hide Harmless;
    hide Sorted;
    MixedMerge(st, list);
    BeforeRestart(st, list);
    if Merge(st, Head(st.dir, list)).Done? {
      var st1 := Merge(st, Head(st.dir, list)).store;
      SameSize(st1, st);
      RestartRightIff(st, list, st1);
    }
  }

  lemma {:induction false} SameSize(a: Store, b: Store)
    ensures |a.dir| == |b.dir| && b.dir != [] ==> a.dir != []
  {
  }

  /** For lists that cut at most the last file they touch: a merge is right exactly if, the keys
      routing uniformly, every chunk keeps a record, or else the restart is right. */
  lemma {:induction false} MergesRightIff(st: Store, list: seq<Rec>)
    requires Inv(st) && Sorted(list) && list != []
    requires OnlyLastSplits(st, list) && HasRoom(st, list) && WritesFit(st, list)
    requires Mixed(st.dir, list) ==> RestartFits(st, list)
    ensures st.maxCount > 0
    ensures MergesRight(st, list) <==> if Mixed(st.dir, list) then RestartIsRight(st, list)
            else EveryChunkHasAdds(st, list)
  {
    hide Inv;
    hide Merge;
    hide Contents;
    hide OnlyLastSplits;
    hide HasRoom;
    hide WritesFit;
    hide EveryChunkHasAdds;
    hide AllRoute;
    hide RestartFits;
    hide RestartIsRight;
    hide Overlay;
    hide Sorted;
    InvEnds(st);
    if Mixed(st.dir, list) {
      MixedRightIff(st, list);
    } else {
      MergeCorrect(st, list);
      MergeOverlays(st, list);
    }
  }

  /** If no record that routes is an ADD, nothing can be stored twice: right exactly if every rebuilt
      file and every chunk keeps a record and no ADD is lost. */
  lemma {:induction false} TombstoneHeadIff(st: Store, list: seq<Rec>)
    requires Inv(st) && Sorted(list) && list != [] && Mixed(st.dir, list)
    requires st.maxCount > 0 && st.dir != [] && Adds(Head(st.dir, list)) == []
    ensures RestartIsRight(st, list) <==>
              && ChunksHaveAddsFrom(st, list, 0)
              && AllHaveAdds(Chunks(Restarted(st.dir, list), st.maxCount))
              && Adds(Lost(st.dir, list)) == []
  {
    hide Lt;
    hide Inv;
    hide Mixed;
    hide Adds;
    hide Chunks;
    hide ChunksHaveAddsFrom;
    hide EndsAfter;
    hide Concat;
    hide UpTo;
    InvEnds(st);
    RestartRun(st, list);
    var run, hi, pos := Restarted(st.dir, list), LastEnd(st.dir), |Head(st.dir, list)|;
    var chunks := Chunks(run, st.maxCount);
    if Adds(chunks[0]) != [] {
      FirstAndRest(chunks);
      SortedParts(chunks[0], Concat(chunks[1..]));
      FirstChunkReaches(list, pos, hi, chunks[0]);
    }
  }

  lemma {:induction false} FirstChunkReaches(list: seq<Rec>, pos: nat, hi: Key, c: seq<Rec>)
    requires Sorted(list) && pos == UpTo(list, hi) && Adds(list[..pos]) == []
    requires c <= list && Adds(c) != []
    ensures !Le(LastKey(c), hi) && forall r :: r in c && r.opt == ADD ==> Lt(hi, r.key)
  {
    hide Lt;
    hide Adds;
    hide UpTo;
    var r := Adds(c)[0];
    assert r in Adds(c) && r in c;
    NoAddsAnywhere(list[..pos]);
    forall j | 0 <= j < |c|
      ensures c[j] == list[j] && (c[j].opt == ADD ==> pos <= j)
      ensures (Le(c[j].key, hi) <==> j < pos) && (Lt(hi, c[j].key) <==> pos <= j)
    {
      LastBehind(list, pos, hi, j);
      assert j < pos ==> list[..pos][j] == list[j];
    }
  }

  lemma {:induction false} NoAddsAnywhere(s: seq<Rec>)
    requires Adds(s) == []
    ensures forall j :: 0 <= j < |s| ==> s[j].opt != ADD
  {
    hide Adds;
    assert forall j :: 0 <= j < |s| ==> s[j] in s && (s[j] in Adds(s) <==> s[j].opt == ADD);
  }

  /** For a restart that fits into one file: exactly if more records lie behind the files than route
      to them, no record that routes is an ADD, and none that is lost. */
  lemma {:induction false} SmallRestartIff(st: Store, list: seq<Rec>)
    requires Inv(st) && Sorted(list) && list != [] && Mixed(st.dir, list)
    requires st.maxCount > 0 && st.dir != [] && |Restarted(st.dir, list)| <= 2 * st.maxCount
    ensures RestartIsRight(st, list) <==>
              && ChunksHaveAddsFrom(st, list, 0) && |list| > 2 * |Head(st.dir, list)|
              && Adds(Head(st.dir, list)) == [] && Adds(Restarted(st.dir, list)) != [] && Adds(Lost(st.dir, list)) == []
  {
    hide Lt;
    hide Inv;
    hide Mixed;
    hide Adds;
    hide ChunksHaveAddsFrom;
    hide EndsAfter;
    InvEnds(st);
    HeadRoutes(st.dir, list);
    var head, run, hi := Head(st.dir, list), Restarted(st.dir, list), LastEnd(st.dir);
    var ends := EndsAfter(st, list);
    assert Chunks(run, st.maxCount) == [run];
    OneHarmless(ends, run, hi);
    OneHasAdds(run);
    RunAndHead(list, |head|, hi);
  }

  lemma {:induction false} OneHarmless(ends: seq<Key>, run: seq<Rec>, hi: Key)
    requires run != []
    ensures Harmless(ends, [run], hi)
            <==> !Le(LastKey(run), hi) && forall r :: r in run && r.opt == ADD ==> Lt(hi, r.key)
  {
    hide Lt;
    assert [run][1..] == [];
  }

  lemma {:induction false} OneHasAdds(run: seq<Rec>)
    ensures AllHaveAdds([run]) <==> Adds(run) != []
  {
    hide Adds;
    assert [run][0] == run;
  }

  lemma {:induction false} RunAndHead(list: seq<Rec>, pos: nat, hi: Key)
    requires Sorted(list) && 0 < pos < |list| && pos == UpTo(list, hi)
    ensures var run := list[..|list| - pos];
            (!Le(LastKey(run), hi) && forall r :: r in run && r.opt == ADD ==> Lt(hi, r.key)) <==>
            |list| > 2 * pos && Adds(list[..pos]) == []
  {
    hide Lt;
    hide Adds;
    hide UpTo;
    var run := list[..|list| - pos];
    LastBehind(list, pos, hi, |run| - 1);
    if |list| > 2 * pos {
      NoAddsInFront(list, pos, hi, |run|);
    }
  }

  lemma {:induction false} LastBehind(list: seq<Rec>, pos: nat, hi: Key, j: nat)
    requires Sorted(list) && pos == UpTo(list, hi) && j < |list|
    ensures Le(list[j].key, hi) <==> j < pos
    ensures Lt(hi, list[j].key) <==> pos <= j
  {
    hide Lt;
    LtIsStrictTotalOrder();
    assert pos < j ==> Lt(list[pos].key, list[j].key);
  }

  lemma {:induction false} NoAddsInFront(list: seq<Rec>, pos: nat, hi: Key, n: nat)
    requires Sorted(list) && pos == UpTo(list, hi) && pos <= n <= |list|
    ensures (forall r :: r in list[..n] && r.opt == ADD ==> Lt(hi, r.key)) <==> Adds(list[..pos]) == []
  {
    hide Lt;
    hide Adds;
    hide UpTo;
    hide Sorted;
    var run, head := list[..n], list[..pos];
    if Adds(head) != [] {
      var r := Adds(head)[0];
      assert r in Adds(head) && r in head;
      var j :| 0 <= j < |head| && head[j] == r;
      LastBehind(list, pos, hi, j);
      assert run[j] == r;
    } else {
      NoAddsAnywhere(head);
      assert forall j :: 0 <= j < pos ==> head[j] == run[j];
      forall r | r in run && r.opt == ADD
        ensures Lt(hi, r.key)
      {
        var j :| 0 <= j < |run| && run[j] == r;
        LastBehind(list, pos, hi, j);
      }
    }
  }
}
