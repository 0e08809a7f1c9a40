// The last record of a list that routes partly behind the files.
module LostTails {
  import opened Keys
  import opened Records
  import opened Merging
  import opened Images
  import opened Metas
  import opened Stores
  import opened StoreLaws
  import opened FlushLaws
  import opened MergeLaws
  import opened MergeTheorem
  import opened MixedLists

  /** What a flush of the open run writes fits the byte format. */
  ghost predicate FlushFits(st: Store, merge: Option<seq<Rec>>)
    requires st.maxCount > 0
  {
    merge.Some? ==> ChunksFit(Chunks(merge.value, st.maxCount))
  }

  /** Whatever the walk writes from here on fits the byte format. */
  ghost predicate WalkFits(st: Store, merge: Option<seq<Rec>>, list: seq<Rec>, pos: nat)
    requires st.maxCount > 0 && pos <= |list|
    decreases |list| - pos
  {
    LimitsStay(st, merge);
    if pos == |list| then FlushFits(st, merge) else
      var cur := list[pos];
      var i := Search(st.dir, cur.key);
      if i == |st.dir| then
        FlushFits(st, merge) && ChunksFit(Chunks(list[..|list| - pos], st.maxCount))
      else if st.name == st.dir[i].name then
        var open := if merge.None? then Load(st, st.name) else merge;
        open.Some? ==> WalkFits(st, Some(Upsert(open.value, cur)), list, pos + 1)
      else
        var o := FlushOpen(st, merge);
        && FlushFits(st, merge)
        && (o.Done? ==>
              var st' := o.store.(name := o.store.dir[i].name);
              var open := Load(st', st'.name);
              open.Some? ==> WalkFits(st', Some(Upsert(open.value, cur)), list, pos + 1))
  }

  // ---- stores that end below a key ------------------------------------------------------------

  ghost predicate NodeBelow(st: Store, n: MetaNode, k: Key) {
    Lt(n.end, k) && AllBelow(FileRecs(st.files, n), k)
  }

  /** Every end and every stored key is below k. This survives any flush of runs below k,
      in whatever order the directory ends up. */
  ghost predicate StoreBelow(st: Store, k: Key) {
    st.maxCount > 0 && forall i :: 0 <= i < |st.dir| ==> NodeBelow(st, st.dir[i], k)
  }

  lemma {:induction false} PiecesBelow(a: seq<Rec>, b: seq<Rec>, k: Key)
    requires AllBelow(a + b, k)
    ensures AllBelow(a, k) && AllBelow(b, k)
  {
    hide Lt;
    var s := a + b;
    assert forall j :: 0 <= j < |a| ==> s[j] == a[j];
    assert forall j :: 0 <= j < |b| ==> s[|a| + j] == b[j];
  }

  /** A written chunk reads back below k. */
  lemma {:induction false} ImageBelow(chunk: seq<Rec>, buf: seq<Byte>, k: Key)
    requires chunk != [] && Adds(chunk) != [] && Fit(Adds(chunk)) && AllBelow(chunk, k)
    ensures AllBelow(ReadAll(WriteImage(chunk, buf)), k)
  {
    hide Lt;
    hide ReadAll;
    hide WriteImage;
    ReadUndoesWrite(chunk, buf);
    var a := Adds(chunk);
    forall j | 0 <= j < |a|
      ensures Lt(a[j].key, k)
    {
      assert a[j] in chunk;
    }
  }

  lemma {:induction false} NodeStaysBelow(st: Store, f: Image, n: MetaNode, k: Key)
    requires NodeBelow(st, n, k) && AllBelow(ReadAll(f), k)
    ensures NodeBelow(st.(files := st.files[st.name := f]), n, k)
  {
    hide Lt;
    hide ReadAll;
    hide AllBelow;
  }

  lemma {:induction false} SetEndNodes(dir: seq<MetaNode>, name: Name, end: Key, i: nat)
    requires i < |dir|
    ensures SetEnd(dir, name, end)[i] == dir[i] || SetEnd(dir, name, end)[i] == dir[i].(end := end)
  {
    if dir[0].name != name && i > 0 {
      SetEndNodes(dir[1..], name, end, i - 1);
    }
  }

  lemma {:induction false} WriteBelow(st: Store, chunk: seq<Rec>, isNew: bool, k: Key)
    requires StoreBelow(st, k) && AllBelow(chunk, k) && Fit(Adds(chunk))
    ensures Write(st, chunk, isNew).Done? ==> StoreBelow(Write(st, chunk, isNew).store, k)
  {
    hide Lt;
    hide Fit;
    hide ReadAll;
    hide WriteImage;
    hide BufferAfter;
    hide SetEnd;
    hide Search;
    hide Adds;
    if Write(st, chunk, isNew).Done? {
      var st' := Write(st, chunk, isNew).store;
      var f := WriteImage(chunk, st.buf);
      ImageBelow(chunk, st.buf, k);
      forall i | 0 <= i < |st'.dir|
        ensures NodeBelow(st', st'.dir[i], k)
      {
        if isNew {
          if exists j :: 0 <= j < |st.dir| && st'.dir[i] == st.dir[j] {
            var j :| 0 <= j < |st.dir| && st'.dir[i] == st.dir[j];
            NodeStaysBelow(st, f, st.dir[j], k);
          }
        } else {
          SetEndNodes(st.dir, st.name, LastKey(chunk), i);
          NodeStaysBelow(st, f, st.dir[i], k);
        }
      }
    }
  }

  lemma {:induction false} WriteNewBelow(st: Store, chunks: seq<seq<Rec>>, k: Key)
    requires StoreBelow(st, k) && AllBelow(Concat(chunks), k) && ChunksFit(chunks)
    ensures WriteNew(st, chunks).Done? ==> StoreBelow(WriteNew(st, chunks).store, k)
    decreases |chunks|
  {
    hide AllBelow;
    hide Write;
    hide Fit;
    hide Adds;
    if chunks != [] {
      PiecesBelow(chunks[0], Concat(chunks[1..]), k);
      var st1 := st.(name := FileName(|st.dir|));
      assert StoreBelow(st1, k) by { NameIrrelevant(st, st1, k); }
      hide StoreBelow;
      WriteBelow(st1, chunks[0], true, k);
      var o := Write(st1, chunks[0], true);
      if o.Done? {
        WriteNewBelow(o.store, chunks[1..], k);
      }
    }
  }

  lemma {:induction false} NameIrrelevant(st: Store, st': Store, k: Key)
    requires StoreBelow(st, k) && st' == st.(name := st'.name)
    ensures StoreBelow(st', k)
  {
    hide AllBelow;
    hide Lt;
    forall i | 0 <= i < |st'.dir|
      ensures NodeBelow(st', st'.dir[i], k)
    {
      assert NodeBelow(st, st.dir[i], k);
    }
  }

  lemma {:induction false} FlushBelow(st: Store, run: seq<Rec>, k: Key)
    requires StoreBelow(st, k) && AllBelow(run, k)
    ensures st.maxCount > 0
    ensures ChunksFit(Chunks(run, st.maxCount)) ==>
              && (FlushNew(st, run).Done? ==> StoreBelow(FlushNew(st, run).store, k))
              && (FlushMerge(st, run).Done? ==> StoreBelow(FlushMerge(st, run).store, k))
  {
    hide AllBelow;
    hide Write;
    hide Chunks;
    hide Fit;
    hide Adds;
    assert st.maxCount > 0;
    hide StoreBelow;
    hide WriteNew;
    var chunks := Chunks(run, st.maxCount);
    if ChunksFit(chunks) {
      ChunksConserve(run, st.maxCount);
      FirstAndRest(chunks);
      WriteNewBelow(st, chunks, k);
      PiecesBelow(chunks[0], Concat(chunks[1..]), k);
      WriteBelow(st, chunks[0], false, k);
      var o := Write(st, chunks[0], false);
      if o.Done? {
        WriteNewBelow(o.store, chunks[1..], k);
      }
    }
  }

  lemma {:induction false} UpsertBelow(run: seq<Rec>, r: Rec, k: Key)
    requires AllBelow(run, k) && Lt(r.key, k)
    ensures AllBelow(Upsert(run, r), k)
  {
    hide Lt;
    hide Lower;
  }

  lemma {:induction false} UpsertAllBelow(run: seq<Rec>, ys: seq<Rec>, k: Key)
    requires AllBelow(run, k) && AllBelow(ys, k)
    ensures AllBelow(UpsertAll(run, ys), k)
  {
    hide Lt;
    hide Upsert;
    if ys != [] {
      UpsertAllBelow(run, ys[..|ys| - 1], k);
      UpsertBelow(UpsertAll(run, ys[..|ys| - 1]), ys[|ys| - 1], k);
    }
  }

  lemma {:induction false} LoadBelow(st: Store, i: nat, k: Key)
    requires StoreBelow(st, k) && i < |st.dir|
    ensures Load(st, st.dir[i].name).Some? ==> AllBelow(Load(st, st.dir[i].name).value, k)
  {
    hide Lt;
    hide ReadAll;
    hide UpsertAll;
    assert NodeBelow(st, st.dir[i], k);
    hide StoreBelow;
    if st.dir[i].name in st.files {
      UpsertAllBelow([], ReadAll(st.files[st.dir[i].name]), k);
    }
  }

  // ---- the walk never stores the last key --------------------------------------------------------

  ghost predicate OpenBelow(merge: Option<seq<Rec>>, k: Key) {
    merge.Some? ==> AllBelow(merge.value, k)
  }

  lemma {:induction false} FlushOpenBelow(st: Store, merge: Option<seq<Rec>>, k: Key)
    requires StoreBelow(st, k) && OpenBelow(merge, k)
    ensures st.maxCount > 0
    ensures FlushFits(st, merge) && FlushOpen(st, merge).Done? ==> StoreBelow(FlushOpen(st, merge).store, k)
  {
    hide AllBelow;
    hide Chunks;
    hide ChunksFit;
    assert st.maxCount > 0;
    hide StoreBelow;
    hide FlushMerge;
    if merge.Some? {
      FlushBelow(st, merge.value, k);
    }
  }

  lemma {:induction false} RoutesNowhere(st: Store, k: Key)
    requires StoreBelow(st, k)
    ensures Search(st.dir, k) == |st.dir|
  {
    hide Lt;
    hide AllBelow;
    forall j | 0 <= j < |st.dir|
      ensures Lt(st.dir[j].end, k)
    {
      assert NodeBelow(st, st.dir[j], k);
    }
    SearchPastAll(st.dir, k, 0);
  }

  /** The restart at the head of the list never reaches its last record. */
  lemma {:induction false} TailDropped(st: Store, merge: Option<seq<Rec>>, list: seq<Rec>, pos: nat, k: Key)
    requires StoreBelow(st, k) && OpenBelow(merge, k) && st.maxCount > 0
    requires 0 < pos < |list| && AllBelow(list[..|list| - 1], k)
    requires Search(st.dir, list[pos].key) == |st.dir| && WalkFits(st, merge, list, pos)
    ensures Walk(st, merge, list, pos).Done? ==> StoreBelow(Walk(st, merge, list, pos).store, k)
  {
    hide StoreBelow;
    hide FlushOpen;
    hide FlushNew;
    hide FlushFits;
    hide Chunks;
    hide ChunksFit;
    hide Search;
    hide Lt;
    FlushOpenBelow(st, merge, k);
    LimitsStay(st, merge);
    var n := |list| - pos;
    assert AllBelow(list[..n], k) by {
      var init := list[..|list| - 1];
      assert forall j :: 0 <= j < n ==> init[j] == list[j];
    }
    var o := FlushOpen(st, merge);
    if o.Done? {
      FlushBelow(o.store, list[..n], k);
    }
  }

  /** A routed record: the walk stops, or goes on with a state that is still below k. */
  lemma {:induction false} RoutedStep(st: Store, merge: Option<seq<Rec>>, list: seq<Rec>, pos: nat, k: Key)
    returns (st': Store, open: seq<Rec>)
    requires StoreBelow(st, k) && OpenBelow(merge, k) && st.maxCount > 0
    requires pos < |list| && Search(st.dir, list[pos].key) < |st.dir| && WalkFits(st, merge, list, pos)
    ensures st'.maxCount > 0
    ensures Walk(st, merge, list, pos).Done? ==>
              && StoreBelow(st', k) && AllBelow(open, k)
              && WalkFits(st', Some(Upsert(open, list[pos])), list, pos + 1)
              && Walk(st, merge, list, pos) == Walk(st', Some(Upsert(open, list[pos])), list, pos + 1)
  {
    hide AllBelow;
    hide StoreBelow;
    hide FlushOpen;
    hide FlushFits;
    hide Search;
    hide Load;
    hide Upsert;
    LimitsStay(st, merge);
    FlushOpenBelow(st, merge, k);
    var i := Search(st.dir, list[pos].key);
    st', open := st, [];
    if st.name == st.dir[i].name {
      LoadBelow(st, i, k);
      var o := if merge.None? then Load(st, st.name) else merge;
      if o.Some? {
        open := o.value;
      }
    } else if FlushOpen(st, merge).Done? {
      var st1 := FlushOpen(st, merge).store;
      st' := st1.(name := st1.dir[i].name);
      NameIrrelevant(st1, st', k);
      LoadBelow(st', i, k);
      if Load(st', st'.name).Some? {
        open := Load(st', st'.name).value;
      }
    }
  }

  /** Once a record was routed to a file, the walk ends by writing list[..|list| - pos] for some
      pos > 0, and the last record of the list reaches no file. */
  lemma {:induction false} WalkBelow(st: Store, merge: Option<seq<Rec>>, list: seq<Rec>, pos: nat, k: Key)
    requires StoreBelow(st, k) && OpenBelow(merge, k) && st.maxCount > 0
    requires pos < |list| && list[|list| - 1].key == k && AllBelow(list[..|list| - 1], k)
    requires pos > 0 || Search(st.dir, list[0].key) < |st.dir|
    requires WalkFits(st, merge, list, pos)
    ensures Walk(st, merge, list, pos).Done? ==> StoreBelow(Walk(st, merge, list, pos).store, k)
    decreases |list| - pos
  {
    hide Lt;
    hide AllBelow;
    hide Upsert;
    hide StoreBelow;
    hide Search;
    hide Walk;
    hide WalkFits;
    var cur := list[pos];
    RoutesNowhere(st, k);
    if Search(st.dir, cur.key) == |st.dir| {
      TailDropped(st, merge, list, pos, k);
    } else {
      var st', open := RoutedStep(st, merge, list, pos, k);
      if Walk(st, merge, list, pos).Done? {
        OneBelow(list, pos, k);
        UpsertBelow(open, cur, k);
        WalkBelow(st', Some(Upsert(open, cur)), list, pos + 1, k);
      }
    }
  }

  lemma {:induction false} OneBelow(list: seq<Rec>, pos: nat, k: Key)
    requires pos < |list| - 1 && AllBelow(list[..|list| - 1], k)
    ensures Lt(list[pos].key, k)
  {
    hide Lt;
    assert list[..|list| - 1][pos] == list[pos];
  }

  // ---- the last record is lost -----------------------------------------------------------------------

  lemma {:induction false} FlatHasNot(st: Store, n: nat, k: Key)
    requires StoreBelow(st, k) && n <= |st.dir|
    ensures AllBelow(Flat(st.dir[..n], st.files), k)
  {
    hide Lt;
    hide FileRecs;
    if n > 0 {
      FlatHasNot(st, n - 1, k);
      FlatSnoc(st.dir, n - 1, st.files);
      assert NodeBelow(st, st.dir[n - 1], k);
    }
  }

  lemma {:induction false} OverlayHasNot(s: seq<Rec>, k: Key)
    requires AllBelow(s, k)
    ensures k !in Overlay(map[], s)
  {
    if s != [] {
      LtIrreflexive(k);
      OverlayHasNot(s[..|s| - 1], k);
    }
  }

  lemma {:induction false} StartBelow(st: Store, list: seq<Rec>)
    requires Inv(st) && Sorted(list) && list != [] && st.dir != []
    requires Lt(LastEnd(st.dir), list[|list| - 1].key)
    ensures StoreBelow(st, list[|list| - 1].key)
    ensures AllBelow(list[..|list| - 1], list[|list| - 1].key)
  {
    hide Lt;
    hide Fit;
    hide Inv;
    hide FileRecs;
    LtIsStrictTotalOrder();
    var k := list[|list| - 1].key;
    InvEnds(st);
    forall i | 0 <= i < |st.dir|
      ensures NodeBelow(st, st.dir[i], k)
    {
      FileOf(st, i);
    }
  }

  lemma {:induction false} ContentsHasNot(st: Store, k: Key)
    requires StoreBelow(st, k)
    ensures k !in Contents(st)
  {
    hide Lt;
    hide StoreBelow;
    hide Flat;
    hide Overlay;
    FlatHasNot(st, |st.dir|, k);
    assert st.dir[..|st.dir|] == st.dir;
    OverlayHasNot(Flat(st.dir, st.files), k);
  }

  lemma {:induction false} OverlayHasLast(m: map<Key, nat>, list: seq<Rec>)
    requires list != [] && list[|list| - 1].opt == ADD
    ensures list[|list| - 1].key in Overlay(m, list)
  {
  }

  lemma {:induction false} MixedEnds(dir: seq<MetaNode>, list: seq<Rec>)
    requires EndsRise(dir) && Sorted(list) && list != [] && Mixed(dir, list)
    ensures Lt(LastEnd(dir), list[|list| - 1].key)
    ensures Search(dir, list[0].key) < |dir|
  {
    hide Lt;
    hide Search;
    LtIsStrictTotalOrder();
    SearchFinds(dir, list[0].key);
    var end := LastEnd(dir);
    var a :| 0 <= a < |list| && !Le(list[a].key, end);
    var b :| 0 <= b < |list| && !Lt(end, list[b].key);
    assert a < |list| - 1 ==> Lt(list[a].key, list[|list| - 1].key);
    assert 0 < b ==> Lt(list[0].key, list[b].key);
  }

  /** A mixed list that ends in an ADD record never merges right, wherever it cuts files: that
      record is lost. */
  lemma {:induction false} MixedLosesLast(st: Store, list: seq<Rec>)
    requires Inv(st) && Sorted(list) && list != [] && st.maxCount > 0 && WalkFits(st, None, list, 0)
    requires Mixed(st.dir, list) && list[|list| - 1].opt == ADD
    ensures Merge(st, list).Done? ==> list[|list| - 1].key !in Contents(Merge(st, list).store)
    ensures !MergesRight(st, list)
  {
    hide Lt;
    hide Walk;
    hide WalkFits;
    hide FlushNew;
    hide Inv;
    hide Contents;
    hide Overlay;
    hide Sorted;
    hide Search;
    hide StoreBelow;
    hide AllBelow;
    hide AllRoute;
    hide PastEnd;
    InvEnds(st);
    MixedEnds(st.dir, list);
    var k := list[|list| - 1].key;
    StartBelow(st, list);
    WalkBelow(st, None, list, 0, k);
    if Merge(st, list).Done? {
      ContentsHasNot(Merge(st, list).store, k);
    }
    OverlayHasLast(Contents(st), list);
  }
}
