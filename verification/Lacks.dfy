// A key that no file holds: no walk over other keys brings it back.
module Lacking {
  import opened Keys
  import opened Records
  import opened Merging
  import opened Images
  import opened Metas
  import opened Stores
  import opened StoreLaws
  import opened FlushLaws
  import opened MergeLaws
  import opened MergeTheorem
  import opened LostTails

  ghost predicate Without(s: seq<Rec>, k: Key) {
    forall i :: 0 <= i < |s| ==> s[i].key != k
  }

  ghost predicate NodeWithout(st: Store, n: MetaNode, k: Key) {
    Without(FileRecs(st.files, n), k)
  }

  /** No file of the directory holds the key. */
  ghost predicate StoreWithout(st: Store, k: Key) {
    st.maxCount > 0 && forall i :: 0 <= i < |st.dir| ==> NodeWithout(st, st.dir[i], k)
  }

  lemma {:induction false} PiecesWithout(a: seq<Rec>, b: seq<Rec>, k: Key)
    requires Without(a + b, k)
    ensures Without(a, k) && Without(b, k)
  {
    var s := a + b;
    assert forall j :: 0 <= j < |a| ==> s[j] == a[j];
    assert forall j :: 0 <= j < |b| ==> s[|a| + j] == b[j];
  }

  lemma {:induction false} ImageWithout(chunk: seq<Rec>, buf: seq<Byte>, k: Key)
    requires chunk != [] && Adds(chunk) != [] && Fit(Adds(chunk)) && Without(chunk, k)
    ensures Without(ReadAll(WriteImage(chunk, buf)), k)
  {
    hide ReadAll;
    hide WriteImage;
    ReadUndoesWrite(chunk, buf);
    var a := Adds(chunk);
    forall j | 0 <= j < |a|
      ensures a[j].key != k
    {
      assert a[j] in chunk;
    }
  }

  lemma {:induction false} NodeStaysWithout(st: Store, f: Image, n: MetaNode, n': MetaNode, k: Key)
    requires NodeWithout(st, n, k) && Without(ReadAll(f), k) && n'.name == n.name
    ensures NodeWithout(st.(files := st.files[st.name := f]), n', k)
  {
    hide ReadAll;
    hide Without;
  }

  lemma {:induction false} WriteWithout(st: Store, chunk: seq<Rec>, isNew: bool, k: Key)
    requires StoreWithout(st, k) && Without(chunk, k) && Fit(Adds(chunk))
    ensures Write(st, chunk, isNew).Done? ==> StoreWithout(Write(st, chunk, isNew).store, k)
  {
    hide Fit;
    hide ReadAll;
    hide WriteImage;
    hide BufferAfter;
    hide SetEnd;
    hide Search;
    hide Adds;
    hide Without;
    if Write(st, chunk, isNew).Done? {
      var st' := Write(st, chunk, isNew).store;
      var f := WriteImage(chunk, st.buf);
      ImageWithout(chunk, st.buf, k);
      forall i | 0 <= i < |st'.dir|
        ensures NodeWithout(st', st'.dir[i], k)
      {
        if isNew {
          if exists j :: 0 <= j < |st.dir| && st'.dir[i] == st.dir[j] {
            var j :| 0 <= j < |st.dir| && st'.dir[i] == st.dir[j];
            NodeStaysWithout(st, f, st.dir[j], st.dir[j], k);
          }
        } else {
          SetEndNodes(st.dir, st.name, LastKey(chunk), i);
          NodeStaysWithout(st, f, st.dir[i], st'.dir[i], k);
        }
      }
    }
  }

  lemma {:induction false} NameDoesNotMatter(st: Store, st': Store, k: Key)
    requires StoreWithout(st, k) && st' == st.(name := st'.name)
    ensures StoreWithout(st', k)
  {
    hide Without;
    forall i | 0 <= i < |st'.dir|
      ensures NodeWithout(st', st'.dir[i], k)
    {
      assert NodeWithout(st, st.dir[i], k);
    }
  }

  lemma {:induction false} WriteNewWithout(st: Store, chunks: seq<seq<Rec>>, k: Key)
    requires StoreWithout(st, k) && Without(Concat(chunks), k) && ChunksFit(chunks)
    ensures WriteNew(st, chunks).Done? ==> StoreWithout(WriteNew(st, chunks).store, k)
    decreases |chunks|
  {
    hide Without;
    hide Write;
    hide Fit;
    hide Adds;
    if chunks != [] {
      PiecesWithout(chunks[0], Concat(chunks[1..]), k);
      var st1 := st.(name := FileName(|st.dir|));
      assert StoreWithout(st1, k) by { NameDoesNotMatter(st, st1, k); }
      hide StoreWithout;
      WriteWithout(st1, chunks[0], true, k);
      var o := Write(st1, chunks[0], true);
      if o.Done? {
        WriteNewWithout(o.store, chunks[1..], k);
      }
    }
  }

  lemma {:induction false} FlushWithout(st: Store, run: seq<Rec>, k: Key)
    requires StoreWithout(st, k) && Without(run, k)
    ensures st.maxCount > 0
    ensures ChunksFit(Chunks(run, st.maxCount)) && FlushMerge(st, run).Done? ==>
              StoreWithout(FlushMerge(st, run).store, k)
  {
    hide Without;
    hide Write;
    hide Chunks;
    hide Fit;
    hide Adds;
    assert st.maxCount > 0;
    hide StoreWithout;
    hide WriteNew;
    var chunks := Chunks(run, st.maxCount);
    if ChunksFit(chunks) {
      ChunksConserve(run, st.maxCount);
      FirstAndRest(chunks);
      PiecesWithout(chunks[0], Concat(chunks[1..]), k);
      WriteWithout(st, chunks[0], false, k);
      var o := Write(st, chunks[0], false);
      if o.Done? {
        WriteNewWithout(o.store, chunks[1..], k);
      }
    }
  }

  lemma {:induction false} UpsertWithout(run: seq<Rec>, r: Rec, k: Key)
    requires Without(run, k) && r.key != k
    ensures Without(Upsert(run, r), k)
  {
    hide Lt;
    hide Lower;
  }

  lemma {:induction false} UpsertAllWithout(run: seq<Rec>, ys: seq<Rec>, k: Key)
    requires Without(run, k) && Without(ys, k)
    ensures Without(UpsertAll(run, ys), k)
  {
    hide Lt;
    hide Upsert;
    if ys != [] {
      UpsertAllWithout(run, ys[..|ys| - 1], k);
      UpsertWithout(UpsertAll(run, ys[..|ys| - 1]), ys[|ys| - 1], k);
    }
  }

  lemma {:induction false} LoadWithout(st: Store, i: nat, k: Key)
    requires StoreWithout(st, k) && i < |st.dir|
    ensures Load(st, st.dir[i].name).Some? ==> Without(Load(st, st.dir[i].name).value, k)
  {
    hide Lt;
    hide ReadAll;
    hide UpsertAll;
    assert NodeWithout(st, st.dir[i], k);
    hide StoreWithout;
    if st.dir[i].name in st.files {
      UpsertAllWithout([], ReadAll(st.files[st.dir[i].name]), k);
    }
  }

  // ---- the walk ------------------------------------------------------------------------------------

  /** A routed record: the walk stops, or goes on with a state that still lacks the key. */
  lemma {:induction false} StepWithout(st: Store, run: seq<Rec>, list: seq<Rec>, pos: nat, k: Key)
    returns (st': Store, open: seq<Rec>)
    requires StoreWithout(st, k) && Without(run, k) && st.maxCount > 0
    requires pos < |list| && Search(st.dir, list[pos].key) < |st.dir| && WalkFits(st, Some(run), list, pos)
    ensures st'.maxCount > 0
    ensures Walk(st, Some(run), list, pos).Done? ==>
              && StoreWithout(st', k) && Without(open, k)
              && WalkFits(st', Some(Upsert(open, list[pos])), list, pos + 1)
              && Walk(st, Some(run), list, pos) == Walk(st', Some(Upsert(open, list[pos])), list, pos + 1)
  {
    hide Without;
    hide StoreWithout;
    hide FlushMerge;
    hide Chunks;
    hide ChunksFit;
    hide Search;
    hide Load;
    hide Upsert;
    LimitsStay(st, Some(run));
    FlushWithout(st, run, k);
    var i := Search(st.dir, list[pos].key);
    st', open := st, run;
    if st.name != st.dir[i].name && FlushMerge(st, run).Done? {
      var st1 := FlushMerge(st, run).store;
      st' := st1.(name := st1.dir[i].name);
      NameDoesNotMatter(st1, st', k);
      LoadWithout(st', i, k);
      if Load(st', st'.name).Some? {
        open := Load(st', st'.name).value;
      }
    }
  }

  /** The restart writes records of the list only. */
  lemma {:induction false} RestartWithout(st: Store, run: seq<Rec>, list: seq<Rec>, pos: nat, k: Key)
    requires StoreWithout(st, k) && Without(run, k) && Without(list, k) && st.maxCount > 0
    requires pos < |list| && Search(st.dir, list[pos].key) == |st.dir| && WalkFits(st, Some(run), list, pos)
    ensures Walk(st, Some(run), list, pos).Done? ==> StoreWithout(Walk(st, Some(run), list, pos).store, k)
  {
    hide Without;
    hide StoreWithout;
    hide FlushMerge;
    hide WriteNew;
    hide Chunks;
    hide ChunksFit;
    hide Search;
    LimitsStay(st, Some(run));
    FlushWithout(st, run, k);
    var part := list[..|list| - pos];
    assert Without(part, k) by {
      assert list == part + list[|list| - pos..];
      PiecesWithout(part, list[|list| - pos..], k);
    }
    var o := FlushMerge(st, run);
    if o.Done? {
      ChunksConserve(part, o.store.maxCount);
      WriteNewWithout(o.store, Chunks(part, o.store.maxCount), k);
    }
  }

  /** A key that is lost and not mentioned again stays lost. */
  lemma {:induction false} WalkWithout(st: Store, run: seq<Rec>, list: seq<Rec>, pos: nat, k: Key)
    requires StoreWithout(st, k) && Without(run, k) && Without(list, k) && st.maxCount > 0
    requires pos <= |list| && WalkFits(st, Some(run), list, pos)
    ensures Walk(st, Some(run), list, pos).Done? ==> StoreWithout(Walk(st, Some(run), list, pos).store, k)
    decreases |list| - pos
  {
    hide Without;
    hide StoreWithout;
    hide Walk;
    hide WalkFits;
    hide Search;
    hide FlushMerge;
    hide Upsert;
    if pos == |list| {
      EndsFit(st, run, list);
      WalkEndsAt(st, run, list);
      FlushWithout(st, run, k);
    } else if Search(st.dir, list[pos].key) == |st.dir| {
      RestartWithout(st, run, list, pos, k);
    } else {
      var st', open := StepWithout(st, run, list, pos, k);
      if Walk(st, Some(run), list, pos).Done? {
        OtherKey(list, pos, k);
        UpsertWithout(open, list[pos], k);
        WalkWithout(st', Upsert(open, list[pos]), list, pos + 1, k);
      }
    }
  }

  lemma {:induction false} OtherKey(list: seq<Rec>, pos: nat, k: Key)
    requires Without(list, k) && pos < |list|
    ensures list[pos].key != k
  {
  }

  lemma {:induction false} EndsFit(st: Store, run: seq<Rec>, list: seq<Rec>)
    requires st.maxCount > 0 && WalkFits(st, Some(run), list, |list|)
    ensures ChunksFit(Chunks(run, st.maxCount))
  {
    hide ChunksFit;
    hide Chunks;
  }

  // ---- the store as a map ----------------------------------------------------------------------------

  lemma {:induction false} FlatWithout(st: Store, n: nat, k: Key)
    requires StoreWithout(st, k) && n <= |st.dir|
    ensures Without(Flat(st.dir[..n], st.files), k)
  {
    hide FileRecs;
    if n > 0 {
      FlatWithout(st, n - 1, k);
      FlatSnoc(st.dir, n - 1, st.files);
      assert NodeWithout(st, st.dir[n - 1], k);
    }
  }

  lemma {:induction false} OverlayWithout(s: seq<Rec>, k: Key)
    requires Without(s, k)
    ensures k !in Overlay(map[], s)
  {
    if s != [] {
      OverlayWithout(s[..|s| - 1], k);
    }
  }

  lemma {:induction false} NotInContents(st: Store, k: Key)
    requires StoreWithout(st, k)
    ensures k !in Contents(st)
  {
    hide StoreWithout;
    hide Without;
    hide Flat;
    hide Overlay;
    FlatWithout(st, |st.dir|, k);
    assert st.dir[..|st.dir|] == st.dir;
    OverlayWithout(Flat(st.dir, st.files), k);
  }

  /** A key that is stored and not in the list is in the overlay. */
  lemma {:induction false} OverlayKeeps(m: map<Key, nat>, list: seq<Rec>, k: Key)
    requires k in m && Without(list, k)
    ensures k in Overlay(m, list)
  {
    if list != [] {
      OverlayKeeps(m, list[..|list| - 1], k);
    }
  }

  lemma {:induction false} StoredIsThere(st: Store, i: nat, r: Rec)
    requires Inv(st) && i < |st.dir| && r in FileRecs(st.files, st.dir[i])
    ensures r.key in Contents(st)
  {
    hide Lt;
    hide Inv;
    hide FileRecs;
    hide Overlay;
    FlatAround(st.dir, i, st.files);
    FlatSorted(st);
    hide Flat;
    var flat := Flat(st.dir, st.files);
    FindIsMembership(flat, r.key);
    OverlayAt(map[], flat, r.key);
  }
}
