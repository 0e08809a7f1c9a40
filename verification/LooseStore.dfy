// Stores whose directory may be out of order: what a walk does to them, one record after the other.
module LooseStores {
  import opened Keys
  import opened Records
  import opened Merging
  import opened Images
  import opened Metas
  import opened Stores
  import opened StoreLaws
  import opened FlushLaws
  import opened MergeLaws
  import opened RestartLaws
  import opened StaleIndex
  import opened LostTails

  /** File j is there, in key order, and has no key behind its end. */
  ghost predicate FileFine(st: Store, j: nat)
    requires j < |st.dir|
  {
    && st.dir[j].name in st.files
    && var s := FileRecs(st.files, st.dir[j]);
       s != [] && Sorted(s) && forall i :: 0 <= i < |s| ==> Le(s[i].key, st.dir[j].end)
  }

  /** What is left of the directory invariant when the ends need not rise. */
  ghost predicate Loose(st: Store) {
    st.maxCount > 0 && NamesOk(st.dir) && forall j :: 0 <= j < |st.dir| ==> FileFine(st, j)
  }

  lemma {:induction false} InvIsLoose(st: Store)
    requires Inv(st)
    ensures Loose(st)
  {
    hide Lt;
    hide FileRecs;
    hide EndsRise;
    hide NamesOk;
    hide LsnsOk;
    hide FilesOk;
    hide Sorted;
    hide Fit;
    hide AllAbove;
    forall j | 0 <= j < |st.dir|
      ensures FileFine(st, j)
    {
      assert FileOk(st, j);
    }
  }

  lemma {:induction false} LooseParts(st: Store)
    requires Loose(st)
    ensures st.maxCount > 0 && NamesOk(st.dir)
    ensures forall i, j :: 0 <= i < j < |st.dir| ==> st.dir[i].name != st.dir[j].name
  {
    hide FileFine;
    hide NumberedBelow;
  }

  lemma {:induction false} FineFile(st: Store, j: nat)
    requires Loose(st) && j < |st.dir|
    ensures FileFine(st, j)
  {
    hide FileFine;
  }

  /** A file reads the same elsewhere. */
  ghost predicate SameFile(a: Store, i: nat, b: Store, j: nat)
    requires i < |a.dir| && j < |b.dir|
  {
    b.dir[j] == a.dir[i] && b.dir[j].name in b.files && FileRecs(b.files, b.dir[j]) == FileRecs(a.files, a.dir[i])
  }

  lemma {:induction false} SameIsFine(a: Store, i: nat, b: Store, j: nat)
    requires i < |a.dir| && j < |b.dir| && FileFine(a, i) && SameFile(a, i, b, j)
    ensures FileFine(b, j)
  {
    hide Lt;
    hide FileRecs;
    hide Sorted;
  }

  // ---- rebuilding a file ---------------------------------------------------------------------

  lemma {:induction false} WrittenFine(chunk: seq<Rec>)
    requires ChunkOk(chunk)
    ensures Sorted(Adds(chunk)) && Adds(chunk) != []
    ensures forall i :: 0 <= i < |Adds(chunk)| ==> Le(Adds(chunk)[i].key, LastKey(chunk)) && Adds(chunk)[i] in chunk
  {
    hide Lt;
    hide Adds;
    hide Fit;
    AddsSorted(chunk);
    forall i | 0 <= i < |Adds(chunk)|
      ensures Le(Adds(chunk)[i].key, LastKey(chunk)) && Adds(chunk)[i] in chunk
    {
      assert Adds(chunk)[i] in Adds(chunk);
      var j :| 0 <= j < |chunk| && chunk[j] == Adds(chunk)[i];
      assert j < |chunk| - 1 ==> Lt(chunk[j].key, chunk[|chunk| - 1].key);
    }
  }

  lemma {:induction false} OverwriteLoose(st: Store, q: nat, chunk: seq<Rec>)
    requires Loose(st) && q < |st.dir| && st.name == st.dir[q].name && ChunkOk(chunk)
    ensures Write(st, chunk, false) == Done(Overwritten(st, q, chunk))
    ensures var st' := Overwritten(st, q, chunk);
            && Loose(st') && |st'.dir| == |st.dir|
            && FileRecs(st'.files, st'.dir[q]) == Adds(chunk) && st'.dir[q].end == LastKey(chunk)
            && forall j :: 0 <= j < |st.dir| && j != q ==> SameFile(st, j, st', j)
  {
    hide Lt;
    hide FileRecs;
    hide WriteImage;
    hide ReadAll;
    hide BufferAfter;
    hide Write;
    hide Adds;
    hide Sorted;
    hide NumberedBelow;
    hide ChunkOk;
    hide FileFine;
    LooseParts(st);
    ChunkIsThere(chunk);
    ChunkHasAdds(chunk);
    WriteOverIs(st, q, chunk);
    WrittenFile(chunk, st.buf);
    WrittenFine(chunk);
    var st' := Overwritten(st, q, chunk);
    FileNamed(st'.files, st'.dir[q]);
    assert FileFine(st', q) by { FineNow(st', q, Adds(chunk)); }
    forall j | 0 <= j < |st.dir| && j != q
      ensures SameFile(st, j, st', j) && FileFine(st', j)
    {
      FineFile(st, j);
      NamedFine(st, j);
      OtherFileStays(st.files, st.dir[q].name, WriteImage(chunk, st.buf), st.dir[j]);
      SameIsFine(st, j, st', j);
    }
    assert forall j :: 0 <= j < |st.dir| ==> st'.dir[j].name == st.dir[j].name;
  }

  lemma {:induction false} ChunkHasAdds(chunk: seq<Rec>)
    requires ChunkOk(chunk)
    ensures Adds(chunk) != []
  {
  }

  lemma {:induction false} NamedFine(st: Store, j: nat)
    requires j < |st.dir| && FileFine(st, j)
    ensures st.dir[j].name in st.files
  {
  }

  lemma {:induction false} FineNow(st: Store, j: nat, s: seq<Rec>)
    requires j < |st.dir| && st.dir[j].name in st.files && FileRecs(st.files, st.dir[j]) == s
    requires s != [] && Sorted(s) && forall i :: 0 <= i < |s| ==> Le(s[i].key, st.dir[j].end)
    ensures FileFine(st, j)
  {
    hide Lt;
    hide FileRecs;
    hide Sorted;
  }

  // ---- adding a file ----------------------------------------------------------------------------

  /** One more file at place p, for the chunk; or none, if a file ends there already. */
  ghost predicate Grown(a: Store, b: Store, p: nat, chunk: seq<Rec>) {
    && p <= |a.dir| && a.maxCount == b.maxCount
    && if |b.dir| == |a.dir| then forall j :: 0 <= j < |a.dir| ==> SameFile(a, j, b, j)
       else
         && |b.dir| == |a.dir| + 1 && Holds(b, p, chunk)
         && (forall j :: 0 <= j < p ==> SameFile(a, j, b, j))
         && MovedBack(a, b, p, 1)
  }

  lemma {:induction false} NewFileLoose(st: Store, chunk: seq<Rec>)
    requires Loose(st) && ChunkOk(chunk)
    ensures chunk != []
    ensures var o := Write(st.(name := FileName(|st.dir|)), chunk, true);
            o.Done? ==> Loose(o.store) && Grown(st, o.store, Search(st.dir, LastKey(chunk)), chunk)
  {
    hide Lt;
    hide FileRecs;
    hide WriteImage;
    hide Search;
    hide Write;
    hide Adds;
    hide FileName;
    hide NumberedBelow;
    hide ChunkOk;
    hide FileFine;
    hide SameFile;
    LooseParts(st);
    ChunkIsThere(chunk);
    WriteShape(st, chunk);
    var o := Write(st.(name := FileName(|st.dir|)), chunk, true);
    if o.Done? {
      var p, b := Search(st.dir, LastKey(chunk)), o.store;
      forall j | 0 <= j < |st.dir|
        ensures st.dir[j].name in b.files && FileRecs(b.files, st.dir[j]) == FileRecs(st.files, st.dir[j])
      {
        FineFile(st, j);
        NamedFine(st, j);
        NameNotNext(st.dir, j);
        OtherFileStays(st.files, FileName(|st.dir|), WriteImage(chunk, st.buf), st.dir[j]);
      }
      if b.dir == st.dir {
        SameDirLoose(st, b);
      } else {
        InsertedLoose(st, b, p, chunk);
      }
    }
  }

  lemma {:induction false} SameDirLoose(a: Store, b: Store)
    requires Loose(a) && b.dir == a.dir && b.maxCount == a.maxCount
    requires forall j :: 0 <= j < |a.dir| ==>
               a.dir[j].name in b.files && FileRecs(b.files, a.dir[j]) == FileRecs(a.files, a.dir[j])
    ensures Loose(b) && forall j :: 0 <= j < |a.dir| ==> SameFile(a, j, b, j)
  {
    hide FileRecs;
    hide FileFine;
    hide NamesOk;
    forall j | 0 <= j < |a.dir|
      ensures SameFile(a, j, b, j) && FileFine(b, j)
    {
      FineFile(a, j);
      SameIsFine(a, j, b, j);
    }
  }

  lemma {:induction false} InsertedLoose(a: Store, b: Store, p: nat, chunk: seq<Rec>)
    requires Loose(a) && ChunkOk(chunk) && p <= |a.dir| && chunk != [] && b.maxCount == a.maxCount
    requires b.dir == a.dir[..p] + [NewNode(a, chunk)] + a.dir[p..]
    requires b.files == a.files[FileName(|a.dir|) := WriteImage(chunk, a.buf)]
    requires forall j :: 0 <= j < |a.dir| ==>
               a.dir[j].name in b.files && FileRecs(b.files, a.dir[j]) == FileRecs(a.files, a.dir[j])
    ensures Loose(b) && Grown(a, b, p, chunk)
  {
    hide Lt;
    hide FileRecs;
    hide WriteImage;
    hide ReadAll;
    hide Adds;
    hide FileName;
    hide FileFine;
    hide ChunkOk;
    hide NumberedBelow;
    hide LsnsOk;
    hide Sorted;
    LooseParts(a);
    WrittenFile(chunk, a.buf);
    WrittenFine(chunk);
    FileNamed(b.files, b.dir[p]);
    FineNow(b, p, Adds(chunk));
    forall j | 0 <= j < |b.dir| && j != p
      ensures SameFile(a, if j < p then j else j - 1, b, j) && FileFine(b, j)
    {
      var i := if j < p then j else j - 1;
      FineFile(a, i);
      SameIsFine(a, i, b, j);
    }
    NamesAfterInsert(a.dir, p, NewNode(a, chunk));
  }

  lemma {:induction false} NamesAfterInsert(dir: seq<MetaNode>, p: nat, node: MetaNode)
    requires p <= |dir| && NamesOk(dir) && node.name == FileName(|dir|)
    ensures NamesOk(dir[..p] + [node] + dir[p..])
  {
    hide FileName;
    hide NumberedBelow;
    var d := dir[..p] + [node] + dir[p..];
    forall i | 0 <= i < |dir|
      ensures dir[i].name != node.name && NumberedBelow(dir[i].name, |d|)
    {
      NameNotNext(dir, i);
      NumberedOn(dir[i].name, |dir|);
    }
    assert NumberedBelow(node.name, |d|) by { NumberedNext(|dir|); }
  }

  lemma {:induction false} NumberedOn(name: Name, n: nat)
    requires NumberedBelow(name, n)
    ensures NumberedBelow(name, n + 1)
  {
    hide FileName;
  }

  lemma {:induction false} NumberedNext(n: nat)
    ensures NumberedBelow(FileName(n), n + 1)
  {
    hide FileName;
  }

  // ---- a directory that is in order for one key ------------------------------------------------------

  /** The ends before place p are below the key, and from p on none is. */
  ghost predicate SplitAt(dir: seq<MetaNode>, p: nat, key: Key) {
    && p <= |dir|
    && (forall j :: 0 <= j < p ==> Lt(dir[j].end, key))
    && forall j :: p <= j < |dir| ==> Le(key, dir[j].end)
  }

  /** From place b on the ends rise. */
  ghost predicate RiseFrom(dir: seq<MetaNode>, b: nat) {
    forall i, j :: b <= i < j < |dir| ==> Lt(dir[i].end, dir[j].end)
  }

  lemma {:induction false} SearchInSplits(dir: seq<MetaNode>, key: Key, p: nat, left: nat, right: nat)
    requires SplitAt(dir, p, key) && RiseFrom(dir, p) && left <= p <= right <= |dir|
    ensures SearchIn(dir, key, left, right) == p
    decreases right - left
  {
    hide Lt;
    hide Mid;
    if left < right {
      LtIsStrictTotalOrder();
      var i := Mid(left, right);
      var cmp := Strcmp(key, dir[i].end);
      if i < p {
        SearchInSplits(dir, key, p, i + 1, right);
      } else if i > p {
        assert Lt(dir[p].end, dir[i].end);
        SearchInSplits(dir, key, p, left, i);
      } else if cmp < 0 {
        SearchInSplits(dir, key, p, left, i);
      }
    }
  }

  /** The search needs no order in front of the place it ends at. */
  lemma {:induction false} SearchSplits(dir: seq<MetaNode>, key: Key, p: nat)
    requires SplitAt(dir, p, key) && RiseFrom(dir, p)
    ensures Search(dir, key) == p
  {
    hide Lt;
    SearchInSplits(dir, key, p, 0, |dir|);
  }

  lemma {:induction false} SearchInAtMost(dir: seq<MetaNode>, key: Key, p: nat, left: nat, right: nat)
    requires left <= right <= |dir| && left <= p <= |dir| && forall j :: p <= j < |dir| ==> Lt(key, dir[j].end)
    ensures SearchIn(dir, key, left, right) <= p
    decreases right - left
  {
    hide Lt;
    hide Mid;
    if left < right {
      var i := Mid(left, right);
      if i < p {
        SearchInAtMost(dir, key, p, i + 1, right);
      } else {
        LtAsymmetric(key, dir[i].end);
      }
      SearchInAtMost(dir, key, p, left, i);
    }
  }

  lemma {:induction false} SearchInAtLeast(dir: seq<MetaNode>, key: Key, p: nat, left: nat, right: nat)
    requires left <= right <= |dir| && p <= right && forall j :: 0 <= j < p ==> Lt(dir[j].end, key)
    ensures SearchIn(dir, key, left, right) >= p
    decreases right - left
  {
    hide Lt;
    hide Mid;
    if left < right {
      var i := Mid(left, right);
      if i < p {
        LtAsymmetric(dir[i].end, key);
        LtIrreflexive(key);
      } else {
        SearchInAtLeast(dir, key, p, left, i);
      }
      SearchInAtLeast(dir, key, p, i + 1, right);
    }
  }

  /** Ends above a key stop the search, ends below it do not. */
  lemma {:induction false} SearchBounds(dir: seq<MetaNode>, key: Key, p: nat)
    requires p <= |dir|
    ensures (forall j :: p <= j < |dir| ==> Lt(key, dir[j].end)) ==> Search(dir, key) <= p
    ensures (forall j :: 0 <= j < p ==> Lt(dir[j].end, key)) ==> Search(dir, key) >= p
  {
    hide Lt;
    if forall j :: p <= j < |dir| ==> Lt(key, dir[j].end) {
      SearchInAtMost(dir, key, p, 0, |dir|);
    }
    if forall j :: 0 <= j < p ==> Lt(dir[j].end, key) {
      SearchInAtLeast(dir, key, p, 0, |dir|);
    }
  }

  // ---- a flush in front of place p --------------------------------------------------------------------

  /** What a flush in front of place p leaves: n more files there, all ending below the key. */
  ghost predicate Pushed(a: Store, b: Store, p: nat, key: Key) {
    && Loose(b) && |b.dir| >= |a.dir| && b.maxCount == a.maxCount
    && MovedBack(a, b, p, |b.dir| - |a.dir|)
    && SplitAt(b.dir, p + (|b.dir| - |a.dir|), key)
  }

  lemma {:induction false} PushedTwice(a: Store, b: Store, c: Store, p: nat, key: Key)
    requires Pushed(a, b, p, key) && Pushed(b, c, p + (|b.dir| - |a.dir|), key)
    ensures Pushed(a, c, p, key)
  {
    hide Lt;
    hide FileRecs;
    hide Loose;
    var m, n := |b.dir| - |a.dir|, |c.dir| - |b.dir|;
    forall j | p + (m + n) <= j < |c.dir|
      ensures c.dir[j] == a.dir[j - (m + n)] && FileRecs(c.files, c.dir[j]) == FileRecs(a.files, a.dir[j - (m + n)])
    {
      assert c.dir[j] == b.dir[j - n];
    }
  }

  lemma {:induction false} NothingPushed(st: Store, p: nat, key: Key)
    requires Loose(st) && SplitAt(st.dir, p, key)
    ensures WriteNew(st, []) == Done(st) && Pushed(st, st, p, key)
  {
    hide Lt;
    hide FileRecs;
    hide Loose;
  }

  /** Only file q changed, and its end stays below the key. */
  lemma {:induction false} OneChanges(a: Store, b: Store, q: nat, p: nat, key: Key)
    requires Loose(b) && |b.dir| == |a.dir| && b.maxCount == a.maxCount && SplitAt(a.dir, p, key)
    requires forall j :: 0 <= j < |a.dir| && j != q ==> SameFile(a, j, b, j)
    requires q < |a.dir| ==> q < p && Lt(b.dir[q].end, key)
    ensures Pushed(a, b, p, key)
  {
    hide Lt;
    hide FileRecs;
    hide Loose;
    forall j | 0 <= j < |b.dir|
      ensures j < p ==> Lt(b.dir[j].end, key)
      ensures j >= p ==> Le(key, b.dir[j].end)
      ensures j >= p ==> b.dir[j] == a.dir[j] && FileRecs(b.files, b.dir[j]) == FileRecs(a.files, a.dir[j])
    {
      assert j != q ==> SameFile(a, j, b, j);
    }
  }

  lemma {:induction false} NewFilePushes(st: Store, p: nat, chunk: seq<Rec>, key: Key)
    requires Loose(st) && ChunkOk(chunk) && chunk != [] && SplitAt(st.dir, p, key) && Lt(LastKey(chunk), key)
    ensures var o := Write(st.(name := FileName(|st.dir|)), chunk, true);
            o.Done? ==> Pushed(st, o.store, p, key)
  {
    hide Lt;
    hide Write;
    hide FileRecs;
    hide Loose;
    hide Search;
    hide FileName;
    hide ChunkOk;
    NewFileLoose(st, chunk);
    LtIsStrictTotalOrder();
    SearchBounds(st.dir, LastKey(chunk), p);
    var o := Write(st.(name := FileName(|st.dir|)), chunk, true);
    if o.Done? {
      var s, b := Search(st.dir, LastKey(chunk)), o.store;
      if |b.dir| == |st.dir| {
        OneChanges(st, b, |st.dir|, p, key);
      } else {
        assert b.dir[s].end == LastKey(chunk);
        forall j | 0 <= j < |b.dir|
          ensures j < p + 1 ==> Lt(b.dir[j].end, key)
          ensures j >= p + 1 ==> Le(key, b.dir[j].end)
        {
          if j < s {
            assert SameFile(st, j, b, j);
          }
        }
      }
    }
  }

  /** Chunks in a row, all below the key. */
  ghost predicate ChunksBelow(chunks: seq<seq<Rec>>, key: Key) {
    forall i :: 0 <= i < |chunks| ==>
      chunks[i] != [] && Sorted(chunks[i]) && Fit(Adds(chunks[i])) && Lt(LastKey(chunks[i]), key)
  }

  lemma {:induction false} ChunksBelowParts(chunks: seq<seq<Rec>>, key: Key)
    requires ChunksBelow(chunks, key) && chunks != []
    ensures chunks[0] != [] && Lt(LastKey(chunks[0]), key) && (Adds(chunks[0]) != [] ==> ChunkOk(chunks[0]))
    ensures ChunksBelow(chunks[1..], key)
  {
    hide Lt;
    hide Sorted;
    hide Adds;
    hide Fit;
    assert chunks[0] == chunks[0];
    assert forall i :: 0 <= i < |chunks[1..]| ==> chunks[1..][i] == chunks[i + 1];
  }

  lemma {:induction false} WriteNewPushes(st: Store, p: nat, chunks: seq<seq<Rec>>, key: Key)
    requires Loose(st) && SplitAt(st.dir, p, key) && ChunksBelow(chunks, key)
    ensures WriteNew(st, chunks).Done? ==> Pushed(st, WriteNew(st, chunks).store, p, key)
    decreases |chunks|
  {
    hide Lt;
    hide Write;
    hide WriteNew;
    hide ChunksBelow;
    hide ChunkOk;
    hide Loose;
    hide MovedBack;
    hide Adds;
    hide FileName;
    if chunks == [] {
      NothingPushed(st, p, key);
    } else {
      WriteNewUnfolds(st, chunks);
      ChunksBelowParts(chunks, key);
      if Adds(chunks[0]) == [] {
        NoAddsNoWrite(st, chunks[0], true);
      } else {
        NewFilePushes(st, p, chunks[0], key);
        var o := Write(st.(name := FileName(|st.dir|)), chunks[0], true);
        if o.Done? {
          WriteNewPushes(o.store, p + (|o.store.dir| - |st.dir|), chunks[1..], key);
          if WriteNew(st, chunks).Done? {
            PushedTwice(st, o.store, WriteNew(st, chunks).store, p, key);
          }
        }
      }
    }
  }

  lemma {:induction false} OverwritePushes(st: Store, q: nat, p: nat, chunk: seq<Rec>, key: Key)
    requires Loose(st) && q < p && q < |st.dir| && st.name == st.dir[q].name && ChunkOk(chunk) && chunk != []
    requires SplitAt(st.dir, p, key) && Lt(LastKey(chunk), key)
    ensures Write(st, chunk, false).Done? && Pushed(st, Write(st, chunk, false).store, p, key)
  {
    hide Lt;
    hide FileRecs;
    hide Write;
    hide Loose;
    hide Overwritten;
    hide ChunkOk;
    OverwriteLoose(st, q, chunk);
    var b := Overwritten(st, q, chunk);
    OverwrittenLimits(st, q, chunk);
    OneChanges(st, b, q, p, key);
  }

  lemma {:induction false} OverwrittenLimits(st: Store, q: nat, chunk: seq<Rec>)
    requires q < |st.dir| && chunk != []
    ensures Overwritten(st, q, chunk).maxCount == st.maxCount && |Overwritten(st, q, chunk).dir| == |st.dir|
  {
  }

  lemma {:induction false} RunInChunks(run: seq<Rec>, m: nat, key: Key)
    requires m > 0 && run != [] && Sorted(run) && ChunksFit(Chunks(run, m))
    requires forall i :: 0 <= i < |run| ==> Lt(run[i].key, key)
    ensures ChunksBelow(Chunks(run, m), key)
  {
    hide Lt;
    hide Chunks;
    hide Concat;
    hide Sorted;
    hide Adds;
    hide Fit;
    ChunksConserve(run, m);
    var chunks := Chunks(run, m);
    forall i | 0 <= i < |chunks|
      ensures chunks[i] != [] && Sorted(chunks[i]) && Lt(LastKey(chunks[i]), key)
    {
      PartSortedIn(chunks, i);
      PartIn(chunks, i, chunks[i][|chunks[i]| - 1]);
    }
  }

  lemma {:induction false} PartSortedIn(chunks: seq<seq<Rec>>, i: nat)
    requires i < |chunks| && Sorted(Concat(chunks))
    ensures Sorted(chunks[i])
  {
    hide Sorted;
    FirstAndRest(chunks);
    SortedParts(chunks[0], Concat(chunks[1..]));
    if i > 0 {
      PartSortedIn(chunks[1..], i - 1);
    }
  }

  /** The flush of a run whose keys lie below the next one. */
  lemma {:induction false} FlushPushes(st: Store, run: seq<Rec>, q: nat, p: nat, key: Key)
    requires Loose(st) && q < p && q < |st.dir| && st.name == st.dir[q].name && SplitAt(st.dir, p, key)
    requires run != [] && Sorted(run) && forall i :: 0 <= i < |run| ==> Lt(run[i].key, key)
    ensures st.maxCount > 0
    ensures ChunksFit(Chunks(run, st.maxCount)) && FlushMerge(st, run).Done? ==>
              Pushed(st, FlushMerge(st, run).store, p, key)
  {
    hide Lt;
    hide Write;
    hide WriteNew;
    hide FlushMerge;
    hide Loose;
    hide Chunks;
    hide ChunksBelow;
    hide ChunksFit;
    hide ChunkOk;
    hide MovedBack;
    hide Sorted;
    hide Adds;
    LooseParts(st);
    var chunks := Chunks(run, st.maxCount);
    if ChunksFit(chunks) && FlushMerge(st, run).Done? {
      RunInChunks(run, st.maxCount, key);
      ChunksBelowParts(chunks, key);
      FlushMergeUnfolds(st, run);
      if Adds(chunks[0]) == [] {
        NoAddsNoWrite(st, chunks[0], false);
      } else {
        OverwritePushes(st, q, p, chunks[0], key);
        var o := Write(st, chunks[0], false);
        WriteNewPushes(o.store, p + (|o.store.dir| - |st.dir|), chunks[1..], key);
        PushedTwice(st, o.store, FlushMerge(st, run).store, p, key);
      }
    }
  }
}
