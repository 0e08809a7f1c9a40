// The index that a merge finds before a flush and uses behind it.
module StaleIndex {
  import opened Keys
  import opened Records
  import opened Merging
  import opened Images
  import opened Metas
  import opened Stores
  import opened StoreLaws
  import opened FlushLaws
  import opened MergeLaws
  import opened MergeTheorem
  import opened MixedLists
  import opened LookupLaws

  // ---- where the files go ---------------------------------------------------------------------

  /** b is a with n more files from position p on: those in front stay, those behind move back. */
  ghost predicate Shifted(a: Store, b: Store, p: nat, n: nat) {
    && p <= |a.dir| && |b.dir| == |a.dir| + n
    && (forall j :: 0 <= j < p ==> b.dir[j] == a.dir[j] && FileRecs(b.files, b.dir[j]) == FileRecs(a.files, a.dir[j]))
    && MovedBack(a, b, p, n)
  }

  /** The files of a from p on stand n places further back in b. */
  ghost predicate MovedBack(a: Store, b: Store, p: nat, n: nat) {
    && |b.dir| == |a.dir| + n
    && forall j :: p + n <= j < |b.dir| ==>
         b.dir[j] == a.dir[j - n] && FileRecs(b.files, b.dir[j]) == FileRecs(a.files, a.dir[j - n])
  }

  /** File j holds the ADD records of the chunk, under its last key. */
  ghost predicate Holds(b: Store, j: nat, chunk: seq<Rec>) {
    j < |b.dir| && chunk != [] && b.dir[j].end == LastKey(chunk) && FileRecs(b.files, b.dir[j]) == Adds(chunk)
  }

  /** From position p on, one file for each chunk. */
  ghost predicate HoldsChunks(b: Store, p: nat, chunks: seq<seq<Rec>>) {
    p + |chunks| <= |b.dir| && forall i :: 0 <= i < |chunks| ==> Holds(b, p + i, chunks[i])
  }

  lemma {:induction false} ShiftedTwice(a: Store, b: Store, c: Store, p: nat, n: nat)
    requires Shifted(a, b, p, 1) && Shifted(b, c, p + 1, n)
    ensures Shifted(a, c, p, n + 1)
  {
    hide FileRecs;
    forall j | p + n + 1 <= j < |c.dir|
      ensures c.dir[j] == a.dir[j - (n + 1)]
      ensures FileRecs(c.files, c.dir[j]) == FileRecs(a.files, a.dir[j - (n + 1)])
    {
      assert c.dir[j] == b.dir[j - n];
    }
  }

  lemma {:induction false} OneMoreChunk(b: Store, c: Store, p: nat, chunks: seq<seq<Rec>>)
    requires chunks != [] && Holds(b, p, chunks[0])
    requires Shifted(b, c, p + 1, |chunks| - 1) && HoldsChunks(c, p + 1, chunks[1..])
    ensures HoldsChunks(c, p, chunks)
  {
    hide FileRecs;
    hide Adds;
    forall i | 0 <= i < |chunks|
      ensures Holds(c, p + i, chunks[i])
    {
      if i == 0 {
        assert c.dir[p] == b.dir[p];
      } else {
        assert Holds(c, p + 1 + (i - 1), chunks[1..][i - 1]);
      }
    }
  }

  lemma {:induction false} InsertedShifts(st: Store, p: nat, chunk: seq<Rec>)
    requires Inv(st) && p <= |st.dir| && ChunkOk(chunk)
    ensures Shifted(st, Inserted(st, p, chunk), p, 1)
    ensures Holds(Inserted(st, p, chunk), p, chunk)
  {
    hide Inv;
    hide FileRecs;
    hide WriteImage;
    hide ReadAll;
    hide BufferAfter;
    hide FileName;
    hide Adds;
    hide ChunkOk;
    FreshName(st);
    ChunkIsThere(chunk);
    var st' := Inserted(st, p, chunk);
    forall j | 0 <= j < |st.dir|
      ensures FileRecs(st'.files, st.dir[j]) == FileRecs(st.files, st.dir[j])
    {
      OtherFileStays(st.files, FileName(|st.dir|), WriteImage(chunk, st.buf), st.dir[j]);
    }
    WrittenFile(chunk, st.buf);
    FileNamed(st'.files, st'.dir[p]);
  }

  lemma {:induction false} ChunkIsThere(chunk: seq<Rec>)
    requires ChunkOk(chunk)
    ensures chunk != []
  {
  }

  lemma {:induction false} FileNamed(files: map<Name, Image>, n: MetaNode)
    requires n.name in files
    ensures FileRecs(files, n) == ReadAll(files[n.name])
  {
  }

  lemma {:induction false} NothingShifts(st: Store, p: nat)
    requires p <= |st.dir|
    ensures WriteNew(st, []) == Done(st) && Shifted(st, st, p, 0) && HoldsChunks(st, p, [])
  {
    hide FileRecs;
  }

  lemma {:induction false} WriteNewUnfolds(st: Store, chunks: seq<seq<Rec>>)
    requires chunks != []
    ensures WriteNew(st, chunks) ==
            var o := Write(st.(name := FileName(|st.dir|)), chunks[0], true);
            if o.Done? then WriteNew(o.store, chunks[1..]) else o
  {
    hide Write;
  }

  /** New files push the files behind them back, one place each. */
  lemma {:induction false} WriteNewShifts(st: Store, p: nat, chunks: seq<seq<Rec>>, hi: Key)
    requires Inv(st) && p <= |st.dir| && |st.dir| + |chunks| < st.maxFiles
    requires forall i :: 0 <= i < |chunks| ==> chunks[i] != []
    requires Sorted(Concat(chunks)) && ChunksFit(chunks)
    requires Within(Concat(chunks), st.dir, p, hi) && RoomBefore(st, p, hi)
    ensures WriteNew(st, chunks).Done? ==>
              && Shifted(st, WriteNew(st, chunks).store, p, |chunks|)
              && HoldsChunks(WriteNew(st, chunks).store, p, chunks)
    decreases |chunks|
  {
    hide Inv;
    hide Fit;
    hide Lt;
    hide FileRecs;
    hide Flat;
    hide Write;
    hide Within;
    hide RoomBefore;
    hide Sorted;
    hide Adds;
    hide AllAbove;
    hide Inserted;
    hide Shifted;
    hide HoldsChunks;
    hide Holds;
    hide Concat;
    hide WriteNew;
    if chunks == [] {
      NothingShifts(st, p);
    } else {
      WriteNewUnfolds(st, chunks);
      FirstAndRest(chunks);
      if Adds(chunks[0]) != [] {
        var chunk, rest := chunks[0], chunks[1..];
        PieceOfRun(chunk, Concat(rest), st.dir, p, hi);
        RoomBelow(st, p, LastKey(chunk), hi);
        InsertStep(st, p, chunk, Concat(rest), hi);
        InsertedShifts(st, p, chunk);
        var st1 := Inserted(st, p, chunk);
        WriteNewShifts(st1, p + 1, rest, hi);
        if WriteNew(st, chunks).Done? {
          ShiftedTwice(st, st1, WriteNew(st, chunks).store, p, |rest|);
          OneMoreChunk(st1, WriteNew(st, chunks).store, p, chunks);
        }
      } else {
        NoAddsNoWrite(st, chunks[0], true);
      }
    }
  }

  lemma {:induction false} OverwrittenHolds(st: Store, i: nat, chunk: seq<Rec>)
    requires Inv(st) && i < |st.dir| && ChunkOk(chunk)
    ensures Holds(Overwritten(st, i, chunk), i, chunk)
    ensures MovedBack(st, Overwritten(st, i, chunk), i + 1, 0)
  {
    hide FileRecs;
    hide WriteImage;
    hide ReadAll;
    hide BufferAfter;
    hide Adds;
    hide ChunkOk;
    hide NumberedBelow;
    hide FileOk;
    hide EndsRise;
    hide LsnsOk;
    ChunkIsThere(chunk);
    var st' := Overwritten(st, i, chunk);
    forall j | i < j < |st.dir|
      ensures FileRecs(st'.files, st'.dir[j]) == FileRecs(st.files, st.dir[j])
    {
      OtherFileStays(st.files, st.dir[i].name, WriteImage(chunk, st.buf), st.dir[j]);
    }
    WrittenFile(chunk, st.buf);
    FileNamed(st'.files, st'.dir[i]);
  }

  lemma {:induction false} MovesOn(a: Store, b: Store, c: Store, i: nat, n: nat)
    requires MovedBack(a, b, i + 1, 0) && Shifted(b, c, i + 1, n) && |b.dir| == |a.dir|
    ensures MovedBack(a, c, i + 1, n)
  {
    hide FileRecs;
    forall j | i + 1 + n <= j < |c.dir|
      ensures c.dir[j] == a.dir[j - n] && FileRecs(c.files, c.dir[j]) == FileRecs(a.files, a.dir[j - n])
    {
      assert c.dir[j] == b.dir[j - n];
    }
  }

  lemma {:induction false} FlushMergeUnfolds(st: Store, run: seq<Rec>)
    requires st.maxCount > 0
    ensures var chunks := Chunks(run, st.maxCount);
            var o := Write(st, chunks[0], false);
            FlushMerge(st, run) == if o.Done? then WriteNew(o.store, chunks[1..]) else o
  {
    hide Write;
    hide WriteNew;
    hide Chunks;
  }

  /** A rebuilt file becomes one file for each chunk of its run, the first in its old place; the
      files behind it move back by the number of files it was cut into, less one. */
  lemma {:induction false} FlushMergeShifts(st: Store, i: nat, run: seq<Rec>)
    requires Inv(st) && i < |st.dir| && st.name == st.dir[i].name
    requires run != [] && Sorted(run) && ChunksFit(Chunks(run, st.maxCount)) && Within(run, st.dir, i, st.dir[i].end)
    requires |st.dir| + |Chunks(run, st.maxCount)| <= st.maxFiles
    ensures FlushMerge(st, run).Done? ==>
              var chunks := Chunks(run, st.maxCount);
              && HoldsChunks(FlushMerge(st, run).store, i, chunks)
              && MovedBack(st, FlushMerge(st, run).store, i + 1, |chunks| - 1)
  {
    hide Lt;
    hide Inv;
    hide Fit;
    hide Flat;
    hide FileRecs;
    hide Chunks;
    hide Within;
    hide Write;
    hide WriteNew;
    hide FlushMerge;
    hide Overwritten;
    hide RoomBefore;
    hide Sorted;
    hide Adds;
    hide AllAbove;
    hide Concat;
    hide Shifted;
    hide MovedBack;
    hide HoldsChunks;
    hide Holds;
    InvPositive(st);
    var chunks := Chunks(run, st.maxCount);
    ChunksConserve(run, st.maxCount);
    FirstAndRest(chunks);
    FlushMergeUnfolds(st, run);
    if Adds(chunks[0]) != [] {
      var first, rest := chunks[0], chunks[1..];
      PieceOfRun(first, Concat(rest), st.dir, i, st.dir[i].end);
      OverwriteStep(st, i, first, Concat(rest));
      var st1 := Overwritten(st, i, first);
      OverwrittenHolds(st, i, first);
      WriteNewShifts(st1, i + 1, rest, st.dir[i].end);
      if FlushMerge(st, run).Done? {
        OneMoreChunk(st1, FlushMerge(st, run).store, i, chunks);
        MovesOn(st, st1, FlushMerge(st, run).store, i, |rest|);
      }
    } else {
      NoAddsNoWrite(st, chunks[0], false);
    }
  }

  // ---- one step of the walk ---------------------------------------------------------------------

  lemma {:induction false} OneChunkIff(run: seq<Rec>, m: nat)
    requires m > 0
    ensures |Chunks(run, m)| == 1 <==> |run| <= 2 * m
  {
  }

  /** No part of a cut file ends behind the file's old end. */
  lemma {:induction false} PartsEndUpTo(run: seq<Rec>, m: nat, hi: Key, i: nat)
    requires m > 0 && run != [] && i < |Chunks(run, m)| && forall j :: 0 <= j < |run| ==> Le(run[j].key, hi)
    ensures Chunks(run, m)[i] != [] && Le(LastKey(Chunks(run, m)[i]), hi)
  {
    hide Lt;
    hide Chunks;
    hide Concat;
    ChunksConserve(run, m);
    var c := Chunks(run, m)[i];
    PartIn(Chunks(run, m), i, c[|c| - 1]);
  }

  lemma {:induction false} PartIn(chunks: seq<seq<Rec>>, i: nat, r: Rec)
    requires i < |chunks| && r in chunks[i]
    ensures r in Concat(chunks)
  {
    if i > 0 {
      PartIn(chunks[1..], i - 1, r);
    }
  }

  /** The key's file is now as many places further back as there are new files. */
  lemma {:induction false} SearchShifts(st: Store, f: nat, run: seq<Rec>, b: Store, key: Key)
    requires Inv(st) && Inv(b) && f < |st.dir| && run != [] && Within(run, st.dir, f, st.dir[f].end)
    requires HoldsChunks(b, f, Chunks(run, st.maxCount))
    requires MovedBack(st, b, f + 1, |Chunks(run, st.maxCount)| - 1)
    requires f < Search(st.dir, key) < |st.dir|
    ensures var i, n := Search(st.dir, key), |Chunks(run, st.maxCount)| - 1;
            && |b.dir| == |st.dir| + n && b.dir[i + n] == st.dir[i]
            && FileRecs(b.files, b.dir[i + n]) == FileRecs(st.files, st.dir[i])
            && Search(b.dir, key) == i + n && Lt(b.dir[i + n - 1].end, key) && Le(key, st.dir[i].end)
  {
    hide Lt;
    hide Inv;
    hide FileRecs;
    hide Adds;
    hide Chunks;
    hide Search;
    InvEnds(st);
    InvEnds(b);
    var i, n := Search(st.dir, key), |Chunks(run, st.maxCount)| - 1;
    assert b.dir[i + n] == st.dir[i];
    SearchFinds(st.dir, key);
    if i > f + 1 {
      assert b.dir[i - 1 + n] == st.dir[i - 1];
    } else {
      PartsEndUpTo(run, st.maxCount, st.dir[f].end, n);
      LtIsStrictTotalOrder();
      assert Holds(b, f + n, Chunks(run, st.maxCount)[n]);
      assert Le(b.dir[f + n].end, st.dir[f].end) && Lt(st.dir[f].end, key);
    }
    SearchIs(b.dir, key, i + n);
  }

  /** The walk finds node i for a key of a later file, flushes the run of file f, and then takes the
      name at place i. That is the file of the key exactly if the flush did not cut its run: the
      file itself is now as many places further back as there are new files. */
  lemma {:induction false} StaleIndexIff(st: Store, f: nat, run: seq<Rec>, key: Key)
    requires Inv(st) && f < |st.dir| && st.name == st.dir[f].name
    requires run != [] && Sorted(run) && ChunksFit(Chunks(run, st.maxCount)) && Within(run, st.dir, f, st.dir[f].end)
    requires |st.dir| + |Chunks(run, st.maxCount)| <= st.maxFiles
    requires f < Search(st.dir, key) < |st.dir|
    ensures FlushMerge(st, run).Done? ==>
              var i, d := Search(st.dir, key), FlushMerge(st, run).store.dir;
              && i < |d| && (d[i].name == st.dir[i].name <==> |run| <= 2 * st.maxCount)
              && Search(d, key) == i + |Chunks(run, st.maxCount)| - 1
  {
    hide Lt;
    hide Fit;
    hide Inv;
    hide Flat;
    hide Within;
    hide Sorted;
    hide Adds;
    hide FlushMerge;
    hide Chunks;
    hide AllHaveAdds;
    hide Search;
    hide Overwritten;
    hide HoldsChunks;
    hide MovedBack;
    InvPositive(st);
    OneChunkIff(run, st.maxCount);
    FlushMergeCorrect(st, f, run);
    FlushMergeShifts(st, f, run);
    if FlushMerge(st, run).Done? {
      var b := FlushMerge(st, run).store;
      SearchShifts(st, f, run, b, key);
      InvNames(b);
    }
  }

  // ---- a file at the end ----------------------------------------------------------------------

  /** Merging a short run behind all files appends one file. */
  lemma {:induction false} MergeAppends(st: Store, run: seq<Rec>) returns (s: Store)
    requires Inv(st) && ChunkOk(run) && |run| <= 2 * st.maxCount && |st.dir| + 1 < st.maxFiles
    requires PastEnd(st.dir, run)
    ensures st.maxCount > 0 && Merge(st, run) == Done(s)
    ensures Inv(s) && s.maxCount == st.maxCount && s.maxFiles == st.maxFiles
    ensures Shifted(st, s, |st.dir|, 1) && Holds(s, |st.dir|, run)
  {
    hide Lt;
    hide Inv;
    hide FileRecs;
    hide Write;
    hide WriteNew;
    hide Merge;
    hide Inserted;
    hide Shifted;
    hide Holds;
    hide EndsRise;
    hide Within;
    hide RoomBefore;
    hide Fit;
    InvEnds(st);
    s := Inserted(st, |st.dir|, run);
    WalkFallsThrough(st, run);
    LastIsBehind(st, run);
    WriteInsertIs(st, |st.dir|, run);
    InsertCorrect(st, |st.dir|, run);
    InsertedShifts(st, |st.dir|, run);
    WriteNewUnfolds(st, [run]);
    assert [run][1..] == [];
    NoMoreChunks(s, []);
    InsertedLimits(st, |st.dir|, run);
  }

  lemma {:induction false} InsertedLimits(st: Store, p: nat, run: seq<Rec>)
    requires p <= |st.dir| && run != []
    ensures Inserted(st, p, run).maxCount == st.maxCount && Inserted(st, p, run).maxFiles == st.maxFiles
  {
  }

  lemma {:induction false} LastIsBehind(st: Store, run: seq<Rec>)
    requires run != [] && Sorted(run) && PastEnd(st.dir, run)
    ensures st.dir != [] ==> Lt(st.dir[|st.dir| - 1].end, LastKey(run))
    ensures Within(run, st.dir, |st.dir|, LastKey(run)) && RoomBefore(st, |st.dir|, LastKey(run))
  {
    hide Lt;
  }

  /** The merge of such a run is one the merge theorem speaks of. */
  lemma {:induction false} AppendIsMergeable(st: Store, run: seq<Rec>)
    requires Inv(st) && ChunkOk(run) && |run| <= 2 * st.maxCount && |st.dir| + 1 < st.maxFiles
    requires PastEnd(st.dir, run)
    ensures Mergeable(st, run)
  {
    hide Lt;
    hide Inv;
    hide Fit;
    hide Adds;
    hide Sorted;
    hide Rebuilt;
    hide Group;
    InvEnds(st);
    assert forall c :: c in [run] ==> c == run;
    forall i | 0 <= i < |st.dir|
      ensures Group(st.dir, run, i) == []
    {
      NoGroupInFront(st.dir, run, i);
    }
  }

  lemma {:induction false} NoGroupInFront(dir: seq<MetaNode>, run: seq<Rec>, i: nat)
    requires EndsRise(dir) && PastEnd(dir, run) && i < |dir|
    ensures Group(dir, run, i) == []
  {
    hide Lt;
    LtIsStrictTotalOrder();
  }
}
