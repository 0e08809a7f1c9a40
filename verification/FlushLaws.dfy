// Flushing one run: how it is cut into chunks, and what the chunks do to the store.
module FlushLaws {
  import opened Keys
  import opened Records
  import opened Merging
  import opened Codec
  import opened Images
  import opened Metas
  import opened Stores
  import opened StoreLaws

  function Concat(chunks: seq<seq<Rec>>): seq<Rec> {
    if chunks == [] then [] else chunks[0] + Concat(chunks[1..])
  }

  ghost predicate AllHaveAdds(chunks: seq<seq<Rec>>) {
    forall i :: 0 <= i < |chunks| ==> Adds(chunks[i]) != []
  }

  /** Each chunk by itself fits the byte format; the lengths of keys may differ between chunks. */
  ghost predicate ChunksFit(chunks: seq<seq<Rec>>) {
    forall i :: 0 <= i < |chunks| ==> Fit(Adds(chunks[i]))
  }

  // ---- splitting -------------------------------------------------------------------------

  lemma {:induction false} SplitConserves(run: seq<Rec>, m: nat)
    requires 0 < m <= |run|
    ensures Concat(Split(run, m)) == run
    ensures forall i :: 0 <= i < |Split(run, m)| ==> m <= |Split(run, m)[i]| < 2 * m
    decreases |run|
  {
    if |run| < 2 * m {
      assert Split(run, m)[1..] == [];
    } else {
      SplitConserves(run[m..], m);
      var c := Split(run, m);
      assert c[1..] == Split(run[m..], m);
      assert forall i :: 1 <= i < |c| ==> c[i] == Split(run[m..], m)[i - 1];
      assert run == run[..m] + run[m..];
    }
  }

  /** Cutting a run loses and duplicates nothing; above two full chunks every piece
      has at least maxCount and fewer than twice maxCount records. */
  lemma {:induction false} ChunksConserve(run: seq<Rec>, m: nat)
    requires m > 0
    ensures Concat(Chunks(run, m)) == run
    ensures |run| > 2 * m ==> forall i :: 0 <= i < |Chunks(run, m)| ==> m <= |Chunks(run, m)[i]| < 2 * m
    ensures |run| <= 2 * m ==> Chunks(run, m) == [run]
    ensures run != [] ==> forall i :: 0 <= i < |Chunks(run, m)| ==> Chunks(run, m)[i] != []
  {
    if |run| <= 2 * m {
      assert Chunks(run, m)[1..] == [];
    } else {
      SplitConserves(run, m);
    }
  }

  // ---- writing new files in a row -----------------------------------------------------------

  lemma {:induction false} PieceOfRun(a: seq<Rec>, b: seq<Rec>, dir: seq<MetaNode>, p: nat, hi: Key)
    requires a != [] && Sorted(a + b) && Within(a + b, dir, p, hi)
    ensures Sorted(a) && Within(a, dir, p, hi) && Within(a, dir, p, LastKey(a)) && Le(LastKey(a), hi)
    ensures 0 < p <= |dir| ==> Lt(dir[p - 1].end, LastKey(a))
    ensures Sorted(b) && AllAbove(b, LastKey(a))
    ensures forall j :: 0 <= j < |b| ==> Le(b[j].key, hi)
  {
    hide Lt;
    var s := a + b;
    assert forall j :: 0 <= j < |a| ==> s[j] == a[j];
    assert forall j :: 0 <= j < |b| ==> s[|a| + j] == b[j];
    assert s[|a| - 1] == a[|a| - 1];
  }

  lemma {:induction false} RoomBelow(st: Store, p: nat, lo: Key, hi: Key)
    requires RoomBefore(st, p, hi) && Le(lo, hi)
    ensures RoomBefore(st, p, lo)
  {
    hide Lt;
    hide FileRecs;
    LtIsStrictTotalOrder();
  }

  /** A run that fits between two neighbouring files, written chunk by chunk into new ones. */
  lemma {:induction false} WriteNewCorrect(st: Store, p: nat, chunks: seq<seq<Rec>>, hi: Key)
    requires Inv(st) && p <= |st.dir| && |st.dir| + |chunks| < st.maxFiles
    requires forall i :: 0 <= i < |chunks| ==> chunks[i] != []
    requires Sorted(Concat(chunks)) && ChunksFit(chunks)
    requires Within(Concat(chunks), st.dir, p, hi) && RoomBefore(st, p, hi)
    ensures WriteNew(st, chunks).Done? <==> AllHaveAdds(chunks)
    ensures WriteNew(st, chunks).Done? ==>
              var st' := WriteNew(st, chunks).store;
              && Inv(st') && st'.maxCount == st.maxCount && st'.maxFiles == st.maxFiles
              && Flat(st'.dir, st'.files) ==
                 Flat(st.dir[..p], st.files) + Adds(Concat(chunks)) + Flat(st.dir[p..], st.files)
    decreases |chunks|
  {
    hide Inv;
    hide Fit;
    hide Lt;
    hide FileRecs;
    hide Flat;
    hide Write;
    hide Inserted;
    hide Within;
    hide RoomBefore;
    hide Sorted;
    hide Adds;
    hide AllHaveAdds;
    hide AllAbove;
    if chunks == [] {
      NoChunks(chunks);
      assert st.dir == st.dir[..p] + st.dir[p..];
      FlatConcat(st.dir[..p], st.dir[p..], st.files);
    } else if Adds(chunks[0]) != [] {
      var chunk, rest := chunks[0], chunks[1..];
      PieceOfRun(chunk, Concat(rest), st.dir, p, hi);
      RoomBelow(st, p, LastKey(chunk), hi);
      InsertStep(st, p, chunk, Concat(rest), hi);
      var st1 := Inserted(st, p, chunk);
      WriteNewCorrect(st1, p + 1, rest, hi);
      AddsConcat(chunk, Concat(rest));
      HeadAndTail(chunks);
    } else {
      HeadAndTail(chunks);
      NoAddsNoWrite(st, chunks[0], true);
    }
  }

  lemma {:induction false} NoChunks(chunks: seq<seq<Rec>>)
    requires chunks == []
    ensures AllHaveAdds(chunks) && Adds(Concat(chunks)) == []
  {
  }

  lemma {:induction false} NoAddsNoWrite(st: Store, chunk: seq<Rec>, isNew: bool)
    requires Adds(chunk) == []
    ensures Write(st.(name := FileName(|st.dir|)), chunk, isNew).Stopped? && Write(st, chunk, isNew).Stopped?
  {
  }

  lemma {:induction false} FirstAndRest(chunks: seq<seq<Rec>>)
    requires chunks != []
    ensures Concat(chunks) == chunks[0] + Concat(chunks[1..])
  {
  }

  lemma {:induction false} HeadAndTail(chunks: seq<seq<Rec>>)
    requires chunks != []
    ensures AllHaveAdds(chunks) <==> Adds(chunks[0]) != [] && AllHaveAdds(chunks[1..])
  {
    hide Adds;
    if Adds(chunks[0]) != [] && AllHaveAdds(chunks[1..]) {
      assert forall i :: 1 <= i < |chunks| ==> chunks[i] == chunks[1..][i - 1];
    }
  }

  lemma {:induction false} FreshName(st: Store)
    requires Inv(st)
    ensures forall i :: 0 <= i < |st.dir| ==> st.dir[i].name != FileName(|st.dir|)
  {
    hide FileOk;
    hide FileName;
    InsertNames(st.dir, |st.dir|, MetaNode([], FileName(|st.dir|), 0, |st.dir| + 1));
  }

  /** The room that is left behind a new file for the rest of the run. */
  lemma {:induction false} InsertLeavesRoom(st: Store, p: nat, chunk: seq<Rec>, rest: seq<Rec>, hi: Key)
    requires p <= |st.dir| && chunk != [] && RoomBefore(st, p, hi)
    requires AllAbove(rest, LastKey(chunk)) && forall j :: 0 <= j < |rest| ==> Le(rest[j].key, hi)
    requires p < |st.dir| ==> st.dir[p].name != FileName(|st.dir|)
    ensures var st' := Inserted(st, p, chunk);
            Within(rest, st'.dir, p + 1, hi) && RoomBefore(st', p + 1, hi)
  {
    hide Lt;
    hide ReadAll;
    hide WriteImage;
    hide FileName;
    var st' := Inserted(st, p, chunk);
    assert p < |st.dir| ==> st'.dir[p + 1] == st.dir[p];
  }

  lemma {:induction false} InsertStep(st: Store, p: nat, chunk: seq<Rec>, rest: seq<Rec>, hi: Key)
    requires Inv(st) && p <= |st.dir| && |st.dir| + 1 < st.maxFiles
    requires ChunkOk(chunk) && Within(chunk, st.dir, p, LastKey(chunk))
    requires 0 < p ==> Lt(st.dir[p - 1].end, LastKey(chunk))
    requires RoomBefore(st, p, hi) && RoomBefore(st, p, LastKey(chunk))
    requires AllAbove(rest, LastKey(chunk)) && forall j :: 0 <= j < |rest| ==> Le(rest[j].key, hi)
    ensures Write(st.(name := FileName(|st.dir|)), chunk, true) == Done(Inserted(st, p, chunk))
    ensures var st' := Inserted(st, p, chunk);
            && |st'.dir| == |st.dir| + 1 && st'.maxCount == st.maxCount && st'.maxFiles == st.maxFiles
            && Inv(st') && Within(rest, st'.dir, p + 1, hi) && RoomBefore(st', p + 1, hi)
            && Flat(st'.dir[..p + 1], st'.files) == Flat(st.dir[..p], st.files) + Adds(chunk)
            && Flat(st'.dir[p + 1..], st'.files) == Flat(st.dir[p..], st.files)
  {
    hide Lt;
    hide FileOk;
    hide FileName;
    hide Write;
    hide NamesOk;
    hide LsnsOk;
    hide FileRecs;
    FreshName(st);
    WriteInsertIs(st, p, chunk);
    InsertCorrect(st, p, chunk);
    InsertLeavesRoom(st, p, chunk, rest, hi);
  }

  // ---- the two flushes -------------------------------------------------------------------------

  /** A list whose keys all lie behind the last file becomes new files at the end. */
  lemma {:induction false} FlushNewCorrect(st: Store, run: seq<Rec>)
    requires Inv(st) && run != [] && Sorted(run) && ChunksFit(Chunks(run, st.maxCount))
    requires st.dir != [] ==> AllAbove(run, st.dir[|st.dir| - 1].end)
    requires |st.dir| + |Chunks(run, st.maxCount)| < st.maxFiles
    ensures FlushNew(st, run).Done? <==> AllHaveAdds(Chunks(run, st.maxCount))
    ensures FlushNew(st, run).Done? ==>
              var st' := FlushNew(st, run).store;
              && Inv(st') && st'.maxCount == st.maxCount && st'.maxFiles == st.maxFiles
              && Flat(st'.dir, st'.files) == Flat(st.dir, st.files) + Adds(run)
  {
    hide Lt;
    hide Inv;
    hide Fit;
    hide Flat;
    hide Chunks;
    assert st.maxCount > 0 by { assert Inv(st); InvPositive(st); }
    ChunksConserve(run, st.maxCount);
    BelowLast(run);
    WriteNewCorrect(st, |st.dir|, Chunks(run, st.maxCount), LastKey(run));
    assert st.dir[..|st.dir|] == st.dir && st.dir[|st.dir|..] == [];
    assert Flat([], st.files) == [] by { FlatEmpty(st.files); }
  }

  lemma {:induction false} FlatEmpty(files: map<Name, Image>)
    ensures Flat([], files) == []
  {
  }

  lemma {:induction false} InvPositive(st: Store)
    requires Inv(st)
    ensures st.maxCount > 0
  {
  }

  lemma {:induction false} BelowLast(run: seq<Rec>)
    requires run != [] && Sorted(run)
    ensures forall j :: 0 <= j < |run| ==> Le(run[j].key, LastKey(run))
  {
    hide Lt;
  }

  /** A rebuilt file goes back under its own name; what exceeds two chunks moves into new
      files right behind it. Only that stretch of the store changes. */
  lemma {:induction false} FlushMergeCorrect(st: Store, i: nat, run: seq<Rec>)
    requires Inv(st) && i < |st.dir| && st.name == st.dir[i].name
    requires run != [] && Sorted(run) && ChunksFit(Chunks(run, st.maxCount)) && Within(run, st.dir, i, st.dir[i].end)
    requires |st.dir| + |Chunks(run, st.maxCount)| <= st.maxFiles
    ensures FlushMerge(st, run).Done? <==> AllHaveAdds(Chunks(run, st.maxCount))
    ensures FlushMerge(st, run).Done? ==>
              var st' := FlushMerge(st, run).store;
              && Inv(st') && st'.maxCount == st.maxCount && st'.maxFiles == st.maxFiles
              && Flat(st'.dir, st'.files) ==
                 Flat(st.dir[..i], st.files) + Adds(run) + Flat(st.dir[i + 1..], st.files)
    ensures FlushMerge(st, run).Done? && |run| <= 2 * st.maxCount ==>
              FlushMerge(st, run).store == Overwritten(st, i, run)
  {
    hide Lt;
    hide Inv;
    hide Fit;
    hide Flat;
    hide Chunks;
    hide Within;
    hide Write;
    hide WriteNew;
    hide Overwritten;
    hide RoomBefore;
    hide Sorted;
    hide Adds;
    hide AllHaveAdds;
    hide AllAbove;
    hide Concat;
    InvPositive(st);
    var chunks := Chunks(run, st.maxCount);
    ChunksConserve(run, st.maxCount);
    HeadAndTail(chunks);
    FirstAndRest(chunks);
    if Adds(chunks[0]) != [] {
      var first, rest := chunks[0], chunks[1..];
      PieceOfRun(first, Concat(rest), st.dir, i, st.dir[i].end);
      AddsConcat(first, Concat(rest));
      OverwriteStep(st, i, first, Concat(rest));
      var st1 := Overwritten(st, i, first);
      WriteNewCorrect(st1, i + 1, rest, st.dir[i].end);
      NoMoreChunks(st1, rest);
    } else {
      NoAddsNoWrite(st, chunks[0], false);
    }
  }

  lemma {:induction false} NoMoreChunks(st: Store, chunks: seq<seq<Rec>>)
    ensures chunks == [] ==> WriteNew(st, chunks) == Done(st)
  {
  }

  lemma {:induction false} OverwriteStep(st: Store, i: nat, chunk: seq<Rec>, rest: seq<Rec>)
    requires Inv(st) && i < |st.dir| && st.name == st.dir[i].name
    requires ChunkOk(chunk) && Within(chunk, st.dir, i, st.dir[i].end)
    requires AllAbove(rest, LastKey(chunk)) && forall j :: 0 <= j < |rest| ==> Le(rest[j].key, st.dir[i].end)
    ensures Write(st, chunk, false) == Done(Overwritten(st, i, chunk))
    ensures var st' := Overwritten(st, i, chunk);
            && |st'.dir| == |st.dir| && st'.maxCount == st.maxCount && st'.maxFiles == st.maxFiles
            && Inv(st') && Within(rest, st'.dir, i + 1, st.dir[i].end)
            && RoomBefore(st', i + 1, st.dir[i].end)
            && Flat(st'.dir[..i + 1], st'.files) == Flat(st.dir[..i], st.files) + Adds(chunk)
            && Flat(st'.dir[i + 1..], st'.files) == Flat(st.dir[i + 1..], st.files)
  {
    hide Lt;
    hide FileOk;
    hide Write;
    hide LsnsOk;
    hide FileRecs;
    WriteOverIs(st, i, chunk);
    OverwriteCorrect(st, i, chunk);
    OverwriteLeavesRoom(st, i, chunk, rest);
  }

  lemma {:induction false} OverwriteLeavesRoom(st: Store, i: nat, chunk: seq<Rec>, rest: seq<Rec>)
    requires Inv(st) && i < |st.dir| && chunk != []
    requires Le(LastKey(chunk), st.dir[i].end)
    requires FileRecs(Overwritten(st, i, chunk).files, Overwritten(st, i, chunk).dir[i]) == Adds(chunk)
    requires AllAbove(rest, LastKey(chunk)) && forall j :: 0 <= j < |rest| ==> Le(rest[j].key, st.dir[i].end)
    ensures var st' := Overwritten(st, i, chunk);
            && Within(rest, st'.dir, i + 1, st.dir[i].end)
            && RoomBefore(st', i + 1, st.dir[i].end)
            && Flat(st'.dir[..i + 1], st'.files) == Flat(st.dir[..i], st.files) + Adds(chunk)
            && Flat(st'.dir[i + 1..], st'.files) == Flat(st.dir[i + 1..], st.files)
  {
    hide Lt;
    hide Inv;
    hide FileRecs;
    hide Flat;
    hide WriteImage;
    hide BufferAfter;
    hide Adds;
    var st' := Overwritten(st, i, chunk);
    forall j | 0 <= j < |st.dir| && j != i
      ensures FileRecs(st'.files, st'.dir[j]) == FileRecs(st.files, st.dir[j])
    {
      OverwriteOthers(st, i, chunk, j);
    }
    if i + 1 < |st.dir| {
      FileRange(st, i + 1);
    }
    FlatSame(st.dir[..i], st'.dir[..i], st.files, st'.files);
    FlatSame(st.dir[i + 1..], st'.dir[i + 1..], st.files, st'.files);
    FlatSnoc(st'.dir, i, st'.files);
  }

  lemma {:induction false} FlatSnoc(dir: seq<MetaNode>, i: nat, files: map<Name, Image>)
    requires i < |dir|
    ensures Flat(dir[..i + 1], files) == Flat(dir[..i], files) + FileRecs(files, dir[i])
  {
    assert dir[..i + 1][..i] == dir[..i];
  }

  /** A file's keys lie above the end of the file before it. */
  lemma {:induction false} FileRange(st: Store, i: nat)
    requires Inv(st) && 0 < i < |st.dir|
    ensures AllAbove(FileRecs(st.files, st.dir[i]), st.dir[i - 1].end)
    ensures Lt(st.dir[i - 1].end, st.dir[i].end)
  {
    assert FileOk(st, i);
  }
}
