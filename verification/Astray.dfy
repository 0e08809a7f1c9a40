// A record that went into a run in front of its own file, and what is left when that run is cut.
module Astrays {
  import opened Keys
  import opened Records
  import opened Merging
  import opened Images
  import opened Metas
  import opened Stores
  import opened StoreLaws
  import opened FlushLaws
  import opened MergeLaws
  import opened MergeTheorem
  import opened RestartLaws
  import opened StaleIndex
  import opened CutLists
  import opened CutRests
  import opened LostTails
  import opened Lacking
  import opened LooseStores
  import opened Strides
  import opened Damages

  /** The file with the record behind it. */
  ghost function StrayRun(s: Store, t: nat, cur: Rec): seq<Rec>
    requires t < |s.dir|
  {
    FileRecs(s.files, s.dir[t]) + [cur]
  }

  lemma {:induction false} StrayParts(s: Store, t: nat, cur: Rec, p: nat)
    requires Astray(s, t, cur, p)
    ensures s.maxCount > 0 && Inv(s) && t < p < |s.dir|
    ensures var l, run := FileRecs(s.files, s.dir[t]), StrayRun(s, t, cur);
            && l != [] && Sorted(l) && Within(l, s.dir, t, s.dir[t].end)
            && AllBelow(l, cur.key) && Lt(s.dir[t].end, cur.key)
            && Upsert(l, cur) == run && Sorted(run) && RunUpTo(run, cur.key)
            && Adds(run) == l + Adds([cur]) && Adds(run) != []
  {
    hide Lt;
    hide FileRecs;
    hide Inv;
    hide Adds;
    hide Upsert;
    InvPositive(s);
    assert Lt(s.dir[t].end, cur.key);
    LandsBehind(s, t, cur);
    FileOf(s, t);
    FileWithin(s, t);
    UpsertSorted(FileRecs(s.files, s.dir[t]), cur);
  }

  lemma {:induction false} StrayRides(s: Store, t: nat, cur: Rec, p: nat)
    requires Astray(s, t, cur, p)
    ensures Riding(s, StrayRun(s, t, cur), t, p, cur.key)
  {
    hide Lt;
    hide FileRecs;
    hide Inv;
    hide Loose;
    hide Adds;
    hide Upsert;
    StrayParts(s, t, cur, p);
    InvIsLoose(s);
    InvEnds(s);
  }

  // ---- a run that is cut -----------------------------------------------------------------------

  lemma {:induction false} ConcatLast(chunks: seq<seq<Rec>>)
    requires chunks != []
    ensures Concat(chunks) == Concat(chunks[..|chunks| - 1]) + chunks[|chunks| - 1]
  {
    if |chunks| == 1 {
      assert chunks[1..] == [];
    } else {
      ConcatLast(chunks[1..]);
      var front := chunks[..|chunks| - 1];
      assert front[1..] == chunks[1..][..|chunks| - 2];
    }
  }

  /** The last part of a cut run has more than one record. */
  lemma {:induction false} LastPart(run: seq<Rec>, m: nat)
    requires m > 1 && |run| > 2 * m
    ensures var c := Chunks(run, m);
            var last := c[|c| - 1];
            && |c| >= 2 && 2 <= |last| <= |run| && last == run[|run| - |last|..]
            && Concat(c[..|c| - 1]) == run[..|run| - |last|]
            && forall i :: 0 <= i < |c| ==> c[i] != [] && |c[i]| < 2 * m
  {
    hide Chunks;
    hide Concat;
    OneChunkIff(run, m);
    ChunksConserve(run, m);
    ConcatLast(Chunks(run, m));
  }

  lemma {:induction false} WriteNewLast(st: Store, chunks: seq<seq<Rec>>)
    requires chunks != []
    ensures WriteNew(st, chunks) ==
            var o := WriteNew(st, chunks[..|chunks| - 1]);
            if o.Done? then Write(o.store.(name := FileName(|o.store.dir|)), chunks[|chunks| - 1], true) else o
    decreases |chunks|
  {
    hide Write;
    hide FileName;
    hide WriteNew;
    var front := chunks[..|chunks| - 1];
    WriteNewUnfolds(st, chunks);
    var o := Write(st.(name := FileName(|st.dir|)), chunks[0], true);
    if |chunks| == 1 {
      NoMoreChunks(st, front);
      if o.Done? {
        NoMoreChunks(o.store, chunks[1..]);
      }
    } else {
      WriteNewUnfolds(st, front);
      if o.Done? {
        WriteNewLast(o.store, chunks[1..]);
        assert front[1..] == chunks[1..][..|chunks| - 2];
      }
    }
  }

  /** The parts of the run that are written before the last one. */
  ghost function FirstParts(s: Store, t: nat, cur: Rec): seq<seq<Rec>>
    requires t < |s.dir| && s.maxCount > 0
  {
    var c := Chunks(StrayRun(s, t, cur), s.maxCount); c[..|c| - 1]
  }

  ghost function FinalPart(s: Store, t: nat, cur: Rec): seq<Rec>
    requires t < |s.dir| && s.maxCount > 0
  {
    var c := Chunks(StrayRun(s, t, cur), s.maxCount); c[|c| - 1]
  }

  /** The run is cut, and all that is written fits. */
  ghost predicate CutAstray(s: Store, t: nat, cur: Rec, p: nat) {
    && Astray(s, t, cur, p) && s.maxCount > 1
    && var run := StrayRun(s, t, cur);
       && |run| > 2 * s.maxCount && ChunksFit(Chunks(run, s.maxCount))
       && |s.dir| + |Chunks(run, s.maxCount)| <= s.maxFiles
  }

  lemma {:induction false} CutParts(s: Store, t: nat, cur: Rec, p: nat)
    requires CutAstray(s, t, cur, p)
    ensures Astray(s, t, cur, p) && s.maxCount > 1
    ensures var first, last, l := FirstParts(s, t, cur), FinalPart(s, t, cur), FileRecs(s.files, s.dir[t]);
            && first != [] && 2 <= |last| <= |l| && Chunks(StrayRun(s, t, cur), s.maxCount) == first + [last]
            && Concat(first) == l[..|l| + 1 - |last|] && last == l[|l| + 1 - |last|..] + [cur]
            && ChunksFit(first + [last]) && |s.dir| + |first| < s.maxFiles
            && (forall i :: 0 <= i < |first| ==> first[i] != [] && |first[i]| < 2 * s.maxCount)
            && |last| < 2 * s.maxCount
  {
    hide Astray;
    hide Chunks;
    hide Concat;
    hide FileRecs;
    hide ChunksFit;
    AstrayPlace(s, t, cur, p);
    var run := StrayRun(s, t, cur);
    LastPart(run, s.maxCount);
    var c, l := Chunks(run, s.maxCount), FileRecs(s.files, s.dir[t]);
    assert c == c[..|c| - 1] + [c[|c| - 1]];
    var n := |run| - |c[|c| - 1]|;
    assert run[..n] == l[..n] && run[n..] == l[n..] + [cur];
  }

  lemma {:induction false} AstrayPlace(s: Store, t: nat, cur: Rec, p: nat)
    requires Astray(s, t, cur, p)
    ensures Inv(s) && t < p < |s.dir| && s.name == s.dir[t].name && SplitAt(s.dir, p, cur.key)
  {
  }

  /** The store with all parts written but the last: they stand from place t on. */
  ghost predicate Halfway(s: Store, t: nat, cur: Rec, a: Store)
    requires t < |s.dir| && s.maxCount > 0
  {
    && Inv(a) && a.maxCount == s.maxCount && FirstParts(s, t, cur) != []
    && HoldsChunks(a, t, FirstParts(s, t, cur))
    && MovedBack(s, a, t + 1, |FirstParts(s, t, cur)| - 1)
  }

  lemma {:induction false} FirstPartsFit(s: Store, t: nat, cur: Rec, p: nat)
    requires CutAstray(s, t, cur, p)
    ensures t < |s.dir| && s.maxCount > 0
    ensures var first := FirstParts(s, t, cur);
            && first != [] && first[0] != [] && Sorted(Concat(first)) && ChunksFit(first)
            && Within(Concat(first), s.dir, t, s.dir[t].end) && Concat(first) == first[0] + Concat(first[1..])
            && (Adds(first[0]) != [] ==> ChunkOk(first[0]))
            && ChunksFit(first[1..]) && forall i :: 0 <= i < |first[1..]| ==> first[1..][i] != []
  {
    hide Lt;
    hide Astray;
    hide Chunks;
    hide Concat;
    hide FileRecs;
    hide Adds;
    hide Fit;
    hide Upsert;
    hide Inv;
    hide Within;
    hide Sorted;
    CutParts(s, t, cur, p);
    StrayParts(s, t, cur, p);
    var first, last := FirstParts(s, t, cur), FinalPart(s, t, cur);
    FirstAndRest(first);
    assert forall i :: 0 <= i < |first| ==> (first + [last])[i] == first[i];
    FrontWithin(FileRecs(s.files, s.dir[t]), |Concat(first)|, s.dir, t, s.dir[t].end);
    SortedParts(first[0], Concat(first[1..]));
  }

  lemma {:induction false} FrontWithin(l: seq<Rec>, n: nat, dir: seq<MetaNode>, t: nat, hi: Key)
    requires n <= |l| && Sorted(l) && Within(l, dir, t, hi)
    ensures Sorted(l[..n]) && Within(l[..n], dir, t, hi)
  {
    hide Lt;
    assert l == l[..n] + l[n..];
    SortedParts(l[..n], l[n..]);
  }

  /** The flush of the cut run writes the parts in front, and then the last one. */
  lemma {:induction false} HalfwayThere(s: Store, t: nat, cur: Rec, p: nat) returns (a: Store)
    requires CutAstray(s, t, cur, p) && s.maxCount > 0 && FlushMerge(s, StrayRun(s, t, cur)).Done?
    ensures Halfway(s, t, cur, a)
    ensures FlushMerge(s, StrayRun(s, t, cur)) == Write(a.(name := FileName(|a.dir|)), FinalPart(s, t, cur), true)
  {
    hide Lt;
    hide Astray;
    hide CutAstray;
    hide Chunks;
    hide Concat;
    hide FileRecs;
    hide Adds;
    hide Fit;
    hide ChunksFit;
    hide ChunkOk;
    hide Inv;
    hide Write;
    hide WriteNew;
    hide FlushMerge;
    hide Overwritten;
    hide Within;
    hide Sorted;
    hide Holds;
    hide HoldsChunks;
    hide MovedBack;
    hide Shifted;
    hide Flat;
    hide AllAbove;
    hide RoomBefore;
    hide AllHaveAdds;
    CutParts(s, t, cur, p);
    AstrayPlace(s, t, cur, p);
    FirstPartsFit(s, t, cur, p);
    var run, first, last := StrayRun(s, t, cur), FirstParts(s, t, cur), FinalPart(s, t, cur);
    FlushMergeUnfolds(s, run);
    assert (first + [last])[1..] == first[1..] + [last];
    if Adds(first[0]) == [] {
      NoAddsNoWrite(s, first[0], false);
    }
    PieceOfRun(first[0], Concat(first[1..]), s.dir, t, s.dir[t].end);
    OverwriteStep(s, t, first[0], Concat(first[1..]));
    var st := Overwritten(s, t, first[0]);
    WriteNewLast(st, first[1..] + [last]);
    assert (first[1..] + [last])[..|first| - 1] == first[1..];
    WriteNewCorrect(st, t + 1, first[1..], s.dir[t].end);
    WriteNewShifts(st, t + 1, first[1..], s.dir[t].end);
    a := WriteNew(st, first[1..]).store;
    OverwrittenHolds(s, t, first[0]);
    OneMoreChunk(st, a, t, first);
    MovesOn(s, st, a, t, |first| - 1);
  }

  // ---- what the last part does ---------------------------------------------------------------------

  /** The record that the last part starts with: it is one of the file. */
  ghost function FirstOfFinal(s: Store, t: nat, cur: Rec): Rec
    requires t < |s.dir| && s.maxCount > 0 && FinalPart(s, t, cur) != []
  {
    FinalPart(s, t, cur)[0]
  }

  lemma {:induction false} FinalIsThere(s: Store, t: nat, cur: Rec, p: nat)
    requires CutAstray(s, t, cur, p)
    ensures t < |s.dir| && s.maxCount > 0 && FinalPart(s, t, cur) != []
    ensures var x, last, l := FirstOfFinal(s, t, cur), FinalPart(s, t, cur), FileRecs(s.files, s.dir[t]);
            && x in l && last[0] == x && LastKey(last) == cur.key && x in last && Fit(Adds(last))
            && Concat(FirstParts(s, t, cur)) + last == StrayRun(s, t, cur) && |last| > 1
  {
    hide Lt;
    hide Astray;
    hide Chunks;
    hide Concat;
    hide Adds;
    hide Fit;
    hide Inv;
    hide FileRecs;
    CutParts(s, t, cur, p);
    AstrayPlace(s, t, cur, p);
    var l, first, last := FileRecs(s.files, s.dir[t]), FirstParts(s, t, cur), FinalPart(s, t, cur);
    var n := |l| + 1 - |last|;
    assert last[0] == l[n] && last[|last| - 1] == cur;
    assert (first + [last])[|first|] == last;
    assert l == l[..n] + l[n..];
  }

  lemma {:induction false} StrayOrder(s: Store, t: nat, cur: Rec, p: nat, x: Rec)
    requires Astray(s, t, cur, p) && x in FileRecs(s.files, s.dir[t])
    ensures Sorted(StrayRun(s, t, cur)) && x.opt == ADD && Lt(x.key, cur.key) && Le(x.key, s.dir[t].end)
  {
    hide Lt;
    hide Inv;
    hide Adds;
    hide Upsert;
    hide SplitAt;
    hide RunUpTo;
    AllFileAdds(s, t);
    hide FileRecs;
    StrayParts(s, t, cur, p);
  }

  lemma {:induction false} FinalStarts(s: Store, t: nat, cur: Rec, p: nat)
    requires CutAstray(s, t, cur, p)
    ensures t < |s.dir| && s.maxCount > 0 && FinalPart(s, t, cur) != []
    ensures var x, last := FirstOfFinal(s, t, cur), FinalPart(s, t, cur);
            && x in FileRecs(s.files, s.dir[t]) && x.opt == ADD && Lt(x.key, cur.key) && Le(x.key, s.dir[t].end)
            && ChunkOk(last) && last[0] == x && LastKey(last) == cur.key && x in Adds(last)
            && forall i :: 0 <= i < |last| ==> Le(x.key, last[i].key)
    ensures AllBelow(Concat(FirstParts(s, t, cur)), FirstOfFinal(s, t, cur).key)
  {
    hide Lt;
    hide CutAstray;
    hide Chunks;
    hide Concat;
    hide Adds;
    hide Fit;
    hide FileRecs;
    hide Inv;
    AstrayCut(s, t, cur, p);
    FinalIsThere(s, t, cur, p);
    var x, last := FirstOfFinal(s, t, cur), FinalPart(s, t, cur);
    StrayOrder(s, t, cur, p, x);
    var front := Concat(FirstParts(s, t, cur));
    SortedParts(front, last);
    var run := front + last;
    assert run[|front|] == x;
    assert forall j :: 0 <= j < |front| ==> run[j] == front[j];
    assert x in Adds(last);
  }

  lemma {:induction false} AllFileAdds(s: Store, t: nat)
    requires t < |s.dir|
    ensures forall i :: 0 <= i < |FileRecs(s.files, s.dir[t])| ==> FileRecs(s.files, s.dir[t])[i].opt == ADD
  {
  }

  /** Around the place where the last part belongs: smaller keys in front of it, larger ones behind. */
  lemma {:induction false} HalfwayAround(s: Store, t: nat, cur: Rec, p: nat, a: Store)
    requires CutAstray(s, t, cur, p) && s.maxCount > 0 && Halfway(s, t, cur, a) && FinalPart(s, t, cur) != []
    ensures var x, m := FirstOfFinal(s, t, cur), |FirstParts(s, t, cur)| - 1;
            && |a.dir| == |s.dir| + m && t + m < |a.dir|
            && (forall j :: 0 <= j <= t + m ==> Lt(a.dir[j].end, x.key) && AllBelow(FileRecs(a.files, a.dir[j]), x.key))
            && (forall j :: t + m < j < |a.dir| ==>
                  && a.dir[j] == s.dir[j - m] && FileRecs(a.files, a.dir[j]) == FileRecs(s.files, s.dir[j - m])
                  && AllAbove(FileRecs(a.files, a.dir[j]), x.key))
  {
    hide Lt;
    hide Astray;
    hide CutAstray;
    hide Chunks;
    hide Concat;
    hide Adds;
    hide Fit;
    hide Inv;
    hide FileRecs;
    hide ChunkOk;
    AstrayCut(s, t, cur, p);
    FinalStarts(s, t, cur, p);
    var x, first := FirstOfFinal(s, t, cur), FirstParts(s, t, cur);
    var m := |first| - 1;
    ConcatLast(first);
    assert Holds(a, t + m, first[m]);
    var w := Concat(first);
    assert first[m][|first[m]| - 1] == w[|w| - 1];
    forall j | 0 <= j <= t + m
      ensures Lt(a.dir[j].end, x.key) && AllBelow(FileRecs(a.files, a.dir[j]), x.key)
    {
      InFront(a, j, t + m, x.key);
    }
    forall j | t + m < j < |a.dir|
      ensures AllAbove(FileRecs(a.files, a.dir[j]), x.key)
    {
      Behind(s, t, j - m, x.key);
    }
  }

  lemma {:induction false} AstrayCut(s: Store, t: nat, cur: Rec, p: nat)
    requires CutAstray(s, t, cur, p)
    ensures Astray(s, t, cur, p) && Inv(s) && t < p < |s.dir| && s.maxCount > 1
    ensures |FileRecs(s.files, s.dir[t])| >= 2 * s.maxCount
  {
    hide Inv;
    hide FileRecs;
    hide Chunks;
  }

  lemma {:induction false} InFront(a: Store, j: nat, i: nat, key: Key)
    requires Inv(a) && j <= i < |a.dir| && Lt(a.dir[i].end, key)
    ensures Lt(a.dir[j].end, key) && AllBelow(FileRecs(a.files, a.dir[j]), key)
  {
    hide Lt;
    hide Inv;
    hide FileRecs;
    LtIsStrictTotalOrder();
    InvEnds(a);
    FileOf(a, j);
    assert j < i ==> Lt(a.dir[j].end, a.dir[i].end);
  }

  lemma {:induction false} Behind(s: Store, t: nat, i: nat, key: Key)
    requires Inv(s) && t < i < |s.dir| && Le(key, s.dir[t].end)
    ensures AllAbove(FileRecs(s.files, s.dir[i]), key)
  {
    hide Lt;
    hide Inv;
    hide FileRecs;
    LtIsStrictTotalOrder();
    InvEnds(s);
    FileRange(s, i);
    assert t < i - 1 ==> Lt(s.dir[t].end, s.dir[i - 1].end);
  }

  lemma {:induction false} FinalPlace(s: Store, t: nat, cur: Rec, p: nat, a: Store)
    requires CutAstray(s, t, cur, p) && s.maxCount > 0 && Halfway(s, t, cur, a)
    ensures var m := |FirstParts(s, t, cur)| - 1;
            SplitAt(a.dir, p + m, cur.key) && Search(a.dir, cur.key) == p + m
  {
    hide Lt;
    hide Astray;
    hide CutAstray;
    hide Inv;
    hide FileRecs;
    hide Search;
    hide Chunks;
    hide AllBelow;
    hide AllAbove;
    hide HoldsChunks;
    hide ChunkOk;
    hide Adds;
    hide Concat;
    AstrayCut(s, t, cur, p);
    AstrayPlace(s, t, cur, p);
    FinalStarts(s, t, cur, p);
    HalfwayAround(s, t, cur, p, a);
    LtIsStrictTotalOrder();
    var m := |FirstParts(s, t, cur)| - 1;
    InvEnds(a);
    SearchSplits(a.dir, cur.key, p + m);
  }

  /** What the flush of the cut run leaves: the last part at its place, or, if a file ends there already,
      nowhere. */
  lemma {:induction false} FinalGrows(s: Store, t: nat, cur: Rec, p: nat, a: Store)
    requires CutAstray(s, t, cur, p) && s.maxCount > 0 && Halfway(s, t, cur, a)
    requires FlushMerge(s, StrayRun(s, t, cur)).Done?
    requires FlushMerge(s, StrayRun(s, t, cur)) == Write(a.(name := FileName(|a.dir|)), FinalPart(s, t, cur), true)
    ensures var b := FlushMerge(s, StrayRun(s, t, cur)).store;
            Loose(b) && Grown(a, b, p + |FirstParts(s, t, cur)| - 1, FinalPart(s, t, cur))
  {
    hide Lt;
    hide CutAstray;
    hide Inv;
    hide Loose;
    hide FileRecs;
    hide Search;
    hide Chunks;
    hide ChunkOk;
    hide Adds;
    hide Concat;
    hide Write;
    hide Grown;
    hide HoldsChunks;
    hide MovedBack;
    hide FileName;
    hide FlushMerge;
    FinalStarts(s, t, cur, p);
    FinalPlace(s, t, cur, p, a);
    InvIsLoose(a);
    NewFileLoose(a, FinalPart(s, t, cur));
  }

  /** A last part that is not entered takes its records with it. */
  lemma {:induction false} DroppedLacks(s: Store, t: nat, cur: Rec, p: nat, a: Store, b: Store, q: nat)
    requires CutAstray(s, t, cur, p) && s.maxCount > 0 && Halfway(s, t, cur, a) && FinalPart(s, t, cur) != []
    requires Grown(a, b, q, FinalPart(s, t, cur)) && |b.dir| == |a.dir|
    ensures StoreWithout(b, FirstOfFinal(s, t, cur).key)
  {
    hide Lt;
    hide CutAstray;
    hide Inv;
    hide FileRecs;
    hide Chunks;
    hide HoldsChunks;
    hide MovedBack;
    hide Adds;
    LtIsStrictTotalOrder();
    HalfwayAround(s, t, cur, p, a);
    forall j | 0 <= j < |b.dir|
      ensures NodeWithout(b, b.dir[j], FirstOfFinal(s, t, cur).key)
    {
      assert SameFile(a, j, b, j);
    }
  }

  lemma {:induction false} HolderStarts(b: Store, e: nat, last: seq<Rec>, x: Rec)
    requires Holds(b, e, last) && ChunkOk(last) && x in Adds(last)
    requires forall i :: 0 <= i < |last| ==> Le(x.key, last[i].key)
    ensures StartsFile(b, e, x) && b.dir[e].end == LastKey(last)
  {
    hide Lt;
    hide FileRecs;
    hide Adds;
    hide Fit;
    hide Sorted;
    var l := Adds(last);
    forall i | 0 <= i < |l|
      ensures Le(x.key, l[i].key)
    {
      assert l[i] in Adds(last);
    }
  }

  lemma {:induction false} AboveNotBelow(b: Store, j: nat, x: Rec)
    requires j < |b.dir| && FileRecs(b.files, b.dir[j]) != [] && AllAbove(FileRecs(b.files, b.dir[j]), x.key)
    ensures NotBelow(b, j, x.key)
  {
    hide Lt;
    hide FileRecs;
  }

  /** A last part that is entered behind another file of larger keys crosses it. */
  lemma {:induction false} EnteredCrosses(s: Store, t: nat, cur: Rec, p: nat, a: Store, b: Store)
    requires CutAstray(s, t, cur, p) && s.maxCount > 0 && Halfway(s, t, cur, a) && FinalPart(s, t, cur) != []
    requires Grown(a, b, p + |FirstParts(s, t, cur)| - 1, FinalPart(s, t, cur)) && |b.dir| != |a.dir| && p > t + 1
    ensures var m := |FirstParts(s, t, cur)| - 1; Crossed(b, FirstOfFinal(s, t, cur), t + 1 + m, p + m)
  {
    hide Lt;
    hide CutAstray;
    hide Inv;
    hide FileRecs;
    hide Chunks;
    hide HoldsChunks;
    hide MovedBack;
    hide Adds;
    hide ChunkOk;
    hide AllAbove;
    hide NotBelow;
    hide StartsFile;
    hide Grown;
    AstrayCut(s, t, cur, p);
    FinalStarts(s, t, cur, p);
    HalfwayAround(s, t, cur, p, a);
    var m, x, last := |FirstParts(s, t, cur)| - 1, FirstOfFinal(s, t, cur), FinalPart(s, t, cur);
    GrownHolds(a, b, p + m, last);
    HolderStarts(b, p + m, last, x);
    GrownMoves(a, b, p + m, last, t + 1 + m);
    SomeKeyUpToEnd(s, t + 1);
    AboveNotBelow(b, t + 1 + m, x);
  }

  lemma {:induction false} GrownHolds(a: Store, b: Store, q: nat, chunk: seq<Rec>)
    requires Grown(a, b, q, chunk) && |b.dir| != |a.dir|
    ensures |b.dir| == |a.dir| + 1 && q <= |a.dir| && Holds(b, q, chunk)
  {
    hide FileRecs;
    hide Holds;
  }

  /** Where the key does not fit, the file behind has a key up to it. */
  lemma {:induction false} DoesNotFit(s: Store, t: nat, cur: Rec, p: nat) returns (z: Rec)
    requires Astray(s, t, cur, p) && p == t + 1 && !FitsBehind(s, t, cur.key)
    ensures StartsFile(s, p, z) && Le(z.key, cur.key)
  {
    hide Lt;
    hide Inv;
    hide FileRecs;
    hide NotBelow;
    LtIsStrictTotalOrder();
    z := FirstOf(s, p);
    StartIn(s, p, z);
    if AllAbove(FileRecs(s.files, s.dir[p]), cur.key) {
      AboveSome(s, p, cur.key);
      assert false;
    }
  }

  lemma {:induction false} NotBelowFrom(s: Store, p: nat, z: Rec, i: nat)
    requires Inv(s) && p <= i < |s.dir| && StartsFile(s, p, z)
    ensures NotBelow(s, i, z.key)
  {
    hide Lt;
    hide Inv;
    hide FileRecs;
    hide NotBelow;
    StartIn(s, p, z);
    if p < i {
      NotBelowBehind(s, p, i, z);
    }
  }

  /** Where file j of the store before went. */
  lemma {:induction false} BehindFinal(s: Store, t: nat, cur: Rec, p: nat, a: Store, b: Store, j: nat)
    requires CutAstray(s, t, cur, p) && s.maxCount > 0 && Halfway(s, t, cur, a) && FinalPart(s, t, cur) != []
    requires Grown(a, b, p + |FirstParts(s, t, cur)| - 1, FinalPart(s, t, cur)) && |b.dir| != |a.dir|
    requires p <= j < |s.dir|
    ensures var i := j + |FirstParts(s, t, cur)|;
            && i < |b.dir| == |s.dir| + |FirstParts(s, t, cur)| && b.dir[i] == s.dir[j]
            && FileRecs(b.files, b.dir[i]) == FileRecs(s.files, s.dir[j])
  {
    hide Lt;
    hide CutAstray;
    hide Inv;
    hide FileRecs;
    hide Chunks;
    hide HoldsChunks;
    hide MovedBack;
    hide Adds;
    hide AllAbove;
    hide Grown;
    AstrayCut(s, t, cur, p);
    HalfwayAround(s, t, cur, p, a);
    var m := |FirstParts(s, t, cur)| - 1;
    GrownHolds(a, b, p + m, FinalPart(s, t, cur));
    GrownMoves(a, b, p + m, FinalPart(s, t, cur), j + m);
  }

  lemma {:induction false} BeforeFinal(s: Store, t: nat, cur: Rec, p: nat, a: Store, b: Store, j: nat)
    requires CutAstray(s, t, cur, p) && s.maxCount > 0 && Halfway(s, t, cur, a) && FinalPart(s, t, cur) != []
    requires Grown(a, b, p + |FirstParts(s, t, cur)| - 1, FinalPart(s, t, cur)) && |b.dir| != |a.dir|
    requires p == t + 1 && j <= t + |FirstParts(s, t, cur)|
    ensures j < |b.dir| && Le(b.dir[j].end, cur.key)
    ensures t <= j ==> |FileRecs(b.files, b.dir[j])| < 2 * s.maxCount
  {
    hide Lt;
    hide CutAstray;
    hide Inv;
    hide FileRecs;
    hide Chunks;
    hide MovedBack;
    hide Adds;
    hide AllAbove;
    hide AllBelow;
    hide Grown;
    hide ChunkOk;
    hide Concat;
    hide ChunksFit;
    AstrayCut(s, t, cur, p);
    FinalStarts(s, t, cur, p);
    CutParts(s, t, cur, p);
    HalfwayAround(s, t, cur, p, a);
    LtIsStrictTotalOrder();
    var first, last := FirstParts(s, t, cur), FinalPart(s, t, cur);
    var m := |first| - 1;
    GrownHolds(a, b, p + m, last);
    if j < p + m {
      GrownMoves(a, b, p + m, last, j);
      if t <= j {
        assert Holds(a, t + (j - t), first[j - t]);
        assert |Adds(first[j - t])| <= |first[j - t]|;
      }
    } else {
      assert |Adds(last)| <= |last|;
    }
  }

  /** A last part that is entered in front of its own file hangs over the start of it, where the key
      does not fit. */
  lemma {:induction false} EnteredOverhangs(s: Store, t: nat, cur: Rec, p: nat, a: Store, b: Store)
    returns (z: Rec)
    requires CutAstray(s, t, cur, p) && s.maxCount > 0 && Halfway(s, t, cur, a) && FinalPart(s, t, cur) != []
    requires Grown(a, b, p + |FirstParts(s, t, cur)| - 1, FinalPart(s, t, cur)) && |b.dir| != |a.dir|
    requires p == t + 1 && !FitsBehind(s, t, cur.key)
    ensures Le(z.key, cur.key) && Overhangs(b, z, t + |FirstParts(s, t, cur)|, cur.key)
  {
    hide Lt;
    hide CutAstray;
    hide Inv;
    hide FileRecs;
    hide Chunks;
    hide HoldsChunks;
    hide MovedBack;
    hide Adds;
    hide ChunkOk;
    hide AllAbove;
    hide AllBelow;
    hide NotBelow;
    hide StartsFile;
    hide Grown;
    hide FitsBehind;
    hide Halfway;
    AstrayCut(s, t, cur, p);
    FinalStarts(s, t, cur, p);
    z := DoesNotFit(s, t, cur, p);
    var m, last := |FirstParts(s, t, cur)| - 1, FinalPart(s, t, cur);
    var e := p + m;
    GrownHolds(a, b, e, last);
    BehindFinal(s, t, cur, p, a, b, p);
    SameNotBelow(s, p, b, e + 1, z);
    forall j | 0 <= j < |b.dir|
      ensures j <= e ==> Le(b.dir[j].end, cur.key)
      ensures j > e ==> NotBelow(b, j, z.key)
    {
      if j <= e {
        BeforeFinal(s, t, cur, p, a, b, j);
      } else {
        BehindFinal(s, t, cur, p, a, b, j - m - 1);
        NotBelowFrom(s, p, z, j - m - 1);
        SameNotBelow(s, j - m - 1, b, j, z);
      }
    }
  }
}
