// A restart that is right although an ADD record routes to a file.
module RestartExample {
  import opened Keys
  import opened Records
  import opened Images
  import opened Metas
  import opened Stores
  import opened StoreLaws
  import opened FlushLaws
  import opened MergeLaws
  import opened MergeTheorem
  import opened MixedLists
  import opened RestartLaws
  import opened StaleIndex
  import opened LostTails
  import opened CutLists
  import opened CutExample

  /** Three ADD records and a tombstone behind them; the first is the only record of the store. */
  function Overwrite(): seq<Rec> {
    [N(0, 1), N(1, 1), N(2, 1), Rec(Num(3, 1), 4, DEL)]
  }

  ghost predicate OneFile(st: Store) {
    Inv(st) && st.maxCount == 1 && st.maxFiles >= 5 && |st.dir| == 1 && Holds(st, 0, [N(0, 1)])
  }

  lemma {:induction false} FourKeys()
    ensures Pow255(1) == 255 && Sorted(Overwrite())
    ensures Lt(Num(0, 1), Num(1, 1))
  {
    hide Lt;
    hide Num;
    var s := Overwrite();
    forall i: nat, j: nat | i < j < 4
      ensures Lt(Num(i, 1), Num(j, 1))
    {
      NumsRise(i, j, 1);
    }
    assert forall i :: 0 <= i < 4 ==> s[i].key == Num(i, 1);
  }

  lemma {:induction false} OneRec()
    ensures Adds([N(0, 1)]) == [N(0, 1)] && Adds([N(1, 1)]) == [N(1, 1)] && Adds([N(2, 1)]) == [N(2, 1)]
    ensures Fit(Adds([N(0, 1)])) && Fit(Adds([N(1, 1)])) && Fit(Adds([N(2, 1)]))
    ensures ChunkOk([N(0, 1)])
  {
    hide Num;
    hide Fit;
    hide Adds;
    hide Plain;
    forall i
      ensures Plain([N(i, 1)], 1)
    {
      PlainOne(i, 1);
    }
    PlainFits([N(0, 1)], 1);
    PlainFits([N(1, 1)], 1);
    PlainFits([N(2, 1)], 1);
  }

  lemma {:induction false} FirstFile(m: nat, maxFiles: nat, run: seq<Rec>) returns (st: Store)
    requires m > 0 && maxFiles > 1 && ChunkOk(run) && |run| <= 2 * m
    ensures Merge(NoFiles(m, maxFiles), run) == Done(st) && Inv(st) && |st.dir| == 1 && Holds(st, 0, run)
    ensures st.maxCount == m && st.maxFiles == maxFiles
  {
    hide Lt;
    hide Inv;
    hide FileRecs;
    hide ChunkOk;
    hide Merge;
    hide Holds;
    hide Evens;
    hide MovedBack;
    EmptyInv(m, maxFiles);
    st := MergeAppends(NoFiles(m, maxFiles), run);
  }

  lemma {:induction false} StandsAlone(maxFiles: nat) returns (st: Store)
    requires maxFiles >= 5
    ensures Merge(NoFiles(1, maxFiles), [N(0, 1)]) == Done(st) && OneFile(st)
  {
    hide Lt;
    hide Inv;
    hide ChunkOk;
    hide Merge;
    hide NoFiles;
    hide N;
    hide Holds;
    OneRec();
    st := FirstFile(1, maxFiles, [N(0, 1)]);
  }

  lemma {:induction false} EndIsFirst(st: Store)
    requires OneFile(st)
    ensures st.dir[0].end == Num(0, 1) && FileRecs(st.files, st.dir[0]) == [N(0, 1)]
  {
    hide FileRecs;
    hide Num;
    OneRec();
  }

  /** How the list falls apart. */
  lemma {:induction false} PartsOfList(st: Store)
    requires OneFile(st)
    ensures Mixed(st.dir, Overwrite()) && UpTo(Overwrite(), st.dir[0].end) == 1
    ensures Head(st.dir, Overwrite()) == [N(0, 1)]
    ensures Restarted(st.dir, Overwrite()) == [N(0, 1), N(1, 1), N(2, 1)]
    ensures Lost(st.dir, Overwrite()) == [Rec(Num(3, 1), 4, DEL)]
    ensures Group(st.dir, Overwrite(), 0) == [N(0, 1)] && GroupEnd(st.dir, Overwrite(), 0) == 1
  {
    hide Lt;
    hide Inv;
    hide Holds;
    hide Num;
    hide UpTo;
    hide Sorted;
    FourKeys();
    EndIsFirst(st);
    LtAsymmetric(Num(0, 1), Num(1, 1));
    LtIrreflexive(Num(0, 1));
    var list := Overwrite();
    UpToIs(list, st.dir[0].end, 1);
    assert list[0].key == Num(0, 1) && list[1].key == Num(1, 1);
  }

  lemma {:induction false} ThreeChunks(a: Rec, b: Rec, c: Rec)
    ensures Chunks([a, b, c], 1) == [[a], [b], [c]]
  {
    assert [a, b, c][..1] == [a] && [a, b, c][1..] == [b, c];
    assert [b, c][..1] == [b] && [b, c][1..] == [c];
    assert Split([c], 1) == [[c]];
    assert Split([b, c], 1) == [[b], [c]];
  }

  lemma {:induction false} RebuiltAlone(st: Store)
    requires OneFile(st)
    ensures Rebuilt(st, Overwrite(), 0) == [N(0, 1)] && EndsAfter(st, Overwrite()) == [Num(0, 1)]
  {
    hide Lt;
    hide Inv;
    hide FileRecs;
    hide Num;
    hide Group;
    hide Overwrite;
    PartsOfList(st);
    EndIsFirst(st);
    UpsertOne([N(0, 1)], N(0, 1));
    UpsertItself(N(0, 1));
  }

  lemma {:induction false} UpsertItself(r: Rec)
    ensures Upsert([r], r) == [r]
  {
    LtIrreflexive(r.key);
  }

  /** The first chunk of the restart ends where the file ends, so it is dropped and the next one
      takes its name: right, although the routed record is an ADD. */
  lemma {:induction false} DroppedChunkIsHarmless(maxFiles: nat) returns (st: Store)
    requires maxFiles >= 5
    ensures Merge(NoFiles(1, maxFiles), [N(0, 1)]) == Done(st) && Inv(st) && st.maxCount == 1 && st.dir != []
    ensures var list := Overwrite();
            && Mixed(st.dir, list) && Adds(Head(st.dir, list)) != []
            && RestartIsRight(st, list) && MergesRight(st, list)
  {
    hide Lt;
    hide Inv;
    hide FileRecs;
    hide Merge;
    hide Num;
    hide MergesRight;
    hide RestartIsRight;
    hide Mixed;
    hide Overwrite;
    hide Head;
    hide Adds;
    hide Sorted;
    st := StandsAlone(maxFiles);
    FourKeys();
    OneRec();
    PartsOfList(st);
    NotEmpty();
    ListFits(st);
    ListIsRight(st);
    MergesRightIff(st, Overwrite());
  }

  lemma {:induction false} NotEmpty()
    ensures Overwrite() != []
  {
  }

  lemma {:induction false} ListFits(st: Store)
    requires OneFile(st)
    ensures OnlyLastSplits(st, Overwrite()) && HasRoom(st, Overwrite()) && WritesFit(st, Overwrite())
    ensures RestartFits(st, Overwrite())
  {
    hide Lt;
    hide Inv;
    hide FileRecs;
    hide Num;
    hide Overwrite;
    hide Group;
    hide Rebuilt;
    hide Fit;
    hide Adds;
    hide Restarted;
    hide PastEnd;
    hide AllRoute;
    PartsOfList(st);
    RebuiltAlone(st);
    OneRec();
    ThreeChunks(N(0, 1), N(1, 1), N(2, 1));
  }

  lemma {:induction false} ListIsRight(st: Store)
    requires OneFile(st)
    ensures RestartIsRight(st, Overwrite())
  {
    hide Lt;
    hide Inv;
    hide FileRecs;
    hide Num;
    hide Overwrite;
    hide Group;
    hide Rebuilt;
    hide Adds;
    hide Restarted;
    hide Lost;
    hide EndsAfter;
    hide Mixed;
    hide Harmless;
    hide Sorted;
    PartsOfList(st);
    RebuiltAlone(st);
    EndIsFirst(st);
    OneRec();
    ThreeChunks(N(0, 1), N(1, 1), N(2, 1));
    FourKeys();
    TombstoneOnly(Rec(Num(3, 1), 4, DEL));
    FirstIsDropped(N(0, 1), N(1, 1), N(2, 1));
  }

  lemma {:induction false} TombstoneOnly(r: Rec)
    requires r.opt == DEL
    ensures Adds([r]) == []
  {
    assert [r][..0] == [];
  }

  lemma {:induction false} FirstIsDropped(a: Rec, b: Rec, c: Rec)
    requires Lt(a.key, b.key)
    ensures Harmless([a.key], [[a], [b], [c]], a.key)
  {
    hide Lt;
    LtAsymmetric(a.key, b.key);
    assert [[a], [b], [c]][1..] == [[b], [c]];
    assert Harmless([a.key], [[b], [c]], a.key);
  }

  // ---- an ADD behind the files is lost --------------------------------------------------------------

  /** The stored record again, and one behind it. */
  function Pair(): seq<Rec> {
    [N(0, 1), N(1, 1)]
  }

  lemma {:induction false} PartsOfPair(st: Store)
    requires OneFile(st)
    ensures Mixed(st.dir, Pair()) && Sorted(Pair()) && Pair() != [] && Head(st.dir, Pair()) == [N(0, 1)]
    ensures Restarted(st.dir, Pair()) == [N(0, 1)]
    ensures Group(st.dir, Pair(), 0) == [N(0, 1)] && GroupEnd(st.dir, Pair(), 0) == 1
    ensures Search(st.dir, Num(0, 1)) == 0 && Search(st.dir, Num(1, 1)) == 1
  {
    hide Lt;
    hide Inv;
    hide Holds;
    hide Num;
    hide UpTo;
    hide Search;
    FourKeys();
    EndIsFirst(st);
    InvEnds(st);
    LtAsymmetric(Num(0, 1), Num(1, 1));
    LtIrreflexive(Num(0, 1));
    var list := Pair();
    UpToIs(list, st.dir[0].end, 1);
    assert list[0].key == Num(0, 1) && list[1].key == Num(1, 1);
    SearchIs(st.dir, Num(0, 1), 0);
    SearchIs(st.dir, Num(1, 1), 1);
  }

  lemma {:induction false} RebuiltOfPair(st: Store)
    requires OneFile(st)
    ensures Rebuilt(st, Pair(), 0) == [N(0, 1)]
  {
    hide Lt;
    hide Inv;
    hide FileRecs;
    hide Num;
    hide Group;
    hide Pair;
    PartsOfPair(st);
    EndIsFirst(st);
    UpsertOne([N(0, 1)], N(0, 1));
    UpsertItself(N(0, 1));
  }

  lemma {:induction false} OneChunkFine(run: seq<Rec>, m: nat)
    requires m > 0 && |run| <= 2 * m && Fit(Adds(run)) && Adds(run) != []
    ensures Chunks(run, m) == [run] && ChunksFit(Chunks(run, m)) && AllHaveAdds(Chunks(run, m))
  {
    hide Fit;
    hide Adds;
  }

  lemma {:induction false} PairFits(st: Store)
    requires OneFile(st)
    ensures OnlyLastSplits(st, Pair()) && HasRoom(st, Pair()) && WritesFit(st, Pair())
    ensures ChunksHaveAddsFrom(st, Pair(), 0)
  {
    hide Lt;
    hide Inv;
    hide FileRecs;
    hide N;
    hide Num;
    hide Pair;
    hide Group;
    hide Rebuilt;
    hide Fit;
    hide Adds;
    hide Restarted;
    hide PastEnd;
    hide AllRoute;
    hide Chunks;
    hide ChunksFit;
    hide AllHaveAdds;
    hide Holds;
    hide Search;
    hide Head;
    PartsOfPair(st);
    RebuiltOfPair(st);
    OneRec();
    OneChunkFine([N(0, 1)], 1);
  }

  /** The merge of the pair: the head is merged in, and the restart writes it once more, where it is
      dropped. */
  lemma {:induction false} PairEnds(st: Store)
    requires OneFile(st)
    ensures Merge(st, Pair()).Done?
  {
    hide Lt;
    hide Inv;
    hide FileRecs;
    hide N;
    hide Num;
    hide Pair;
    hide Merge;
    hide Mixed;
    hide Head;
    hide Restarted;
    hide Fit;
    hide Adds;
    hide Sorted;
    hide EndsAfter;
    hide OnlyLastSplits;
    hide HasRoom;
    hide WritesFit;
    hide ChunksHaveAddsFrom;
    hide FlushNew;
    hide Contents;
    hide Overlay;
    hide Search;
    hide Holds;
    hide EndKeys;
    hide Chunks;
    hide AllHaveAdds;
    hide ChunksFit;
    PartsOfPair(st);
    PairFits(st);
    OneRec();
    MixedMerge(st, Pair());
    BeforeRestart(st, Pair());
    var s := Merge(st, [N(0, 1)]).store;
    OneChunkFine([N(0, 1)], 1);
    OneFlushEnds(s, [N(0, 1)]);
  }

  lemma {:induction false} OneFlushEnds(s: Store, run: seq<Rec>)
    requires s.maxCount > 0 && Chunks(run, s.maxCount) == [run] && run != [] && Adds(run) != []
    requires |s.dir| + 1 < s.maxFiles
    ensures FlushNew(s, run).Done?
  {
    hide Adds;
    hide Chunks;
    hide FileName;
    hide Write;
    HasRoomLeft(s, run);
    assert [run][1..] == [];
    WriteNewUnfolds(s, [run]);
  }

  lemma {:induction false} HasRoomLeft(s: Store, chunk: seq<Rec>)
    requires chunk != [] && Adds(chunk) != [] && |s.dir| + 1 < s.maxFiles
    ensures Write(s.(name := FileName(|s.dir|)), chunk, true).Done?
  {
    hide Adds;
    hide FileName;
  }

  lemma {:induction false} PairWalkFits(st: Store)
    requires OneFile(st)
    ensures st.maxCount > 0 && WalkFits(st, None, Pair(), 0)
  {
    hide Lt;
    hide Inv;
    hide FileRecs;
    hide Num;
    hide Search;
    hide Load;
    hide Upsert;
    hide Fit;
    hide Adds;
    hide Holds;
    PartsOfPair(st);
    OneRec();
    EndIsFirst(st);
    UpsertItself(N(0, 1));
    var list, st' := Pair(), st.(name := st.dir[0].name);
    InvIgnoresRest(st, st.(name := st.dir[0].name));
    LoadsFile(st', 0);
    LoadsFile(st, 0);
    LimitsStay(st, None);
    assert list[0] == N(0, 1) && list[1] == N(1, 1) && list[..1] == [N(0, 1)];
    assert WalkFits(st', Some([N(0, 1)]), list, 1) by { LastOfPairFits(st', list); }
    if st.name == st.dir[0].name {
      assert st' == st;
    }
  }

  lemma {:induction false} LastOfPairFits(st: Store, list: seq<Rec>)
    requires st.maxCount == 1 && |list| == 2 && Search(st.dir, list[1].key) == |st.dir|
    requires list[..1] == [N(0, 1)]
    ensures WalkFits(st, Some([N(0, 1)]), list, 1)
  {
    hide Num;
    hide Search;
    hide Fit;
    hide Adds;
    hide FlushMerge;
    OneRec();
    LimitsStay(st, Some([N(0, 1)]));
  }

  /** A store and a list whose merge ends, and the record behind the files is in none of them. */
  lemma {:induction false} AddBehindIsLost(maxFiles: nat) returns (st: Store)
    requires maxFiles >= 5
    ensures Merge(NoFiles(1, maxFiles), [N(0, 1)]) == Done(st) && Inv(st) && st.maxCount == 1
    ensures var list := Pair();
            && Mixed(st.dir, list) && Merge(st, list).Done?
            && list[1].opt == ADD && list[1].key !in Contents(Merge(st, list).store) && !MergesRight(st, list)
  {
    hide Lt;
    hide Inv;
    hide FileRecs;
    hide Num;
    hide Merge;
    hide Mixed;
    hide WalkFits;
    hide MergesRight;
    hide Contents;
    hide Sorted;
    st := StandsAlone(maxFiles);
    PartsOfPair(st);
    PairEnds(st);
    PairWalkFits(st);
    MixedLosesLast(st, Pair());
  }
}
