// Any number of records behind a cut: the merge is that of the record which lands wrong, and then,
// by itself, that of the rest; and what went wrong there is never mended.
module CutRests {
  import opened Keys
  import opened Records
  import opened Merging
  import opened Images
  import opened Metas
  import opened Stores
  import opened StoreLaws
  import opened FlushLaws
  import opened MergeLaws
  import opened MergeTheorem
  import opened MixedLists
  import opened StaleIndex
  import opened CutLists
  import opened LostTails
  import opened LooseStores
  import opened Strides
  import opened Damages

  /** The list goes on behind the record that follows the cut, with keys that route to files. */
  ghost predicate Goes(st: Store, head: seq<Rec>, cur: Rec, rest: seq<Rec>) {
    rest != [] && Sorted(head + [cur] + rest) && AllRoute(st.dir, rest)
  }

  lemma {:induction false} GoesParts(st: Store, head: seq<Rec>, cur: Rec, rest: seq<Rec>)
    requires Goes(st, head, cur, rest)
    ensures Sorted(rest) && Sorted(head + [cur]) && st.dir != []
    ensures forall j :: 0 <= j < |rest| ==> Lt(cur.key, rest[j].key) && Le(rest[j].key, LastEnd(st.dir))
  {
    hide Lt;
    var list := head + [cur] + rest;
    assert forall j :: 0 <= j <= |head| ==> list[j] == (head + [cur])[j];
    assert forall j :: 0 <= j < |rest| ==> list[|head| + 1 + j] == rest[j];
    assert list[|head|] == cur;
  }

  /** The state of the walk behind the record that landed wrong: it holds the file at place t, and the
      directory is in order, with the place of the key further back. */
  ghost predicate Astray(s: Store, t: nat, cur: Rec, p: nat) {
    Inv(s) && t < p < |s.dir| && SplitAt(s.dir, p, cur.key) && s.name == s.dir[t].name
  }

  /** The same where the file with the record behind it is not cut. */
  ghost predicate Landed(s: Store, t: nat, cur: Rec, p: nat) {
    && Astray(s, t, cur, p)
    && var run := FileRecs(s.files, s.dir[t]) + [cur];
       |run| <= 2 * s.maxCount && s.maxCount > 0 && ChunksFit(Chunks(run, s.maxCount))
  }

  lemma {:induction false} LeftLast(st: Store, head: seq<Rec>, f: nat, t: nat, s: Store)
    requires f < t < |st.dir| && st.maxCount > 0 && Left(st, head, f, s)
    ensures |s.dir| >= |st.dir| > 0 && LastEnd(s.dir) == LastEnd(st.dir)
  {
    hide Inv;
    hide FileRecs;
    hide Flat;
    hide Merged;
    hide Parts;
    hide HoldsChunks;
  }

  lemma {:induction false} LandingRun(st: Store, head: seq<Rec>, cur: Rec, f: nat, t: nat, s: Store)
    requires f < t < |st.dir| && st.maxCount > 0 && LandingFits(st, head, cur, f, t) && |Parts(st, head, f)| > 1
    requires t < |s.dir| && FileRecs(s.files, s.dir[t]) == Landing(st, head, f, t) && s.maxCount == st.maxCount
    requires Upsert(FileRecs(s.files, s.dir[t]), cur) == FileRecs(s.files, s.dir[t]) + [cur]
    ensures var run := FileRecs(s.files, s.dir[t]) + [cur];
            |run| <= 2 * s.maxCount && ChunksFit(Chunks(run, s.maxCount))
  {
    hide FileRecs;
    hide Parts;
    hide Landing;
    hide Upsert;
    hide Chunks;
    hide ChunksFit;
  }

  lemma {:induction false} AstrayThere(st: Store, head: seq<Rec>, cur: Rec, f: nat, t: nat, s: Store)
    requires OneMore(st, head, cur, f, t) && st.maxCount > 0 && Left(st, head, f, s) && |Parts(st, head, f)| > 1
    ensures t < |s.dir| && st.dir != [] && s.dir != [] && LastEnd(s.dir) == LastEnd(st.dir)
    ensures Astray(Renamed(s, t), t, cur, t + |Parts(st, head, f)| - 1)
    ensures FitsBehind(Renamed(s, t), t, cur.key) <==>
              |Parts(st, head, f)| == 2 && AllAbove(FileRecs(st.files, st.dir[t]), cur.key)
  {
    hide Lt;
    hide FileRecs;
    hide Inv;
    hide Parts;
    hide OneMore;
    hide Left;
    hide Landing;
    hide FitsBehind;
    hide SplitAt;
    hide AllAbove;
    hide Renamed;
    OneMorePlaces(st, head, cur, f, t);
    LeftInv(st, head, f, s);
    LeftLast(st, head, f, t, s);
    LandsThere(st, head, cur, f, t, s);
    FitsBehindIff(st, head, cur, f, t, s);
    RenamedKeeps(s, t, cur.key);
    SplitsAround(s, t + |Parts(st, head, f)| - 1, cur.key);
  }

  lemma {:induction false} LandedThere(st: Store, head: seq<Rec>, cur: Rec, f: nat, t: nat, s: Store)
    requires OneMore(st, head, cur, f, t) && st.maxCount > 0 && Left(st, head, f, s)
    requires f < t < |st.dir| && |Parts(st, head, f)| > 1 && LandingFits(st, head, cur, f, t)
    ensures t < |s.dir| && st.dir != [] && s.dir != [] && LastEnd(s.dir) == LastEnd(st.dir)
    ensures Landed(Renamed(s, t), t, cur, t + |Parts(st, head, f)| - 1)
  {
    hide Lt;
    hide FileRecs;
    hide Inv;
    hide Parts;
    hide Chunks;
    hide ChunksFit;
    hide Upsert;
    hide OneMore;
    hide Left;
    hide Landing;
    hide LandingFits;
    hide FitsBehind;
    hide SplitAt;
    hide AllAbove;
    hide Renamed;
    hide Adds;
    hide Astray;
    AstrayThere(st, head, cur, f, t, s);
    LeftInv(st, head, f, s);
    LeftLimits(st, head, f, s);
    LandsThere(st, head, cur, f, t, s);
    FitsBehindIff(st, head, cur, f, t, s);
    RenamedKeeps(s, t, cur.key);
    LandsBehind(s, t, cur);
    LandingRun(st, head, cur, f, t, s);
  }

  lemma {:induction false} OneMorePlaces(st: Store, head: seq<Rec>, cur: Rec, f: nat, t: nat)
    requires OneMore(st, head, cur, f, t)
    ensures f < t < |st.dir|
  {
  }

  lemma {:induction false} LeftLimits(st: Store, head: seq<Rec>, f: nat, s: Store)
    requires f < |st.dir| && st.maxCount > 0 && Left(st, head, f, s)
    ensures s.maxCount == st.maxCount && s.maxFiles == st.maxFiles
  {
  }

  lemma {:induction false} SplitsAround(s: Store, p: nat, key: Key)
    requires Inv(s) && 0 < p < |s.dir| && Lt(s.dir[p - 1].end, key) && Le(key, s.dir[p].end)
    ensures SplitAt(s.dir, p, key)
  {
    hide Lt;
    hide Inv;
    InvEnds(s);
    LtIsStrictTotalOrder();
    forall j | 0 <= j < |s.dir|
      ensures j < p ==> Lt(s.dir[j].end, key)
      ensures j >= p ==> Le(key, s.dir[j].end)
    {
      assert j < p - 1 ==> Lt(s.dir[j].end, s.dir[p - 1].end);
      assert j > p ==> Lt(s.dir[p].end, s.dir[j].end);
    }
  }

  lemma {:induction false} LandedPlace(s: Store, t: nat, cur: Rec, p: nat)
    requires Landed(s, t, cur, p)
    ensures t < p < |s.dir|
  {
  }

  // ---- from the walk to a merge of the rest ------------------------------------------------------

  /** The store once the misplaced run is flushed. */
  ghost function Wrong(s: Store, t: nat, cur: Rec): Store
    requires t < |s.dir|
  {
    Overwritten(s, t, FileRecs(s.files, s.dir[t]) + [cur])
  }

  lemma {:induction false} LandedRun(s: Store, t: nat, cur: Rec, p: nat)
    requires Landed(s, t, cur, p)
    ensures var run := FileRecs(s.files, s.dir[t]) + [cur];
            && ChunkOk(run) && Upsert(FileRecs(s.files, s.dir[t]), cur) == run && RunUpTo(run, cur.key)
            && FlushMerge(s, run) == Done(Wrong(s, t, cur))
  {
    hide Lt;
    hide FileRecs;
    hide Inv;
    hide Chunks;
    hide Fit;
    hide Adds;
    hide Overwritten;
    hide FlushMerge;
    assert Lt(s.dir[t].end, cur.key);
    LandsBehind(s, t, cur);
    var run := FileRecs(s.files, s.dir[t]) + [cur];
    OneChunkFits(run, s.maxCount);
    LandedChunk(s, t, cur);
    FlushInto(s, t, run);
  }

  lemma {:induction false} LandedRides(s: Store, t: nat, cur: Rec, p: nat)
    requires Landed(s, t, cur, p)
    ensures Riding(s, FileRecs(s.files, s.dir[t]) + [cur], t, p, cur.key)
  {
    hide Lt;
    hide FileRecs;
    hide Inv;
    hide Chunks;
    hide ChunksFit;
    hide Loose;
    hide Adds;
    hide Fit;
    hide FlushMerge;
    hide Wrong;
    LandedRun(s, t, cur, p);
    InvIsLoose(s);
    InvEnds(s);
  }

  /** The next key goes to the same place before and after the flush of the misplaced run, which is not
      the place that run came from. */
  lemma {:induction false} SameNextPlace(s: Store, t: nat, cur: Rec, p: nat, key: Key) returns (i: nat)
    requires Landed(s, t, cur, p) && Lt(cur.key, key) && Le(key, LastEnd(s.dir))
    ensures var r := Wrong(s, t, cur);
            && t < i < |s.dir| == |r.dir| && Search(s.dir, key) == i == Search(r.dir, key)
            && s.name != s.dir[i].name && r.name == s.name && r.dir[i] == s.dir[i] && r.dir != []
            && r.maxCount == s.maxCount && Loose(r)
  {
    hide Lt;
    hide FileRecs;
    hide Inv;
    hide Chunks;
    hide ChunksFit;
    hide Loose;
    hide Search;
    hide WriteImage;
    hide BufferAfter;
    hide FlushMerge;
    hide ChunkOk;
    hide RunUpTo;
    hide Upsert;
    LandedRun(s, t, cur, p);
    InvIsLoose(s);
    InvEnds(s);
    InvNames(s);
    LtIsStrictTotalOrder();
    i := NextPlace(s.dir, p, cur.key, key);
    var run := FileRecs(s.files, s.dir[t]) + [cur];
    OverwriteLoose(s, t, run);
    var r := Wrong(s, t, cur);
    SplitsStill(s.dir, r.dir, t, i, key);
    SearchSplits(r.dir, key, i);
  }

  lemma {:induction false} SplitsStill(a: seq<MetaNode>, b: seq<MetaNode>, t: nat, i: nat, key: Key)
    requires SplitAt(a, i, key) && RiseFrom(a, i) && t < i && |a| == |b|
    requires forall j :: 0 <= j < |a| && j != t ==> b[j] == a[j]
    requires Lt(b[t].end, key)
    ensures SplitAt(b, i, key) && RiseFrom(b, i)
  {
    hide Lt;
  }

  /** The walk's next stride is the first stride of a merge into the store behind the flush. */
  lemma {:induction false} MergeStarts(s: Store, t: nat, cur: Rec, p: nat, rest: seq<Rec>)
    requires Landed(s, t, cur, p) && rest != [] && Lt(cur.key, rest[0].key) && Le(rest[0].key, LastEnd(s.dir))
    ensures var r, run := Wrong(s, t, cur), FileRecs(s.files, s.dir[t]) + [cur];
            && r.maxCount > 0 && Walk(s, Some(run), rest, 0) == Merge(r, rest)
            && (WalkFits(r, None, rest, 0) ==> WalkFits(s, Some(run), rest, 0))
  {
    hide Lt;
    hide FileRecs;
    hide Search;
    hide Chunks;
    hide ChunksFit;
    hide Loose;
    hide Upsert;
    hide Load;
    hide FlushMerge;
    hide ChunkOk;
    hide RunUpTo;
    hide Wrong;
    hide Inv;
    hide SplitAt;
    LandedRun(s, t, cur, p);
    var i := SameNextPlace(s, t, cur, p, rest[0].key);
    var r, run := Wrong(s, t, cur), FileRecs(s.files, s.dir[t]) + [cur];
    LimitsStay(s, Some(run));
    LimitsStay(r, None);
  }

  /** The merge of the whole list is the merge up to the record behind the cut, and then, by itself,
      the merge of the rest. */
  lemma {:induction false} RestMergesAlone(st: Store, head: seq<Rec>, cur: Rec, f: nat, t: nat, rest: seq<Rec>)
    requires OneMore(st, head, cur, f, t) && st.maxCount > 0 && LandingFits(st, head, cur, f, t)
    requires |Parts(st, head, f)| > 1 && Goes(st, head, cur, rest)
    ensures var o := Merge(st, head + [cur]);
            && (o.Done? ==> o.store.maxCount > 0)
            && (o.Done? && WalkFits(o.store, None, rest, 0) ==> Merge(st, head + [cur] + rest) == Merge(o.store, rest))
            && (o.Stopped? ==> Merge(st, head + [cur] + rest) == o)
  {
    hide Lt;
    hide Merge;
    hide Walk;
    hide WalkFits;
    hide OneMore;
    hide LandingFits;
    hide Left;
    hide Inv;
    hide FileRecs;
    hide Upsert;
    hide Parts;
    hide ChunksHaveAddsFrom;
    hide FlushMerge;
    hide Landed;
    hide Riding;
    hide Wrong;
    hide ChunkOk;
    hide RunUpTo;
    hide Goes;
    hide Sorted;
    hide TailOf;
    var front := head + [cur];
    OneMorePlaces(st, head, cur, f, t);
    OneMoreMerge(st, head, cur, f, t);
    OneMoreWalk(st, head, cur, f, t, front + rest);
    GoesParts(st, head, cur, rest);
    if Merge(st, head).Done? {
      var s := Merge(st, head).store;
      LandedThere(st, head, cur, f, t, s);
      var s', p := Renamed(s, t), t + |Parts(st, head, f)| - 1;
      LandedRun(s', t, cur, p);
      GoesRest(st, head, cur, rest);
      MergeStarts(s', t, cur, p, rest);
      LandedRides(s', t, cur, p);
      if WalkFits(Wrong(s', t, cur), None, rest, 0) {
        BehindFront(front, rest);
        WalkForgets(s', FileRecs(s'.files, s'.dir[t]) + [cur], t, p, cur.key,
                    front + rest, |front|, rest, 0, LastEnd(st.dir));
      }
    }
  }

  lemma {:induction false} BehindFront(front: seq<Rec>, rest: seq<Rec>)
    ensures TailOf(front + rest, |front|, rest)
  {
  }

  lemma {:induction false} GoesRest(st: Store, head: seq<Rec>, cur: Rec, rest: seq<Rec>)
    requires Goes(st, head, cur, rest)
    ensures rest != [] && Sorted(rest) && st.dir != [] && LeftUpTo(rest, 0, LastEnd(st.dir))
    ensures Lt(cur.key, rest[0].key) && Le(rest[0].key, LastEnd(st.dir)) && LeftBehind(rest, 0, cur.key)
  {
    hide Lt;
    GoesParts(st, head, cur, rest);
  }

  // ---- what went wrong stays wrong ----------------------------------------------------------------

  lemma {:induction false} FirstOf(s: Store, j: nat) returns (x: Rec)
    requires Inv(s) && j < |s.dir|
    ensures StartsFile(s, j, x) && Le(x.key, s.dir[j].end)
    ensures j > 0 ==> Lt(s.dir[j - 1].end, x.key)
    ensures forall r :: r in FileRecs(s.files, s.dir[j]) ==> Le(x.key, r.key)
  {
    hide Lt;
    hide Inv;
    SomeKeyUpToEnd(s, j);
    FileOf(s, j);
    hide FileRecs;
    x := FileRecs(s.files, s.dir[j])[0];
  }

  lemma {:induction false} NotBelowBehind(s: Store, i: nat, j: nat, x: Rec)
    requires Inv(s) && i < j < |s.dir| && x in FileRecs(s.files, s.dir[i])
    ensures NotBelow(s, j, x.key)
  {
    hide Lt;
    hide Inv;
    hide FileRecs;
    SomeKeyUpToEnd(s, j);
    var l := FileRecs(s.files, s.dir[j]);
    forall n | 0 <= n < |l|
      ensures Le(x.key, l[n].key)
    {
      FilesInOrder(s, i, j, x, l[n]);
    }
  }

  /** Where the key does not fit behind file t, file t comes to hang over the start of the next one. */
  lemma {:induction false} WrongOverhangs(s: Store, t: nat, cur: Rec, p: nat) returns (x: Rec)
    requires Landed(s, t, cur, p) && !FitsBehind(s, t, cur.key)
    ensures Le(x.key, cur.key) && Overhangs(Wrong(s, t, cur), x, t, cur.key)
  {
    hide Lt;
    hide Inv;
    hide FileRecs;
    hide Overwritten;
    hide Chunks;
    hide ChunksFit;
    hide FlushMerge;
    hide ChunkOk;
    hide RunUpTo;
    hide Upsert;
    hide Loose;
    hide StartsFile;
    hide NotBelow;
    LandedRun(s, t, cur, p);
    InvIsLoose(s);
    LtIsStrictTotalOrder();
    x := FirstOf(s, t + 1);
    StartIn(s, t + 1, x);
    var run := FileRecs(s.files, s.dir[t]) + [cur];
    OverwriteLoose(s, t, run);
    var r := Wrong(s, t, cur);
    forall j: nat | j < |s.dir|
      ensures j > t ==> NotBelow(r, j, x.key)
      ensures j == t + 1 ==> StartsFile(r, j, x)
      ensures j <= t ==> Le(r.dir[j].end, cur.key)
    {
      if j > t + 1 {
        NotBelowBehind(s, t + 1, j, x);
      }
      if j != t {
        assert SameFile(s, j, r, j);
        SameNotBelow(s, j, r, j, x);
      }
    }
  }

  lemma {:induction false} StartIn(s: Store, j: nat, x: Rec)
    requires j < |s.dir| && StartsFile(s, j, x)
    ensures x in FileRecs(s.files, s.dir[j]) && NotBelow(s, j, x.key)
  {
  }

  /** Merging the rest does not mend it. */
  lemma {:induction false} RestDoesNotMend(s: Store, t: nat, cur: Rec, p: nat, rest: seq<Rec>)
    requires Landed(s, t, cur, p) && !FitsBehind(s, t, cur.key)
    requires rest != [] && Lt(cur.key, rest[0].key) && Le(rest[0].key, LastEnd(s.dir)) && LeftBehind(rest, 0, cur.key)
    requires Wrong(s, t, cur).maxCount > 0 && WalkFits(Wrong(s, t, cur), None, rest, 0)
    ensures Merge(Wrong(s, t, cur), rest).Done? ==> !Inv(Merge(Wrong(s, t, cur), rest).store)
  {
    hide Lt;
    hide Inv;
    hide FileRecs;
    hide Chunks;
    hide ChunksFit;
    hide FlushMerge;
    hide Loose;
    hide Search;
    hide Walk;
    hide WalkFits;
    hide Landed;
    hide FitsBehind;
    hide Wrong;
    hide Upsert;
    hide Load;
    hide Overhangs;
    hide Opened;
    hide Disordered;
    hide LeftBehind;
    LandedPlace(s, t, cur, p);
    var r := Wrong(s, t, cur);
    var i := SameNextPlace(s, t, cur, p, rest[0].key);
    var x := WrongOverhangs(s, t, cur, p);
    var st := r.(name := r.dir[i].name);
    LooseRenamed(r, r.dir[i].name);
    DamagedRenamed(r, r.dir[i].name, x, t, cur.key);
    OpenedAcross(st, i, cur.key, rest[0]);
    FirstStride(r, rest, i);
    var run := Upsert(Load(st, st.name).value, rest[0]);
    OneLessBehind(rest, 0, cur.key);
    DamageStays(st, run, i, x, t, cur.key, rest, 1);
    if Merge(r, rest).Done? {
      DisorderedIsNotInv(Merge(r, rest).store);
    }
  }

  /** The first stride of a merge. */
  lemma {:induction false} FirstStride(r: Store, rest: seq<Rec>, i: nat)
    requires r.maxCount > 0 && rest != [] && i == Search(r.dir, rest[0].key) < |r.dir| && r.name != r.dir[i].name
    requires var st := r.(name := r.dir[i].name); Load(st, st.name).Some?
    ensures var st := r.(name := r.dir[i].name);
            var run := Upsert(Load(st, st.name).value, rest[0]);
            && Merge(r, rest) == Walk(st, Some(run), rest, 1)
            && (WalkFits(r, None, rest, 0) ==> WalkFits(st, Some(run), rest, 1))
  {
    hide Search;
    hide Upsert;
    hide Load;
    LimitsStay(r, None);
  }

  /** The exact law for a list that goes on behind a cut: right exactly if the record behind the cut
      landed right, and the merge of the rest into what that leaves is right. */
  lemma {:induction false} CutMergeGoesOnIff(st: Store, head: seq<Rec>, cur: Rec, f: nat, t: nat, rest: seq<Rec>)
    requires OneMore(st, head, cur, f, t) && st.maxCount > 0 && LandingFits(st, head, cur, f, t)
    requires |Parts(st, head, f)| > 1 && Goes(st, head, cur, rest)
    requires var o := Merge(st, head + [cur]);
             o.Done? ==> o.store.maxCount > 0 && WalkFits(o.store, None, rest, 0)
    ensures var o := Merge(st, head + [cur]);
            && (o.Done? ==> o.store.maxCount > 0)
            && Merge(st, head + [cur] + rest) == (if o.Done? then Merge(o.store, rest) else o)
            && (MergesRight(st, head + [cur] + rest) <==>
                  && ChunksHaveAddsFrom(st, head, 0)
                  && |Parts(st, head, f)| == 2 && AllAbove(FileRecs(st.files, st.dir[t]), cur.key)
                  && o.Done? && MergesRight(o.store, rest))
  {
    hide Lt;
    hide Merge;
    hide OneMore;
    hide LandingFits;
    hide Inv;
    hide FileRecs;
    hide Parts;
    hide AllAbove;
    hide ChunksHaveAddsFrom;
    hide Contents;
    hide Overlay;
    hide Goes;
    hide WalkFits;
    var front := head + [cur];
    RestMergesAlone(st, head, cur, f, t, rest);
    CutMergeIff(st, head, cur, f, t);
    if MergesRight(st, front) {
      OverlayConcat(Contents(st), front, rest);
    } else if Merge(st, front).Done? {
      FrontWrong(st, head, cur, f, t, rest);
    }
  }

  lemma {:induction false} FrontWrong(st: Store, head: seq<Rec>, cur: Rec, f: nat, t: nat, rest: seq<Rec>)
    requires OneMore(st, head, cur, f, t) && st.maxCount > 0 && LandingFits(st, head, cur, f, t)
    requires |Parts(st, head, f)| > 1 && Goes(st, head, cur, rest)
    requires var o := Merge(st, head + [cur]);
             o.Done? && o.store.maxCount > 0 && WalkFits(o.store, None, rest, 0) && !MergesRight(st, head + [cur])
    ensures var o := Merge(st, head + [cur]).store;
            Merge(o, rest).Done? ==> !Inv(Merge(o, rest).store)
  {
    hide Lt;
    hide Merge;
    hide OneMore;
    hide LandingFits;
    hide Left;
    hide Inv;
    hide FileRecs;
    hide Upsert;
    hide Parts;
    hide ChunksHaveAddsFrom;
    hide Contents;
    hide Overlay;
    hide FlushMerge;
    hide FitsBehind;
    hide Goes;
    hide WalkFits;
    hide Landed;
    hide Overwritten;
    OneMorePlaces(st, head, cur, f, t);
    OneMoreMerge(st, head, cur, f, t);
    var s := Merge(st, head).store;
    WrongPlace(st, head, cur, f, t, s);
    LandedThere(st, head, cur, f, t, s);
    GoesRest(st, head, cur, rest);
    var s', p := Renamed(s, t), t + |Parts(st, head, f)| - 1;
    LeftInv(st, head, f, s);
    RenamedKeeps(s, t, cur.key);
    RestDoesNotMend(s', t, cur, p, rest);
  }

  // ---- every list that cuts a file too early ----------------------------------------------------------

  /** The merge cuts file i although the list goes on. */
  ghost predicate CutsEarly(st: Store, list: seq<Rec>, i: nat) {
    && i < |st.dir| && Group(st.dir, list, i) != [] && GroupEnd(st.dir, list, i) < |list|
    && |Rebuilt(st, list, i)| > 2 * st.maxCount
  }

  /** What is written for the groups of the list has room and fits the byte format. */
  ghost predicate GroupsFit(st: Store, list: seq<Rec>)
    requires st.maxCount > 0
  {
    forall i :: 0 <= i < |st.dir| && Group(st.dir, list, i) != [] ==>
      && |st.dir| + |Chunks(Rebuilt(st, list, i), st.maxCount)| <= st.maxFiles
      && ChunksFit(Chunks(Rebuilt(st, list, i), st.maxCount))
  }

  lemma {:induction false} EarliestCut(st: Store, list: seq<Rec>) returns (f: nat)
    requires !OnlyLastSplits(st, list)
    ensures CutsEarly(st, list, f) && forall i :: 0 <= i < f ==> !CutsEarly(st, list, i)
  {
    hide Group;
    hide GroupEnd;
    hide Rebuilt;
    assert exists i: nat :: CutsEarly(st, list, i) by {
      var i :| 0 <= i < |st.dir| && Group(st.dir, list, i) != [] && GroupEnd(st.dir, list, i) < |list|
               && |Rebuilt(st, list, i)| > 2 * st.maxCount;
      assert CutsEarly(st, list, i);
    }
    var g: nat :| CutsEarly(st, list, g);
    f := 0;
    while !CutsEarly(st, list, f)
      invariant f <= g && forall i :: 0 <= i < f ==> !CutsEarly(st, list, i)
      decreases g - f
    {
      f := f + 1;
    }
  }

  /** The list up to the end of group f has the same groups up to f, and none behind. */
  lemma {:induction false} GroupsUpTo(dir: seq<MetaNode>, list: seq<Rec>, f: nat, i: nat)
    requires EndsRise(dir) && Sorted(list) && f < |dir| && i < |dir|
    ensures var head := list[..GroupEnd(dir, list, f)];
            && (i <= f ==>
                  Group(dir, head, i) == Group(dir, list, i) && GroupEnd(dir, head, i) == GroupEnd(dir, list, i))
            && (i > f ==> Group(dir, head, i) == [])
  {
    hide Lt;
    hide UpTo;
    hide Sorted;
    hide EndsRise;
    EndUpTo(dir, list, f, i);
    if i > 0 {
      EndUpTo(dir, list, f, i - 1);
    }
    if i <= f {
      SameGroup(dir, list[..GroupEnd(dir, list, f)], list, i);
    }
  }

  lemma {:induction false} EndUpTo(dir: seq<MetaNode>, list: seq<Rec>, f: nat, i: nat)
    requires EndsRise(dir) && Sorted(list) && f < |dir| && i < |dir|
    ensures var head := list[..UpTo(list, dir[f].end)];
            UpTo(head, dir[i].end) == if i <= f then UpTo(list, dir[i].end) else |head|
    ensures i <= f ==> UpTo(list, dir[i].end) <= UpTo(list, dir[f].end)
  {
    hide Lt;
    LtIsStrictTotalOrder();
    var n, u := UpTo(list, dir[f].end), UpTo(list, dir[i].end);
    var head := list[..n];
    if i <= f {
      assert Le(dir[i].end, dir[f].end);
      assert u <= n by {
        assert u > n ==> Le(list[n].key, dir[i].end);
      }
      UpToIs(head, dir[i].end, u);
    } else {
      assert Lt(dir[f].end, dir[i].end);
      UpToIs(head, dir[i].end, n);
    }
  }

  lemma {:induction false} HeadOfCut(st: Store, list: seq<Rec>, f: nat)
    requires Inv(st) && Sorted(list) && AllRoute(st.dir, list) && st.maxCount > 0 && GroupsFit(st, list)
    requires CutsEarly(st, list, f) && forall i :: 0 <= i < f ==> !CutsEarly(st, list, i)
    ensures var head := list[..GroupEnd(st.dir, list, f)];
            Walkable(st, head) && Rebuilt(st, head, f) == Rebuilt(st, list, f)
  {
    hide Lt;
    hide Inv;
    hide FileRecs;
    hide UpsertAll;
    hide UpTo;
    hide Group;
    hide Chunks;
    hide ChunksFit;
    hide GroupEnd;
    InvEnds(st);
    hide EndsRise;
    var head := list[..GroupEnd(st.dir, list, f)];
    forall i: nat | i < |st.dir|
      ensures i <= f ==> Group(st.dir, head, i) == Group(st.dir, list, i)
      ensures i <= f ==> GroupEnd(st.dir, head, i) == GroupEnd(st.dir, list, i)
      ensures i > f ==> Group(st.dir, head, i) == []
    {
      GroupsUpTo(st.dir, list, f, i);
    }
    assert Sorted(head) && AllRoute(st.dir, head) by { FrontSorted(st.dir, list, |head|); }
    hide Sorted;
    hide AllRoute;
    forall i: nat | i < |st.dir| && Group(st.dir, head, i) != [] && GroupEnd(st.dir, head, i) < |head|
      ensures |Rebuilt(st, head, i)| <= 2 * st.maxCount
    {
      assert i < f && !CutsEarly(st, list, i);
    }
  }

  lemma {:induction false} FrontSorted(dir: seq<MetaNode>, list: seq<Rec>, n: nat)
    requires Sorted(list) && AllRoute(dir, list) && n <= |list|
    ensures Sorted(list[..n]) && AllRoute(dir, list[..n])
  {
    hide Lt;
  }

  lemma {:induction false} PlacesOfCut(dir: seq<MetaNode>, list: seq<Rec>, f: nat)
    requires EndsRise(dir) && Sorted(list) && AllRoute(dir, list) && f < |dir|
    requires Group(dir, list, f) != [] && GroupEnd(dir, list, f) < |list|
    ensures var n := GroupEnd(dir, list, f);
            n > 0 && Search(dir, list[n - 1].key) == f && f < Search(dir, list[n].key) < |dir|
  {
    hide Lt;
    hide Search;
    LtIsStrictTotalOrder();
    var n, a := GroupEnd(dir, list, f), GroupStart(dir, list, f);
    assert a < n;
    assert a < n - 1 ==> Lt(list[a].key, list[n - 1].key);
    SearchIs(dir, list[n - 1].key, f);
    assert forall j :: 0 <= j <= f ==> Le(dir[j].end, dir[f].end);
    SearchFinds(dir, list[n].key);
  }

  /** Every routed list that is not covered by the laws of the uniform merge splits at the record behind
      its first cut. */
  lemma {:induction false} FirstCut(st: Store, list: seq<Rec>) returns (n: nat, f: nat, t: nat)
    requires Inv(st) && Sorted(list) && AllRoute(st.dir, list) && !OnlyLastSplits(st, list)
    requires st.maxCount > 0 && GroupsFit(st, list)
    ensures n < |list| && OneMore(st, list[..n], list[n], f, t) && |Parts(st, list[..n], f)| > 1
    ensures list == list[..n] + [list[n]] + list[n + 1..]
    ensures n + 1 < |list| ==> Goes(st, list[..n], list[n], list[n + 1..])
  {
    hide Lt;
    hide Inv;
    hide FileRecs;
    hide UpsertAll;
    hide UpTo;
    hide Group;
    hide Search;
    hide GroupEnd;
    hide Walkable;
    hide OnlyLastSplits;
    hide GroupsFit;
    hide Chunks;
    f := EarliestCut(st, list);
    InvEnds(st);
    HeadOfCut(st, list, f);
    PlacesOfCut(st.dir, list, f);
    n := GroupEnd(st.dir, list, f);
    t := Search(st.dir, list[n].key);
    OneChunkIff(Rebuilt(st, list, f), st.maxCount);
    ListAround(list, n);
    RestRoutes(st.dir, list, n);
  }

  lemma {:induction false} ListAround(list: seq<Rec>, n: nat)
    requires n < |list| && Sorted(list)
    ensures list == list[..n] + [list[n]] + list[n + 1..]
    ensures Sorted(list[..n] + [list[n]])
  {
    hide Lt;
    assert list[..n] + [list[n]] == list[..n + 1];
  }

  lemma {:induction false} RestRoutes(dir: seq<MetaNode>, list: seq<Rec>, n: nat)
    requires n < |list| && AllRoute(dir, list)
    ensures AllRoute(dir, list[n + 1..])
  {
    hide Lt;
  }
}
