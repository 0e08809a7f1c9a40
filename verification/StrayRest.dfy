// What becomes of a record that went astray while the walk goes on: where it does not fit, nothing that
// follows makes the merge right.
module StrayRests {
  import opened Keys
  import opened Records
  import opened Merging
  import opened Images
  import opened Metas
  import opened Stores
  import opened StoreLaws
  import opened FlushLaws
  import opened MergeLaws
  import opened MergeTheorem
  import opened MixedLists
  import opened RestartLaws
  import opened StaleIndex
  import opened CutLists
  import opened CutRests
  import opened LostTails
  import opened Lacking
  import opened LooseStores
  import opened Strides
  import opened Damages
  import opened Astrays

  /** The records behind the stray one: larger keys that route to files. */
  ghost predicate Follows(dir: seq<MetaNode>, cur: Rec, rest: seq<Rec>) {
    Sorted([cur] + rest) && AllRoute(dir, rest)
  }

  lemma {:induction false} FollowsParts(dir: seq<MetaNode>, cur: Rec, rest: seq<Rec>)
    requires Follows(dir, cur, rest)
    ensures dir != [] && Sorted(rest) && LeftBehind(rest, 0, cur.key) && LeftUpTo(rest, 0, LastEnd(dir))
    ensures rest != [] ==> Lt(cur.key, rest[0].key) && Le(rest[0].key, LastEnd(dir)) && LeftBehind(rest, 1, rest[0].key)
    ensures Without(rest, cur.key)
  {
    hide Lt;
    LtIsStrictTotalOrder();
    var list := [cur] + rest;
    assert forall j :: 0 <= j < |rest| ==> list[1 + j] == rest[j];
    assert list[0] == cur;
  }

  // ---- the stride behind the flush ------------------------------------------------------------------

  /** The store after a flush, with the name of place i current. */
  ghost function NamedAt(b: Store, i: nat): Store
    requires i < |b.dir|
  {
    b.(name := b.dir[i].name)
  }

  /** The next record in what stands at place i. */
  ghost function RunAt(b: Store, i: nat, cur: Rec): seq<Rec>
    requires i < |b.dir|
  {
    Upsert(FileRecs(b.files, b.dir[i]), cur)
  }

  lemma {:induction false} OpensAt(b: Store, i: nat, k: Key, cur: Rec)
    requires Loose(b) && i < |b.dir| && Lt(k, cur.key)
    ensures Loose(NamedAt(b, i)) && Opened(NamedAt(b, i), RunAt(b, i, cur), i, k)
    ensures Load(NamedAt(b, i), NamedAt(b, i).name) == Some(FileRecs(b.files, b.dir[i]))
  {
    hide Lt;
    hide FileRecs;
    hide Loose;
    hide Load;
    hide Upsert;
    hide Opened;
    LooseRenamed(b, b.dir[i].name);
    LoadFine(NamedAt(b, i), i);
    OpenedAcross(NamedAt(b, i), i, k, cur);
  }

  /** A walk that has to flush first. */
  lemma {:induction false} FlushesFirst(st: Store, run: seq<Rec>, list: seq<Rec>, pos: nat, k: Key)
    requires st.maxCount > 0 && pos < |list| && Search(st.dir, list[pos].key) < |st.dir| && Lt(k, list[pos].key)
    requires st.name != st.dir[Search(st.dir, list[pos].key)].name && WalkFits(st, Some(run), list, pos)
    ensures ChunksFit(Chunks(run, st.maxCount))
    ensures FlushMerge(st, run).Stopped? ==> Walk(st, Some(run), list, pos).Stopped?
    ensures FlushMerge(st, run).Done? && Loose(FlushMerge(st, run).store) ==>
              var b, i := FlushMerge(st, run).store, Search(st.dir, list[pos].key);
              && i < |b.dir| && b.maxCount == st.maxCount
              && Walk(st, Some(run), list, pos) == Walk(NamedAt(b, i), Some(RunAt(b, i, list[pos])), list, pos + 1)
              && WalkFits(NamedAt(b, i), Some(RunAt(b, i, list[pos])), list, pos + 1)
  {
    hide Lt;
    hide FileRecs;
    hide Loose;
    hide Load;
    hide Upsert;
    hide Opened;
    hide Search;
    hide FlushMerge;
    hide Chunks;
    hide ChunksFit;
    hide Walk;
    hide WalkFits;
    LimitsStay(st, Some(run));
    WalkStrides(st, run, list, pos);
    FitsStrides(st, run, list, pos);
    if FlushMerge(st, run).Done? && Loose(FlushMerge(st, run).store) {
      OpensAt(FlushMerge(st, run).store, Search(st.dir, list[pos].key), k, list[pos]);
    }
  }

  // ---- three kinds of damage ------------------------------------------------------------------------

  lemma {:induction false} HurtsOnward(b: Store, i: nat, k: Key, rest: seq<Rec>, pos: nat, x: Rec, e: nat)
    requires Loose(b) && i < |b.dir| && b.maxCount > 0 && Le(x.key, k) && pos < |rest| && Lt(k, rest[pos].key)
    requires (exists u: nat, v: nat :: Crossed(b, x, u, v)) || (Overhangs(b, x, e, k) && e < i)
    requires LeftBehind(rest, pos + 1, k)
    requires WalkFits(NamedAt(b, i), Some(RunAt(b, i, rest[pos])), rest, pos + 1)
    ensures var o := Walk(NamedAt(b, i), Some(RunAt(b, i, rest[pos])), rest, pos + 1);
            o.Done? ==> Disordered(o.store)
  {
    hide Lt;
    hide FileRecs;
    hide Loose;
    hide Opened;
    hide Upsert;
    hide Inv;
    hide Walk;
    hide WalkFits;
    hide Crossed;
    hide Overhangs;
    hide LeftBehind;
    hide Disordered;
    OpensAt(b, i, k, rest[pos]);
    DamagedRenamed(b, b.dir[i].name, x, e, k);
    if Overhangs(b, x, e, k) && e < i {
      OverhangRenamed(b, b.dir[i].name, x, e, k);
    }
    DamageStays(NamedAt(b, i), RunAt(b, i, rest[pos]), i, x, e, k, rest, pos + 1);
  }

  lemma {:induction false} OverhangRenamed(st: Store, name: Name, x: Rec, t: nat, k: Key)
    requires Overhangs(st, x, t, k)
    ensures Overhangs(st.(name := name), x, t, k)
  {
    hide Lt;
    hide FileRecs;
    hide NotBelow;
    hide StartsFile;
    var b := st.(name := name);
    forall j: nat | j < |st.dir|
      ensures NotBelow(st, j, x.key) <==> NotBelow(b, j, x.key)
      ensures StartsFile(st, j, x) <==> StartsFile(b, j, x)
    {
      SameNotBelow(st, j, b, j, x);
    }
  }

  /** A short run of a file up to the overhang, with a larger key behind it: its flush only moves the
      overhang on. */
  lemma {:induction false} ShortFlush(st: Store, run: seq<Rec>, q: nat, x: Rec, e: nat, k: Key, k2: Key)
    requires Loose(st) && q <= e && q < |st.dir| && st.name == st.dir[q].name && Overhangs(st, x, e, k)
    requires run != [] && Sorted(run) && |run| <= 2 * st.maxCount && st.maxCount > 0
    requires ChunksFit(Chunks(run, st.maxCount))
    requires LastKey(run) == k2 && Lt(k, k2) && Le(x.key, k)
    ensures FlushMerge(st, run).Done? ==>
              var b := FlushMerge(st, run).store;
              && Loose(b) && |b.dir| == |st.dir| && Overhangs(b, x, e, k2) && b.maxCount == st.maxCount
  {
    hide Lt;
    hide FileRecs;
    hide Loose;
    hide Adds;
    hide Fit;
    hide Sorted;
    hide Write;
    hide WriteNew;
    hide FlushMerge;
    hide Overwritten;
    hide NotBelow;
    hide StartsFile;
    LtIsStrictTotalOrder();
    FlushMergeUnfolds(st, run);
    ChunksConserve(run, st.maxCount);
    hide Chunks;
    assert [run][1..] == [];
    if Adds(run) == [] {
      NoAddsNoWrite(st, run, false);
    } else {
      assert Chunks(run, st.maxCount)[0] == run;
      OverwriteLoose(st, q, run);
      var b := Overwritten(st, q, run);
      OverwrittenLimits(st, q, run);
      NoMoreChunks(b, []);
      forall j: nat | j < |b.dir|
        ensures j > e ==> NotBelow(b, j, x.key)
        ensures j == e + 1 ==> StartsFile(b, j, x)
        ensures j <= e ==> Le(b.dir[j].end, k2)
        ensures j == e ==> Le(x.key, b.dir[j].end)
      {
        if j != q {
          assert SameFile(st, j, b, j);
          SameNotBelow(st, j, b, j, x);
        }
      }
    }
  }

  lemma {:induction false} SearchInBefore(dir: seq<MetaNode>, key: Key, left: nat)
    requires left < |dir| && Le(key, dir[|dir| - 1].end)
    ensures SearchIn(dir, key, left, |dir|) < |dir|
    decreases |dir| - left
  {
    hide Lt;
    hide Mid;
    LtIsStrictTotalOrder();
    var i := Mid(left, |dir|);
    if Strcmp(key, dir[i].end) > 0 {
      SearchInBefore(dir, key, i + 1);
    }
  }

  /** A key up to the last end routes to a file, whatever the order of the directory. */
  lemma {:induction false} RoutesLoosely(dir: seq<MetaNode>, key: Key)
    requires dir != [] && Le(key, dir[|dir| - 1].end)
    ensures Search(dir, key) < |dir|
  {
    hide Lt;
    SearchInBefore(dir, key, 0);
  }

  lemma {:induction false} ShortRun(b: Store, i: nat, x: Rec, e: nat, k: Key, cur: Rec)
    requires Loose(b) && i <= e && i < |b.dir| && Overhangs(b, x, e, k) && Lt(k, cur.key)
    requires |FileRecs(b.files, b.dir[i])| < 2 * b.maxCount
    ensures var run := RunAt(b, i, cur);
            run != [] && Sorted(run) && |run| <= 2 * b.maxCount && LastKey(run) == cur.key
  {
    hide Lt;
    hide FileRecs;
    hide Loose;
    hide Upsert;
    hide Load;
    LtIsStrictTotalOrder();
    LoadFine(b, i);
    var l := FileRecs(b.files, b.dir[i]);
    RunBelow(l, k, cur.key);
    UpsertBehind(l, cur);
    UpsertSorted(l, cur);
  }

  /** The next record goes into a part in front of the overhang: the one behind it finds the overhang
      still there. */
  lemma {:induction false} HangsOnward(b: Store, i: nat, k: Key, rest: seq<Rec>, x: Rec, e: nat)
    requires Loose(b) && b.maxCount > 0 && i <= e && i < |b.dir| && Overhangs(b, x, e, k) && Le(x.key, k)
    requires |FileRecs(b.files, b.dir[i])| < 2 * b.maxCount && rest != [] && LeftBehind(rest, 0, k)
    requires LeftUpTo(rest, 0, b.dir[|b.dir| - 1].end)
    requires WalkFits(NamedAt(b, i), Some(RunAt(b, i, rest[0])), rest, 1)
    ensures var o := Walk(NamedAt(b, i), Some(RunAt(b, i, rest[0])), rest, 1);
            o.Done? ==> Disordered(o.store)
  {
    hide Lt;
    hide FileRecs;
    hide Loose;
    hide Opened;
    hide Inv;
    hide Walk;
    hide WalkFits;
    hide FlushMerge;
    hide Overhangs;
    hide Disordered;
    hide Chunks;
    hide ChunksFit;
    hide Search;
    hide RunAt;
    var st, run, k2 := NamedAt(b, i), RunAt(b, i, rest[0]), rest[0].key;
    assert Lt(k, k2);
    OpensAt(b, i, k, rest[0]);
    ShortRun(b, i, x, e, k, rest[0]);
    OverhangRenamed(b, b.dir[i].name, x, e, k);
    if |rest| == 1 {
      EndsFit(st, run, rest);
      WalkEndsAt(st, run, rest);
      ShortFlush(st, run, i, x, e, k, k2);
      if FlushMerge(st, run).Done? {
        DamagedDisorders(FlushMerge(st, run).store, x, e, k2);
      }
    } else {
      RoutesLoosely(st.dir, rest[1].key);
      GoesBehind(st, x, e, k, rest[1].key);
      var j := Search(st.dir, rest[1].key);
      if st.dir[i].name == st.dir[j].name {
        SamePlace(st, i, j);
      }
      FlushesFirst(st, run, rest, 1, k2);
      ShortFlush(st, run, i, x, e, k, k2);
      if FlushMerge(st, run).Done? {
        LtIsStrictTotalOrder();
        HurtsOnward(FlushMerge(st, run).store, j, k2, rest, 1, x, e);
      }
    }
  }

  lemma {:induction false} LacksOnward(b: Store, i: nat, k: Key, rest: seq<Rec>, key: Key)
    requires StoreWithout(b, key) && Loose(b) && b.maxCount > 0 && i < |b.dir| && Lt(key, k)
    requires rest != [] && LeftBehind(rest, 0, k)
    requires WalkFits(NamedAt(b, i), Some(RunAt(b, i, rest[0])), rest, 1)
    ensures var o := Walk(NamedAt(b, i), Some(RunAt(b, i, rest[0])), rest, 1);
            o.Done? ==> StoreWithout(o.store, key)
  {
    hide Lt;
    hide FileRecs;
    hide Loose;
    hide Opened;
    hide Walk;
    hide WalkFits;
    hide Load;
    hide Upsert;
    LtIsStrictTotalOrder();
    assert Without(rest, key) && rest[0].key != key;
    assert NodeWithout(b, b.dir[i], key);
    UpsertWithout(FileRecs(b.files, b.dir[i]), rest[0], key);
    NameDoesNotMatter(b, NamedAt(b, i), key);
    WalkWithout(NamedAt(b, i), RunAt(b, i, rest[0]), rest, 1, key);
  }

  // ---- a stray record that does not fit --------------------------------------------------------------

  /** The outcome is that of a right merge of the list into s. */
  ghost predicate EndsRight(s: Store, list: seq<Rec>, o: Outcome) {
    o.Done? && Inv(o.store) && Contents(o.store) == Overlay(Contents(s), list)
  }

  /** A record that the file at place t held, in front of the key, is in no file any more. */
  ghost predicate Gone(s: Store, t: nat, cur: Rec, x: Rec, b: Store)
    requires t < |s.dir|
  {
    && StoreWithout(b, x.key) && x in FileRecs(s.files, s.dir[t]) && Lt(x.key, cur.key)
    && |FileRecs(s.files, s.dir[t])| >= 2 * s.maxCount
  }

  /** The walk stops, or leaves a directory out of order, or one that lacks a record. */
  ghost predicate Ruined(s: Store, t: nat, cur: Rec, o: Outcome)
    requires t < |s.dir|
  {
    o.Done? ==> Disordered(o.store) || exists x: Rec :: Gone(s, t, cur, x, o.store)
  }

  /** What a cut leaves of the files around the record: a key is lost, or files are crossed, or one hangs
      over the next, with short files up to it. */
  ghost predicate Spoilt(s: Store, t: nat, cur: Rec, b: Store, x: Rec, e: nat)
    requires t < |s.dir|
  {
    || Gone(s, t, cur, x, b)
    || (Le(x.key, cur.key) && exists u: nat, v: nat :: Crossed(b, x, u, v))
    || (Le(x.key, cur.key) && Overhangs(b, x, e, cur.key) && ShortUpTo(b, t, e, 2 * s.maxCount))
  }

  ghost predicate ShortUpTo(b: Store, t: nat, e: nat, n: nat) {
    e < |b.dir| && forall j :: t < j <= e ==> |FileRecs(b.files, b.dir[j])| < n
  }

  lemma {:induction false} CutSpoils(s: Store, t: nat, cur: Rec, p: nat) returns (x: Rec, e: nat)
    requires CutAstray(s, t, cur, p) && s.maxCount > 0 && !FitsBehind(s, t, cur.key)
    requires FlushMerge(s, StrayRun(s, t, cur)).Done?
    ensures var b := FlushMerge(s, StrayRun(s, t, cur)).store;
            && t < |s.dir| && Loose(b) && b.dir != [] && b.dir[|b.dir| - 1].end == LastEnd(s.dir)
            && Spoilt(s, t, cur, b, x, e)
  {
    hide Lt;
    hide CutAstray;
    hide Inv;
    hide Loose;
    hide FileRecs;
    hide Chunks;
    hide ChunkOk;
    hide Adds;
    hide Concat;
    hide Write;
    hide Grown;
    hide FlushMerge;
    hide Halfway;
    hide Crossed;
    hide Overhangs;
    hide StoreWithout;
    hide FitsBehind;
    hide AllBelow;
    AstrayCut(s, t, cur, p);
    FinalStarts(s, t, cur, p);
    var a := HalfwayThere(s, t, cur, p);
    var b := FlushMerge(s, StrayRun(s, t, cur)).store;
    var q := p + |FirstParts(s, t, cur)| - 1;
    CutParts(s, t, cur, p);
    FinalGrows(s, t, cur, p, a);
    x, e := FirstOfFinal(s, t, cur), t + |FirstParts(s, t, cur)|;
    if |b.dir| == |a.dir| {
      DroppedLacks(s, t, cur, p, a, b, q);
      DroppedEnds(s, t, cur, p, a, b, q);
    } else {
      BehindFinal(s, t, cur, p, a, b, |s.dir| - 1);
      if p > t + 1 {
        EnteredCrosses(s, t, cur, p, a, b);
      } else {
        x := EnteredOverhangs(s, t, cur, p, a, b);
        forall j | t < j <= e
          ensures j < |b.dir| && |FileRecs(b.files, b.dir[j])| < 2 * s.maxCount
        {
          BeforeFinal(s, t, cur, p, a, b, j);
        }
      }
    }
  }

  lemma {:induction false} DroppedEnds(s: Store, t: nat, cur: Rec, p: nat, a: Store, b: Store, q: nat)
    requires CutAstray(s, t, cur, p) && s.maxCount > 0 && Halfway(s, t, cur, a) && FinalPart(s, t, cur) != []
    requires Grown(a, b, q, FinalPart(s, t, cur)) && |b.dir| == |a.dir|
    ensures b.dir != [] && s.dir != [] && b.dir[|b.dir| - 1].end == LastEnd(s.dir)
  {
    hide Lt;
    hide CutAstray;
    hide Inv;
    hide FileRecs;
    hide Chunks;
    hide HoldsChunks;
    hide MovedBack;
    hide Adds;
    AstrayCut(s, t, cur, p);
    HalfwayAround(s, t, cur, p, a);
    assert SameFile(a, |a.dir| - 1, b, |a.dir| - 1);
  }

  lemma {:induction false} NotMentioned(dir: seq<MetaNode>, cur: Rec, rest: seq<Rec>, key: Key)
    requires Follows(dir, cur, rest) && Lt(key, cur.key)
    ensures Without([cur] + rest, key)
  {
    hide Lt;
    LtIsStrictTotalOrder();
    FollowsParts(dir, cur, rest);
  }

  lemma {:induction false} WholeSpoils(s: Store, t: nat, cur: Rec, p: nat) returns (x: Rec)
    requires Landed(s, t, cur, p) && s.maxCount > 0 && !FitsBehind(s, t, cur.key)
    ensures t < |s.dir| && FlushMerge(s, StrayRun(s, t, cur)).Done?
    ensures var b := FlushMerge(s, StrayRun(s, t, cur)).store;
            && Loose(b) && b.dir != [] && b.dir[|b.dir| - 1].end == LastEnd(s.dir)
            && Le(x.key, cur.key) && Overhangs(b, x, t, cur.key)
  {
    hide Lt;
    hide Inv;
    hide Loose;
    hide FileRecs;
    hide Chunks;
    hide ChunksFit;
    hide ChunkOk;
    hide Overwritten;
    hide FlushMerge;
    hide Overhangs;
    hide FitsBehind;
    hide RunUpTo;
    hide Upsert;
    hide SplitAt;
    LandedRun(s, t, cur, p);
    InvIsLoose(s);
    OverwriteLoose(s, t, StrayRun(s, t, cur));
    x := WrongOverhangs(s, t, cur, p);
    assert SameFile(s, |s.dir| - 1, Wrong(s, t, cur), |s.dir| - 1);
  }

  /** What is written with the stray record fits. */
  ghost predicate StrayFits(s: Store, t: nat, cur: Rec)
    requires t < |s.dir| && s.maxCount > 0
  {
    var run := StrayRun(s, t, cur);
    ChunksFit(Chunks(run, s.maxCount)) && |s.dir| + |Chunks(run, s.maxCount)| <= s.maxFiles
  }

  lemma {:induction false} StraySpoils(s: Store, t: nat, cur: Rec, p: nat) returns (x: Rec, e: nat)
    requires Astray(s, t, cur, p) && s.maxCount > 1 && StrayFits(s, t, cur) && !FitsBehind(s, t, cur.key)
    requires FlushMerge(s, StrayRun(s, t, cur)).Done?
    ensures var b := FlushMerge(s, StrayRun(s, t, cur)).store;
            && Loose(b) && b.dir != [] && b.dir[|b.dir| - 1].end == LastEnd(s.dir)
            && Spoilt(s, t, cur, b, x, e)
  {
    hide Lt;
    hide Inv;
    hide Loose;
    hide FileRecs;
    hide Chunks;
    hide ChunksFit;
    hide FlushMerge;
    hide Crossed;
    hide Overhangs;
    hide StoreWithout;
    hide FitsBehind;
    hide SplitAt;
    if |StrayRun(s, t, cur)| > 2 * s.maxCount {
      x, e := CutSpoils(s, t, cur, p);
    } else {
      x := WholeSpoils(s, t, cur, p);
      e := t;
      OverhangPlace(FlushMerge(s, StrayRun(s, t, cur)).store, x, t, cur.key);
    }
  }

  lemma {:induction false} OverhangPlace(b: Store, x: Rec, e: nat, k: Key)
    requires Overhangs(b, x, e, k)
    ensures e < |b.dir|
  {
    hide NotBelow;
    hide StartsFile;
    hide Lt;
  }

  lemma {:induction false} SpoiltEnds(s: Store, t: nat, cur: Rec, b: Store, x: Rec, e: nat)
    requires t < |s.dir| && Spoilt(s, t, cur, b, x, e) && Loose(b)
    ensures Ruined(s, t, cur, Done(b))
  {
    hide Lt;
    hide Loose;
    hide Crossed;
    hide Overhangs;
    hide Gone;
    hide Disordered;
    if !Gone(s, t, cur, x, b) {
      DamagedDisorders(b, x, e, cur.key);
    }
  }

  /** Whatever of the three it is, it stays. */
  lemma {:induction false} SpoiltOnward(s: Store, t: nat, cur: Rec, b: Store, x: Rec, e: nat, i: nat,
                                        rest: seq<Rec>)
    requires t < |s.dir| && Follows(s.dir, cur, rest) && rest != [] && Spoilt(s, t, cur, b, x, e)
    requires Loose(b) && b.maxCount == s.maxCount > 0 && t < i < |b.dir| && b.dir[|b.dir| - 1].end == LastEnd(s.dir)
    requires WalkFits(NamedAt(b, i), Some(RunAt(b, i, rest[0])), rest, 1)
    ensures Ruined(s, t, cur, Walk(NamedAt(b, i), Some(RunAt(b, i, rest[0])), rest, 1))
  {
    hide Lt;
    hide FileRecs;
    hide Loose;
    hide Crossed;
    hide Overhangs;
    hide StoreWithout;
    hide Follows;
    hide Without;
    hide Walk;
    hide WalkFits;
    hide RunAt;
    hide LeftBehind;
    hide LeftUpTo;
    hide Disordered;
    FollowsParts(s.dir, cur, rest);
    var o := Walk(NamedAt(b, i), Some(RunAt(b, i, rest[0])), rest, 1);
    if Gone(s, t, cur, x, b) {
      LacksOnward(b, i, cur.key, rest, x.key);
      assert o.Done? ==> Gone(s, t, cur, x, o.store);
    } else {
      OneLessBehind(rest, 0, cur.key);
      if (exists u: nat, v: nat :: Crossed(b, x, u, v)) || e < i {
        HurtsOnward(b, i, cur.key, rest, 0, x, e);
      } else {
        HangsOnward(b, i, cur.key, rest, x, e);
      }
    }
  }

  lemma {:induction false} NextAstray(s: Store, t: nat, cur: Rec, p: nat, key: Key)
    requires Astray(s, t, cur, p) && Lt(cur.key, key) && Le(key, LastEnd(s.dir))
    ensures var i := Search(s.dir, key); t < i < |s.dir| && s.name != s.dir[i].name && SplitAt(s.dir, i, key)
  {
    hide Lt;
    hide Inv;
    hide Search;
    hide SplitAt;
    InvEnds(s);
    InvNames(s);
    AstrayPlace(s, t, cur, p);
    var i := NextPlace(s.dir, p, cur.key, key);
  }

  /** Where the stray record does not fit, nothing that follows mends it. */
  lemma {:induction false} StrayRuins(s: Store, t: nat, cur: Rec, p: nat, rest: seq<Rec>)
    requires Astray(s, t, cur, p) && s.maxCount > 1 && StrayFits(s, t, cur) && !FitsBehind(s, t, cur.key)
    requires Follows(s.dir, cur, rest) && WalkFits(s, Some(StrayRun(s, t, cur)), rest, 0)
    ensures Ruined(s, t, cur, Walk(s, Some(StrayRun(s, t, cur)), rest, 0))
  {
    hide Lt;
    hide Inv;
    hide Loose;
    hide Astray;
    hide StrayRun;
    hide StrayFits;
    hide Walk;
    hide WalkFits;
    hide FlushMerge;
    hide FitsBehind;
    hide Follows;
    hide Spoilt;
    hide Gone;
    hide Disordered;
    hide Search;
    hide RunAt;
    AstrayPlace(s, t, cur, p);
    var run := StrayRun(s, t, cur);
    var o := FlushMerge(s, run);
    FollowsParts(s.dir, cur, rest);
    var x: Rec, e: nat;
    if o.Done? {
      x, e := StraySpoils(s, t, cur, p);
    }
    if rest == [] {
      WalkEndsAt(s, run, rest);
      if o.Done? {
        SpoiltEnds(s, t, cur, o.store, x, e);
      }
    } else {
      NextAstray(s, t, cur, p, rest[0].key);
      FlushesFirst(s, run, rest, 0, cur.key);
      if o.Done? {
        SpoiltOnward(s, t, cur, o.store, x, e, Search(s.dir, rest[0].key), rest);
      }
    }
  }

  /** Then the merge is not right. */
  lemma {:induction false} StrayNeverRight(s: Store, t: nat, cur: Rec, p: nat, rest: seq<Rec>)
    requires Astray(s, t, cur, p) && s.maxCount > 1 && StrayFits(s, t, cur) && !FitsBehind(s, t, cur.key)
    requires Follows(s.dir, cur, rest) && WalkFits(s, Some(StrayRun(s, t, cur)), rest, 0)
    ensures !EndsRight(s, [cur] + rest, Walk(s, Some(StrayRun(s, t, cur)), rest, 0))
  {
    hide Lt;
    hide Inv;
    hide FileRecs;
    hide Astray;
    hide StrayRun;
    hide StrayFits;
    hide Walk;
    hide WalkFits;
    hide FitsBehind;
    hide Follows;
    hide StoreWithout;
    hide Disordered;
    hide Contents;
    hide Overlay;
    AstrayPlace(s, t, cur, p);
    StrayRuins(s, t, cur, p, rest);
    var o := Walk(s, Some(StrayRun(s, t, cur)), rest, 0);
    if o.Done? {
      if Disordered(o.store) {
        DisorderedIsNotInv(o.store);
      } else {
        var x: Rec :| Gone(s, t, cur, x, o.store);
        NotInContents(o.store, x.key);
        StoredIsThere(s, t, x);
        NotMentioned(s.dir, cur, rest, x.key);
        OverlayKeeps(Contents(s), [cur] + rest, x.key);
      }
    }
  }
}
