// A store, for every size of a chunk, that loses sight of a key when it cuts a file.
module CutExample {
  import opened Keys
  import opened Records
  import opened Merging
  import opened Codec
  import opened Images
  import opened Metas
  import opened Stores
  import opened StoreLaws
  import opened FlushLaws
  import opened MergeLaws
  import opened MergeTheorem
  import opened MixedLists
  import opened StaleIndex
  import opened CutLists

  // ---- keys of one width -----------------------------------------------------------------------

  function Pow255(w: nat): (n: nat)
    ensures n > 0
  {
    if w == 0 then 1 else 255 * Pow255(w - 1)
  }

  /** The number i as a key of w bytes, none of them 0. */
  function Num(i: nat, w: nat): (k: Key)
    ensures |k| == w && NoNul(k)
  {
    if w == 0 then [] else Num(i / 255, w - 1) + [1 + i % 255]
  }

  lemma {:induction false} LtSnoc(a: Key, b: Key, x: Byte, y: Byte)
    requires |a| == |b| && (Lt(a, b) || (a == b && x < y))
    ensures Lt(a + [x], b + [y])
  {
    if a != [] {
      assert (a + [x])[1..] == a[1..] + [x] && (b + [y])[1..] == b[1..] + [y];
      if a[0] == b[0] {
        LtSnoc(a[1..], b[1..], x, y);
      }
    }
  }

  lemma {:induction false} DivideBelow(i: nat, n: nat)
    requires i < 255 * n
    ensures i / 255 < n
  {
  }

  lemma {:induction false} NumsRise(i: nat, j: nat, w: nat)
    requires i < j < Pow255(w)
    ensures Lt(Num(i, w), Num(j, w))
  {
    hide Lt;
    DivideBelow(j, Pow255(w - 1));
    if i / 255 < j / 255 {
      NumsRise(i / 255, j / 255, w - 1);
    }
    LtSnoc(Num(i / 255, w - 1), Num(j / 255, w - 1), 1 + i % 255, 1 + j % 255);
  }

  /** A record under the number i. All values may stand at the first offset. */
  function N(i: nat, w: nat): Rec {
    Rec(Num(i, w), 4, ADD)
  }

  /** Records of one width that the byte format carries. */
  ghost predicate Plain(s: seq<Rec>, w: nat) {
    forall r :: r in s ==> |r.key| == w && NoNul(r.key) && r.val == 4 && r.opt == ADD
  }

  lemma {:induction false} PlainFits(s: seq<Rec>, w: nat)
    requires Plain(s, w)
    ensures Adds(s) == s && Fit(Adds(s))
  {
    assert forall i :: 0 <= i < |s| ==> s[i] in s;
    AddsOfAdds(s);
  }

  lemma {:induction false} PlainChunks(run: seq<Rec>, w: nat, m: nat)
    requires Plain(run, w) && run != [] && m > 0
    ensures ChunksFit(Chunks(run, m)) && AllHaveAdds(Chunks(run, m))
    ensures forall i :: 0 <= i < |Chunks(run, m)| ==> Plain(Chunks(run, m)[i], w)
  {
    hide Chunks;
    hide Fit;
    hide Adds;
    hide Plain;
    ChunksConserve(run, m);
    forall i | 0 <= i < |Chunks(run, m)|
      ensures Plain(Chunks(run, m)[i], w) && Fit(Adds(Chunks(run, m)[i])) && Adds(Chunks(run, m)[i]) != []
    {
      PlainPart(run, w, Chunks(run, m), i);
      PlainFits(Chunks(run, m)[i], w);
    }
  }

  lemma {:induction false} PlainPart(run: seq<Rec>, w: nat, chunks: seq<seq<Rec>>, i: nat)
    requires Plain(run, w) && Concat(chunks) == run && i < |chunks|
    ensures Plain(chunks[i], w)
  {
    hide Concat;
    forall r | r in chunks[i]
      ensures r in run
    {
      PartIn(chunks, i, r);
    }
  }

  lemma {:induction false} PlainUpsert(s: seq<Rec>, r: Rec, w: nat)
    requires Sorted(s) && Plain(s, w) && Plain([r], w)
    ensures Plain(Upsert(s, r), w)
  {
    hide Upsert;
    UpsertSorted(s, r);
    assert r in [r];
  }

  lemma {:induction false} PlainOne(i: nat, w: nat)
    ensures Plain([N(i, w)], w) && Sorted([N(i, w)])
  {
  }

  // ---- two files -----------------------------------------------------------------------------------

  /** The first file: 2m records with a gap behind the first. */
  function Evens(m: nat, w: nat): (s: seq<Rec>)
    ensures |s| == 2 * m
  {
    seq(2 * m, i requires 0 <= i < 2 * m => N(2 * i, w))
  }

  /** The second file. */
  function Later(m: nat, w: nat): seq<Rec> {
    [N(4 * m, w), N(4 * m + 2, w)]
  }

  lemma {:induction false} EvensOk(m: nat, w: nat)
    requires m > 0 && 4 * m + 3 <= Pow255(w)
    ensures ChunkOk(Evens(m, w)) && Plain(Evens(m, w), w) && LastKey(Evens(m, w)) == Num(4 * m - 2, w)
  {
    hide Lt;
    hide Num;
    hide Pow255;
    hide Fit;
    var s := Evens(m, w);
    forall i, j | 0 <= i < j < |s|
      ensures Lt(s[i].key, s[j].key)
    {
      NumsRise(2 * i, 2 * j, w);
    }
    assert s[|s| - 1] == N(2 * (2 * m - 1), w);
    PlainFits(s, w);
  }

  lemma {:induction false} TwoSorted(a: Rec, b: Rec, k: Key)
    requires Lt(a.key, b.key)
    ensures Sorted([a, b])
    ensures Lt(k, a.key) ==> AllAbove([a, b], k)
  {
    hide Lt;
    if Lt(k, a.key) {
      LtTransitive(k, a.key, b.key);
    }
  }

  lemma {:induction false} PlainTwo(i: nat, j: nat, w: nat)
    ensures Plain([N(i, w), N(j, w)], w)
  {
    hide Num;
  }

  lemma {:induction false} LaterOk(m: nat, w: nat)
    requires m > 0 && 4 * m + 3 <= Pow255(w)
    ensures ChunkOk(Later(m, w)) && Plain(Later(m, w), w) && LastKey(Later(m, w)) == Num(4 * m + 2, w)
    ensures AllAbove(Later(m, w), Num(4 * m - 2, w))
  {
    hide Lt;
    hide Num;
    hide Pow255;
    hide Fit;
    hide Adds;
    hide Plain;
    hide Sorted;
    hide AllAbove;
    NumsRise(4 * m, 4 * m + 2, w);
    NumsRise(4 * m - 2, 4 * m, w);
    TwoSorted(N(4 * m, w), N(4 * m + 2, w), Num(4 * m - 2, w));
    PlainTwo(4 * m, 4 * m + 2, w);
    PlainFits(Later(m, w), w);
  }

  /** The two files are the whole store. */
  ghost predicate Stand(st: Store, m: nat, w: nat) {
    && Inv(st) && st.maxCount == m && st.maxFiles >= 4 && |st.dir| == 2
    && Holds(st, 0, Evens(m, w)) && Holds(st, 1, Later(m, w))
  }

  ghost function NoFiles(m: nat, maxFiles: nat): Store {
    Store([], map[], [], [], m, maxFiles)
  }

  /** Two merges into an empty store write them. */
  lemma {:induction false} BothStand(m: nat, w: nat, maxFiles: nat) returns (st1: Store, st2: Store)
    requires m > 0 && 4 * m + 3 <= Pow255(w) && maxFiles >= 4
    ensures Merge(NoFiles(m, maxFiles), Evens(m, w)) == Done(st1)
    ensures st1.maxCount > 0 && Merge(st1, Later(m, w)) == Done(st2) && Stand(st2, m, w) && st2.maxFiles == maxFiles
  {
    hide Lt;
    hide Merge;
    hide Evens;
    hide Later;
    hide Pow255;
    hide FileRecs;
    hide ChunkOk;
    hide Inv;
    EvensOk(m, w);
    LaterOk(m, w);
    EmptyInv(m, maxFiles);
    EvensSize(m, w);
    st1 := MergeAppends(NoFiles(m, maxFiles), Evens(m, w));
    st2 := MergeAppends(st1, Later(m, w));
    assert st2.dir[0] == st1.dir[0];
  }

  lemma {:induction false} EvensSize(m: nat, w: nat)
    ensures |Evens(m, w)| == 2 * m && |Later(m, w)| == 2
  {
  }

  lemma {:induction false} EmptyInv(m: nat, maxFiles: nat)
    requires m > 0
    ensures Inv(NoFiles(m, maxFiles)) && PastEnd([], Evens(m, 0))
  {
  }

  // ---- the third merge ------------------------------------------------------------------------------

  lemma {:induction false} CutInTwo(run: seq<Rec>, m: nat)
    requires m >= 2 && |run| == 2 * m + 1
    ensures |Chunks(run, m)| == 2 && |Chunks(run, m)[1]| == m + 1
  {
    assert Split(run[m..], m) == [run[m..]];
  }

  lemma {:induction false} EvensTakeOne(m: nat, w: nat)
    requires m >= 2 && 4 * m + 3 <= Pow255(w)
    ensures var run := Upsert(Evens(m, w), N(1, w)); |run| == 2 * m + 1 && Plain(run, w) && Sorted(run)
  {
    hide Lt;
    hide Num;
    hide Pow255;
    hide Upsert;
    EvensOk(m, w);
    PlainOne(1, w);
    var s := Evens(m, w);
    PlainUpsert(s, N(1, w), w);
    UpsertSorted(s, N(1, w));
    NumsRise(0, 1, w);
    NumsRise(1, 2, w);
    LtAsymmetric(Num(1, w), Num(2, w));
    assert s[0] == N(0, w) && s[1] == N(2, w);
    LowerIs(s, Num(1, w), 1);
    LtIrreflexive(Num(1, w));
    assert |Upsert(s, N(1, w))| == |s| + 1 by { UpsertNew(s, N(1, w), 1); }
  }

  lemma {:induction false} UpsertNew(s: seq<Rec>, r: Rec, p: nat)
    requires Lower(s, r.key) == p < |s| && s[p].key != r.key
    ensures |Upsert(s, r)| == |s| + 1
  {
    hide Lower;
  }

  lemma {:induction false} InTwo(dir: seq<MetaNode>, b: Key, g: Key)
    requires EndsRise(dir) && |dir| == 2 && Lt(b, dir[0].end) && Lt(dir[0].end, g) && Lt(g, dir[1].end)
    ensures Search(dir, b) == 0 && Search(dir, g) == 1 && Lt(b, g) && Lt(b, dir[1].end)
  {
    hide Lt;
    hide Search;
    hide EndsRise;
    LtTransitive(b, dir[0].end, g);
    LtTransitive(b, g, dir[1].end);
    SearchIs(dir, b, 0);
    SearchIs(dir, g, 1);
  }

  lemma {:induction false} EndsOfTwo(st: Store, m: nat, w: nat)
    requires Stand(st, m, w) && m > 0 && 4 * m + 3 <= Pow255(w)
    ensures EndsRise(st.dir)
    ensures st.dir[0].end == Num(4 * m - 2, w) && st.dir[1].end == Num(4 * m + 2, w)
  {
    hide Lt;
    hide Num;
    hide Pow255;
    hide Inv;
    hide FileRecs;
    hide Evens;
    hide Later;
    hide ChunkOk;
    hide Plain;
    hide EndsRise;
    hide AllAbove;
    EvensOk(m, w);
    LaterOk(m, w);
    InvEnds(st);
  }

  /** The places of the keys. */
  lemma {:induction false} Places(st: Store, m: nat, w: nat)
    requires Stand(st, m, w) && m >= 2 && 4 * m + 3 <= Pow255(w)
    ensures st.dir[0].end == Num(4 * m - 2, w) && st.dir[1].end == Num(4 * m + 2, w)
    ensures Search(st.dir, Num(1, w)) == 0 && Search(st.dir, Num(4 * m + 1, w)) == 1
    ensures Lt(Num(1, w), st.dir[0].end) && Lt(Num(1, w), st.dir[1].end)
    ensures Sorted([N(1, w), N(4 * m + 1, w)])
  {
    hide Lt;
    hide Num;
    hide Pow255;
    hide Inv;
    hide Holds;
    hide EndsRise;
    hide Search;
    hide Sorted;
    EndsOfTwo(st, m, w);
    NumsRise(1, 4 * m - 2, w);
    NumsRise(4 * m - 2, 4 * m + 1, w);
    NumsRise(4 * m + 1, 4 * m + 2, w);
    InTwo(st.dir, Num(1, w), Num(4 * m + 1, w));
    TwoSorted(N(1, w), N(4 * m + 1, w), []);
  }

  lemma {:induction false} OnlyGroup(dir: seq<MetaNode>, r: Rec)
    requires |dir| == 2 && Lt(r.key, dir[0].end) && Lt(r.key, dir[1].end)
    ensures Group(dir, [r], 0) == [r] && Group(dir, [r], 1) == []
    ensures GroupEnd(dir, [r], 0) == 1 && AllRoute(dir, [r])
  {
    hide Lt;
    LtAsymmetric(r.key, dir[0].end);
    LtAsymmetric(r.key, dir[1].end);
  }

  lemma {:induction false} RebuiltIs(st: Store, m: nat, w: nat)
    requires Stand(st, m, w) && m >= 2 && 4 * m + 3 <= Pow255(w)
    ensures Group(st.dir, [N(1, w)], 0) == [N(1, w)] && Group(st.dir, [N(1, w)], 1) == []
    ensures GroupEnd(st.dir, [N(1, w)], 0) == 1 && AllRoute(st.dir, [N(1, w)])
    ensures Rebuilt(st, [N(1, w)], 0) == Upsert(Evens(m, w), N(1, w))
  {
    hide Lt;
    hide Num;
    hide Pow255;
    hide Inv;
    hide FileRecs;
    hide Evens;
    hide Upsert;
    hide Group;
    hide GroupEnd;
    hide AllRoute;
    Places(st, m, w);
    OnlyGroup(st.dir, N(1, w));
    EvensOk(m, w);
    PlainFits(Evens(m, w), w);
    UpsertOne(Evens(m, w), N(1, w));
  }

  lemma {:induction false} HeadWalks(st: Store, m: nat, w: nat)
    requires Stand(st, m, w) && m >= 2 && 4 * m + 3 <= Pow255(w)
    ensures st.maxCount > 0
    ensures Walkable(st, [N(1, w)]) && ChunksHaveAddsFrom(st, [N(1, w)], 0) && |Parts(st, [N(1, w)], 0)| == 2
    ensures Plain(Parts(st, [N(1, w)], 0)[1], w) && |Parts(st, [N(1, w)], 0)[1]| == m + 1
  {
    hide Lt;
    hide Num;
    hide Pow255;
    hide Inv;
    hide FileRecs;
    hide Evens;
    hide Later;
    hide Upsert;
    hide Group;
    hide Rebuilt;
    hide Chunks;
    hide ChunksFit;
    hide AllHaveAdds;
    hide Plain;
    hide Sorted;
    hide AllRoute;
    RebuiltIs(st, m, w);
    EvensTakeOne(m, w);
    var run := Upsert(Evens(m, w), N(1, w));
    PlainChunks(run, w, m);
    CutInTwo(run, m);
    PlainOne(1, w);
  }

  lemma {:induction false} LandingHasRoom(st: Store, m: nat, w: nat)
    requires Stand(st, m, w) && m >= 2 && 4 * m + 3 <= Pow255(w)
    ensures st.maxCount > 0 && LandingFits(st, [N(1, w)], N(4 * m + 1, w), 0, 1)
  {
    hide Lt;
    hide Num;
    hide Pow255;
    hide Inv;
    hide FileRecs;
    hide Evens;
    hide Later;
    hide Upsert;
    hide Plain;
    hide Parts;
    hide Chunks;
    hide ChunksFit;
    hide Adds;
    HeadWalks(st, m, w);
    EvensTakeOne(m, w);
    RebuiltIs(st, m, w);
    var part, g := Parts(st, [N(1, w)], 0)[1], N(4 * m + 1, w);
    PlainFits(part, w);
    PartSorted(st, m, w);
    PlainOne(4 * m + 1, w);
    PlainUpsert(part, g, w);
    UpsertSorted(part, g);
    PlainChunks(Upsert(part, g), w, m);
  }

  lemma {:induction false} PartSorted(st: Store, m: nat, w: nat)
    requires Stand(st, m, w) && m >= 2 && 4 * m + 3 <= Pow255(w)
    ensures st.maxCount > 0 && |Parts(st, [N(1, w)], 0)| == 2 && Sorted(Parts(st, [N(1, w)], 0)[1])
  {
    hide Lt;
    hide Num;
    hide Pow255;
    hide Inv;
    hide FileRecs;
    hide Evens;
    hide Later;
    hide Upsert;
    hide Plain;
    hide Chunks;
    hide Rebuilt;
    EvensTakeOne(m, w);
    RebuiltIs(st, m, w);
    HeadWalks(st, m, w);
    var run := Rebuilt(st, [N(1, w)], 0);
    ChunksConserve(run, m);
    SecondSorted(Chunks(run, m));
  }

  lemma {:induction false} SecondSorted(chunks: seq<seq<Rec>>)
    requires |chunks| == 2 && Sorted(Concat(chunks))
    ensures Sorted(chunks[1])
  {
    hide Lt;
    FirstAndRest(chunks);
    FirstAndRest(chunks[1..]);
    assert Concat(chunks[1..][1..]) == [];
    var s := Concat(chunks);
    assert forall j :: 0 <= j < |chunks[1]| ==> s[|chunks[0]| + j] == chunks[1][j];
  }

  /** For every size of a chunk from 2 on: three merges from an empty store, of lists the code takes,
      after which a key that the first two stored and the third never mentions is not found again. */
  lemma {:induction false} SplitHidesKey(m: nat, w: nat, maxFiles: nat) returns (st1: Store, st2: Store)
    requires m >= 2 && 4 * m + 3 <= Pow255(w) && maxFiles >= 4
    ensures Merge(NoFiles(m, maxFiles), Evens(m, w)) == Done(st1)
    ensures st1.maxCount > 0 && Merge(st1, Later(m, w)) == Done(st2)
    ensures st2.maxCount == m && st2.maxFiles == maxFiles && Inv(st2)
    ensures var list := [N(1, w), N(4 * m + 1, w)];
            && Sorted(list) && Merge(st2, list).Done? && !MergesRight(st2, list)
            && GetOff(st2, Num(4 * m, w)) == 4 && GetOff(Merge(st2, list).store, Num(4 * m, w)) == 0
  {
    hide Lt;
    hide Num;
    hide Pow255;
    hide Inv;
    hide Holds;
    hide Evens;
    hide Later;
    hide Merge;
    hide Search;
    hide GetOff;
    hide MergesRight;
    hide Sorted;
    st1, st2 := BothStand(m, w, maxFiles);
    Places(st2, m, w);
    ThirdMerge(st2, m, w);
  }

  lemma {:induction false} ThirdMerge(st: Store, m: nat, w: nat)
    requires Stand(st, m, w) && m >= 2 && 4 * m + 3 <= Pow255(w)
    ensures st.maxCount > 0
    ensures var list := [N(1, w), N(4 * m + 1, w)];
            && Merge(st, list).Done? && !MergesRight(st, list)
            && GetOff(st, Num(4 * m, w)) == 4 && GetOff(Merge(st, list).store, Num(4 * m, w)) == 0
  {
    hide Lt;
    hide Num;
    hide Pow255;
    hide Inv;
    hide FileRecs;
    hide Evens;
    hide Later;
    hide Merge;
    hide Walkable;
    hide Search;
    hide Parts;
    hide LandingFits;
    hide ChunksHaveAddsFrom;
    hide GetOff;
    hide MergesRight;
    hide Sorted;
    hide Adds;
    hide AllAbove;
    HeadWalks(st, m, w);
    LandingHasRoom(st, m, w);
    Places(st, m, w);
    SecondHolds(st, m, w);
    var head, g, e := [N(1, w)], N(4 * m + 1, w), N(4 * m, w);
    assert head + [g] == [N(1, w), g];
    NumsRise(4 * m, 4 * m + 1, w);
    NumsRise(4 * m + 1, 4 * m + 2, w);
    CutHidesKey(st, head, g, 0, 1, e);
    CutMergeIff(st, head, g, 0, 1);
    NotAbove(FileRecs(st.files, st.dir[1]), g.key, e);
  }

  lemma {:induction false} SecondHolds(st: Store, m: nat, w: nat)
    requires Stand(st, m, w) && m > 0 && 4 * m + 3 <= Pow255(w)
    ensures N(4 * m, w) in FileRecs(st.files, st.dir[1])
  {
    hide Lt;
    hide Num;
    hide Pow255;
    hide Inv;
    hide FileRecs;
    hide Evens;
    LaterOk(m, w);
    PlainFits(Later(m, w), w);
    assert Later(m, w)[0] == N(4 * m, w);
  }

  lemma {:induction false} NotAbove(s: seq<Rec>, k: Key, e: Rec)
    requires e in s && Lt(e.key, k)
    ensures !AllAbove(s, k)
  {
    hide Lt;
    LtAsymmetric(e.key, k);
  }

  const SILOPIT_MAX_COUNT := 65536

  lemma {:induction false} ThreeBytesAreEnough()
    ensures 4 * SILOPIT_MAX_COUNT + 3 <= Pow255(3)
  {
    assert Pow255(2) == 255 * 255;
  }

  /** At the size the program has, with keys of three bytes. */
  lemma {:induction false} ProgramHidesKey(maxFiles: nat) returns (st: Store, list: seq<Rec>, key: Key)
    requires maxFiles >= 4
    ensures Inv(st) && st.maxCount == SILOPIT_MAX_COUNT && st.maxFiles == maxFiles
    ensures |list| == 2 && Sorted(list) && forall r :: r in list ==> r.key != key && IsCString(r.key) && IsCString(key)
    ensures GetOff(st, key) == 4 && Merge(st, list).Done? && GetOff(Merge(st, list).store, key) == 0
  {
    hide Lt;
    hide Num;
    hide Pow255;
    hide Inv;
    hide Evens;
    hide Later;
    hide Merge;
    hide GetOff;
    hide MergesRight;
    hide Sorted;
    ThreeBytesAreEnough();
    var m := SILOPIT_MAX_COUNT;
    var st1, st2 := SplitHidesKey(m, 3, maxFiles);
    list, key, st := [N(1, 3), N(4 * m + 1, 3)], Num(4 * m, 3), st2;
    NumsRise(1, 4 * m, 3);
    NumsRise(4 * m, 4 * m + 1, 3);
    LtIrreflexive(key);
  }
}
