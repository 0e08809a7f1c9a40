// A directory that is out of order around a key, and stays so whatever larger keys are merged in.
module Damages {
  import opened Keys
  import opened Records
  import opened Merging
  import opened Images
  import opened Metas
  import opened Stores
  import opened StoreLaws
  import opened FlushLaws
  import opened MergeLaws
  import opened RestartLaws
  import opened StaleIndex
  import opened LostTails
  import opened LooseStores
  import opened Strides

  /** File j has keys, and none below x. */
  ghost predicate NotBelow(st: Store, j: nat, x: Key)
    requires j < |st.dir|
  {
    var s := FileRecs(st.files, st.dir[j]); s != [] && forall i :: 0 <= i < |s| ==> Le(x, s[i].key)
  }

  /** The record x is the first of file j. */
  ghost predicate StartsFile(st: Store, j: nat, x: Rec)
    requires j < |st.dir|
  {
    x in FileRecs(st.files, st.dir[j]) && NotBelow(st, j, x.key)
  }

  /** A file without keys below x stands in front of the one that x starts. */
  ghost predicate Crossed(st: Store, x: Rec, u: nat, v: nat) {
    u < v < |st.dir| && NotBelow(st, u, x.key) && StartsFile(st, v, x)
  }

  /** File t ends at x or behind it, in front of the file that x starts; no file from there on has a
      key below x, and no file in front ends behind k. */
  ghost predicate Overhangs(st: Store, x: Rec, t: nat, k: Key) {
    && t + 1 < |st.dir| && Le(x.key, st.dir[t].end) && StartsFile(st, t + 1, x)
    && (forall j :: t < j < |st.dir| ==> NotBelow(st, j, x.key))
    && forall j :: 0 <= j <= t ==> Le(st.dir[j].end, k)
  }

  ghost predicate Damaged(st: Store, x: Rec, t: nat, k: Key) {
    (exists u: nat, v: nat :: Crossed(st, x, u, v)) || Overhangs(st, x, t, k)
  }

  /** With the invariant, keys rise from file to file. */
  lemma {:induction false} FilesInOrder(st: Store, u: nat, v: nat, y: Rec, x: Rec)
    requires Inv(st) && u < v < |st.dir|
    requires y in FileRecs(st.files, st.dir[u]) && x in FileRecs(st.files, st.dir[v])
    ensures Lt(y.key, x.key)
  {
    hide Lt;
    hide FileRecs;
    hide Inv;
    LtIsStrictTotalOrder();
    InvEnds(st);
    FileOf(st, u);
    FileRange(st, v);
    EndsRiseTo(st.dir, u, v - 1);
  }

  /** A record of file v that lies at or below the end of a file in front of it. */
  ghost predicate Misplaced(st: Store, u: nat, v: nat, x: Rec) {
    u < v < |st.dir| && x in FileRecs(st.files, st.dir[v]) && Le(x.key, st.dir[u].end)
  }

  ghost predicate Disordered(st: Store) {
    Loose(st) && exists u: nat, v: nat, x: Rec :: Misplaced(st, u, v, x)
  }

  lemma {:induction false} DisorderedIsNotInv(st: Store)
    requires Disordered(st)
    ensures !Inv(st)
  {
    hide Lt;
    hide FileRecs;
    hide Inv;
    hide Loose;
    LtIsStrictTotalOrder();
    var u: nat, v: nat, x: Rec :| Misplaced(st, u, v, x);
    if Inv(st) {
      InvEnds(st);
      EndsRiseTo(st.dir, u, v - 1);
      FileRange(st, v);
      assert false;
    }
  }

  lemma {:induction false} CrossedDisorders(st: Store, x: Rec, u: nat, v: nat)
    requires Loose(st) && Crossed(st, x, u, v)
    ensures Disordered(st)
  {
    hide Lt;
    hide FileRecs;
    hide Loose;
    LtIsStrictTotalOrder();
    FineFile(st, u);
    var l := FileRecs(st.files, st.dir[u]);
    assert Le(x.key, l[0].key) && Le(l[0].key, st.dir[u].end);
    assert Misplaced(st, u, v, x);
  }

  lemma {:induction false} OverhangDisorders(st: Store, x: Rec, t: nat, k: Key)
    requires Loose(st) && Overhangs(st, x, t, k)
    ensures Disordered(st)
  {
    hide Lt;
    hide FileRecs;
    hide Loose;
    assert Misplaced(st, t, t + 1, x);
  }

  lemma {:induction false} DamagedDisorders(st: Store, x: Rec, t: nat, k: Key)
    requires Loose(st) && Damaged(st, x, t, k)
    ensures Disordered(st)
  {
    hide Loose;
    hide Disordered;
    hide Crossed;
    hide Overhangs;
    if u: nat, v: nat :| Crossed(st, x, u, v) {
      CrossedDisorders(st, x, u, v);
    } else {
      OverhangDisorders(st, x, t, k);
    }
  }

  lemma {:induction false} EndsRiseTo(dir: seq<MetaNode>, i: nat, j: nat)
    requires EndsRise(dir) && i <= j < |dir|
    ensures Le(dir[i].end, dir[j].end)
  {
    hide Lt;
  }

  // ---- a new file ------------------------------------------------------------------------------

  lemma {:induction false} SameNotBelow(a: Store, i: nat, b: Store, j: nat, x: Rec)
    requires i < |a.dir| && j < |b.dir| && FileRecs(b.files, b.dir[j]) == FileRecs(a.files, a.dir[i])
    ensures NotBelow(a, i, x.key) <==> NotBelow(b, j, x.key)
    ensures StartsFile(a, i, x) <==> StartsFile(b, j, x)
  {
    hide Lt;
    hide FileRecs;
  }

  /** Where file j went. */
  ghost function Moved(a: Store, b: Store, p: nat, j: nat): nat {
    if |b.dir| == |a.dir| || j < p then j else j + 1
  }

  lemma {:induction false} GrownMoves(a: Store, b: Store, p: nat, chunk: seq<Rec>, j: nat)
    requires Grown(a, b, p, chunk) && j < |a.dir|
    ensures Moved(a, b, p, j) < |b.dir| && b.dir[Moved(a, b, p, j)] == a.dir[j]
    ensures FileRecs(b.files, b.dir[Moved(a, b, p, j)]) == FileRecs(a.files, a.dir[j])
  {
    hide FileRecs;
    hide Adds;
    var m := Moved(a, b, p, j);
    assert m == j ==> SameFile(a, j, b, j);
    assert m == j + 1 ==> b.dir[m] == a.dir[m - 1];
  }

  lemma {:induction false} CrossedMoves(a: Store, b: Store, p: nat, chunk: seq<Rec>, x: Rec, u: nat, v: nat)
    requires Grown(a, b, p, chunk) && Crossed(a, x, u, v)
    ensures Crossed(b, x, Moved(a, b, p, u), Moved(a, b, p, v))
  {
    hide FileRecs;
    hide Grown;
    hide NotBelow;
    hide StartsFile;
    GrownMoves(a, b, p, chunk, u);
    GrownMoves(a, b, p, chunk, v);
    SameNotBelow(a, u, b, Moved(a, b, p, u), x);
    SameNotBelow(a, v, b, Moved(a, b, p, v), x);
  }

  /** Behind the file that x starts, a new file without keys below x changes nothing. */
  lemma {:induction false} OverhangStays(a: Store, b: Store, p: nat, chunk: seq<Rec>, x: Rec, t: nat, k: Key)
    requires Grown(a, b, p, chunk) && Overhangs(a, x, t, k)
    requires |b.dir| > |a.dir| ==> p > t + 1 && p < |b.dir| && NotBelow(b, p, x.key)
    ensures Overhangs(b, x, t, k)
  {
    hide Lt;
    hide FileRecs;
    hide Grown;
    hide NotBelow;
    hide StartsFile;
    GrownSize(a, b, p, chunk);
    forall j | 0 <= j < |b.dir|
      ensures j <= t ==> Le(b.dir[j].end, k)
      ensures j > t ==> NotBelow(b, j, x.key)
      ensures j == t ==> Le(x.key, b.dir[j].end)
      ensures j == t + 1 ==> StartsFile(b, j, x)
    {
      if |b.dir| == |a.dir| || j < p {
        GrownMoves(a, b, p, chunk, j);
        SameNotBelow(a, j, b, j, x);
      } else if j > p {
        GrownMoves(a, b, p, chunk, j - 1);
        SameNotBelow(a, j - 1, b, j, x);
      }
    }
  }

  /** A chunk without keys below x, entered in front of the file that x starts, crosses it. */
  lemma {:induction false} OverhangGrows(a: Store, b: Store, p: nat, chunk: seq<Rec>, x: Rec, t: nat, k: Key)
    requires Grown(a, b, p, chunk) && Overhangs(a, x, t, k) && ChunkOk(chunk)
    requires forall i :: 0 <= i < |chunk| ==> Le(x.key, chunk[i].key)
    ensures Damaged(b, x, t, k)
  {
    hide Lt;
    hide FileRecs;
    hide Grown;
    hide NotBelow;
    hide StartsFile;
    hide ChunkOk;
    GrownMoves(a, b, p, chunk, t + 1);
    SameNotBelow(a, t + 1, b, Moved(a, b, p, t + 1), x);
    GrownSize(a, b, p, chunk);
    if |b.dir| > |a.dir| {
      NewNotBelow(a, b, p, chunk, x);
    }
    if |b.dir| > |a.dir| && p <= t + 1 {
      assert Crossed(b, x, p, t + 2);
    } else {
      OverhangStays(a, b, p, chunk, x, t, k);
    }
  }

  lemma {:induction false} GrownSize(a: Store, b: Store, p: nat, chunk: seq<Rec>)
    requires Grown(a, b, p, chunk)
    ensures |b.dir| == |a.dir| || |b.dir| == |a.dir| + 1
    ensures p <= |a.dir|
  {
    hide FileRecs;
    hide Adds;
  }

  lemma {:induction false} NewNotBelow(a: Store, b: Store, p: nat, chunk: seq<Rec>, x: Rec)
    requires Grown(a, b, p, chunk) && |b.dir| > |a.dir| && ChunkOk(chunk)
    requires forall i :: 0 <= i < |chunk| ==> Le(x.key, chunk[i].key)
    ensures |b.dir| == |a.dir| + 1 && p < |b.dir| && NotBelow(b, p, x.key)
  {
    hide Lt;
    hide FileRecs;
    hide Adds;
    hide Fit;
    hide Sorted;
    var s := Adds(chunk);
    forall i | 0 <= i < |s|
      ensures Le(x.key, s[i].key)
    {
      assert s[i] in Adds(chunk);
    }
  }

  /** What a row of new files must not have: keys below x, unless the files are crossed already. */
  ghost predicate RowOk(st: Store, chunks: seq<seq<Rec>>, x: Rec) {
    (exists u: nat, v: nat :: Crossed(st, x, u, v)) ||
    forall i :: 0 <= i < |chunks| ==> ChunkNotBelow(chunks[i], x)
  }

  ghost predicate ChunkNotBelow(chunk: seq<Rec>, x: Rec) {
    forall i :: 0 <= i < |chunk| ==> Le(x.key, chunk[i].key)
  }

  ghost predicate ChunksFine(chunks: seq<seq<Rec>>) {
    forall i :: 0 <= i < |chunks| ==> chunks[i] != [] && Sorted(chunks[i]) && Fit(Adds(chunks[i]))
  }

  lemma {:induction false} FirstFine(chunks: seq<seq<Rec>>)
    requires ChunksFine(chunks) && chunks != []
    ensures chunks[0] != [] && (Adds(chunks[0]) != [] ==> ChunkOk(chunks[0])) && ChunksFine(chunks[1..])
  {
    hide Sorted;
    hide Adds;
    hide Fit;
    assert chunks[0] == chunks[0];
    assert forall i :: 0 <= i < |chunks[1..]| ==> chunks[1..][i] == chunks[i + 1];
  }

  lemma {:induction false} NewFileDamaged(st: Store, chunk: seq<Rec>, x: Rec, t: nat, k: Key)
    requires Loose(st) && ChunkOk(chunk) && Damaged(st, x, t, k)
    requires (exists u: nat, v: nat :: Crossed(st, x, u, v)) || ChunkNotBelow(chunk, x)
    ensures var o := Write(st.(name := FileName(|st.dir|)), chunk, true);
            o.Done? ==>
              && Loose(o.store) && Damaged(o.store, x, t, k)
              && ((exists u: nat, v: nat :: Crossed(st, x, u, v)) ==>
                   exists u: nat, v: nat :: Crossed(o.store, x, u, v))
  {
    hide Lt;
    hide Write;
    hide Loose;
    hide Grown;
    hide Crossed;
    hide Overhangs;
    hide ChunkOk;
    hide Search;
    hide FileName;
    NewFileLoose(st, chunk);
    var o := Write(st.(name := FileName(|st.dir|)), chunk, true);
    if o.Done? {
      var p := Search(st.dir, LastKey(chunk));
      if u: nat, v: nat :| Crossed(st, x, u, v) {
        CrossedMoves(st, o.store, p, chunk, x, u, v);
      } else {
        OverhangGrows(st, o.store, p, chunk, x, t, k);
      }
    }
  }

  lemma {:induction false} WriteNewDamaged(st: Store, chunks: seq<seq<Rec>>, x: Rec, t: nat, k: Key)
    requires Loose(st) && ChunksFine(chunks) && Damaged(st, x, t, k) && RowOk(st, chunks, x)
    ensures WriteNew(st, chunks).Done? ==>
              Loose(WriteNew(st, chunks).store) && Damaged(WriteNew(st, chunks).store, x, t, k)
    decreases |chunks|
  {
    hide Lt;
    hide Write;
    hide WriteNew;
    hide Loose;
    hide Crossed;
    hide Overhangs;
    hide ChunkOk;
    hide ChunksFine;
    hide ChunkNotBelow;
    hide Adds;
    hide FileName;
    if chunks == [] {
      NoMoreChunks(st, chunks);
    } else {
      WriteNewUnfolds(st, chunks);
      FirstFine(chunks);
      if Adds(chunks[0]) == [] {
        NoAddsNoWrite(st, chunks[0], true);
      } else {
        assert (exists u: nat, v: nat :: Crossed(st, x, u, v)) || ChunkNotBelow(chunks[0], x);
        NewFileDamaged(st, chunks[0], x, t, k);
        var o := Write(st.(name := FileName(|st.dir|)), chunks[0], true);
        if o.Done? {
          RowGoesOn(st, o.store, chunks, x);
          WriteNewDamaged(o.store, chunks[1..], x, t, k);
        }
      }
    }
  }

  lemma {:induction false} RowGoesOn(a: Store, b: Store, chunks: seq<seq<Rec>>, x: Rec)
    requires RowOk(a, chunks, x) && chunks != []
    requires (exists u: nat, v: nat :: Crossed(a, x, u, v)) ==> exists u: nat, v: nat :: Crossed(b, x, u, v)
    ensures RowOk(b, chunks[1..], x)
  {
    hide Crossed;
    hide ChunkNotBelow;
    assert forall i :: 0 <= i < |chunks[1..]| ==> chunks[1..][i] == chunks[i + 1];
  }

  // ---- a rebuilt file ---------------------------------------------------------------------------

  /** The run in hand is that of file q: what the file holds up to k, and otherwise keys behind k. */
  ghost predicate Opened(st: Store, run: seq<Rec>, q: nat, k: Key) {
    && q < |st.dir| && st.name == st.dir[q].name && run != [] && Sorted(run)
    && (forall r :: r in run ==> r in FileRecs(st.files, st.dir[q]) || Lt(k, r.key))
    && forall r :: r in FileRecs(st.files, st.dir[q]) && Le(r.key, k) ==> r in run
  }

  lemma {:induction false} RunNotBelow(st: Store, run: seq<Rec>, q: nat, k: Key, x: Rec)
    requires Opened(st, run, q, k) && Le(x.key, k) && NotBelow(st, q, x.key)
    ensures ChunkNotBelow(run, x)
    ensures StartsFile(st, q, x) ==> run[0] == x
  {
    hide Lt;
    hide FileRecs;
    LtIsStrictTotalOrder();
    forall i | 0 <= i < |run|
      ensures Le(x.key, run[i].key)
    {
      assert run[i] in run;
    }
    assert forall i :: 0 < i < |run| ==> Lt(run[0].key, run[i].key);
    if StartsFile(st, q, x) {
      assert x in run;
      var i :| 0 <= i < |run| && run[i] == x;
    }
  }

  /** The first chunk of a run keeps where the run starts. */
  lemma {:induction false} FrontKeeps(chunk: seq<Rec>, x: Rec)
    requires ChunkOk(chunk) && ChunkNotBelow(chunk, x)
    ensures Adds(chunk) != [] && forall i :: 0 <= i < |Adds(chunk)| ==> Le(x.key, Adds(chunk)[i].key)
    ensures chunk != [] && (chunk[0] == x && x.opt == ADD ==> x in Adds(chunk))
  {
    hide Lt;
    hide Fit;
    hide Adds;
    hide Sorted;
    forall i | 0 <= i < |Adds(chunk)|
      ensures Le(x.key, Adds(chunk)[i].key)
    {
      assert Adds(chunk)[i] in Adds(chunk);
    }
    assert chunk[0] in chunk;
  }

  lemma {:induction false} StartIsAdd(st: Store, j: nat, x: Rec)
    requires j < |st.dir| && StartsFile(st, j, x)
    ensures x.opt == ADD
  {
    var s := FileRecs(st.files, st.dir[j]);
    var i :| 0 <= i < |s| && s[i] == x;
  }

  /** File q after its first chunk was written over it. */
  lemma {:induction false} OverwrittenStarts(st: Store, run: seq<Rec>, q: nat, k: Key, chunk: seq<Rec>, x: Rec)
    requires Loose(st) && Opened(st, run, q, k) && Le(x.key, k) && NotBelow(st, q, x.key)
    requires ChunkOk(chunk) && chunk <= run
    ensures chunk != []
    ensures var b := Overwritten(st, q, chunk);
            q < |b.dir| && NotBelow(b, q, x.key) && (StartsFile(st, q, x) ==> StartsFile(b, q, x))
  {
    hide Lt;
    hide FileRecs;
    hide Loose;
    hide Overwritten;
    hide ChunkOk;
    hide Opened;
    hide Adds;
    OpenedName(st, run, q, k);
    RunNotBelow(st, run, q, k, x);
    assert ChunkNotBelow(chunk, x);
    OverwriteLoose(st, q, chunk);
    FrontKeeps(chunk, x);
    if StartsFile(st, q, x) {
      StartIsAdd(st, q, x);
    }
  }

  lemma {:induction false} OpenedName(st: Store, run: seq<Rec>, q: nat, k: Key)
    requires Opened(st, run, q, k)
    ensures q < |st.dir| && st.name == st.dir[q].name && run != [] && Sorted(run)
  {
  }

  lemma {:induction false} CrossedKept(st: Store, run: seq<Rec>, q: nat, k: Key, chunk: seq<Rec>, x: Rec, u: nat,
                                       v: nat)
    requires Loose(st) && Opened(st, run, q, k) && Le(x.key, k) && Crossed(st, x, u, v)
    requires ChunkOk(chunk) && chunk <= run && chunk != []
    ensures Crossed(Overwritten(st, q, chunk), x, u, v)
  {
    hide Lt;
    hide FileRecs;
    hide Loose;
    hide Overwritten;
    hide ChunkOk;
    hide Opened;
    hide Adds;
    hide NotBelow;
    OpenedName(st, run, q, k);
    OverwriteLoose(st, q, chunk);
    var b := Overwritten(st, q, chunk);
    if q == u || q == v {
      OverwrittenStarts(st, run, q, k, chunk, x);
    }
    forall j: nat | j < |st.dir| && j != q
      ensures NotBelow(st, j, x.key) ==> NotBelow(b, j, x.key)
      ensures StartsFile(st, j, x) ==> StartsFile(b, j, x)
    {
      assert SameFile(st, j, b, j);
      SameNotBelow(st, j, b, j, x);
    }
  }

  /** All files but q read the same, and q keeps where it starts. */
  lemma {:induction false} OverhangSame(a: Store, b: Store, q: nat, x: Rec, t: nat, k: Key)
    requires Overhangs(a, x, t, k) && t < q < |a.dir| == |b.dir|
    requires forall j :: 0 <= j < |a.dir| && j != q ==> SameFile(a, j, b, j)
    requires NotBelow(b, q, x.key) && (StartsFile(a, q, x) ==> StartsFile(b, q, x))
    ensures Overhangs(b, x, t, k)
  {
    hide Lt;
    hide FileRecs;
    hide NotBelow;
    hide StartsFile;
    forall j: nat | j < |b.dir|
      ensures j > t ==> NotBelow(b, j, x.key)
      ensures j == t + 1 ==> StartsFile(b, j, x)
      ensures j <= t ==> b.dir[j] == a.dir[j]
    {
      if j != q {
        assert SameFile(a, j, b, j);
        SameNotBelow(a, j, b, j, x);
      }
    }
  }

  lemma {:induction false} OverhangKept(st: Store, run: seq<Rec>, q: nat, k: Key, chunk: seq<Rec>, x: Rec, t: nat)
    requires Loose(st) && Opened(st, run, q, k) && Le(x.key, k) && Overhangs(st, x, t, k) && t < q
    requires ChunkOk(chunk) && chunk <= run && chunk != []
    ensures Overhangs(Overwritten(st, q, chunk), x, t, k)
  {
    hide Lt;
    hide FileRecs;
    hide Loose;
    hide Overwritten;
    hide ChunkOk;
    hide Opened;
    hide Adds;
    hide NotBelow;
    hide StartsFile;
    hide SameFile;
    OpenedName(st, run, q, k);
    OverwriteLoose(st, q, chunk);
    assert NotBelow(st, q, x.key);
    OverwrittenStarts(st, run, q, k, chunk, x);
    OverhangSame(st, Overwritten(st, q, chunk), q, x, t, k);
  }

  // ---- a flush, and the walk -----------------------------------------------------------------------

  /** The damage is out of reach of the run in hand. */
  ghost predicate Hurt(st: Store, q: nat, x: Rec, t: nat, k: Key) {
    (exists u: nat, v: nat :: Crossed(st, x, u, v)) || (Overhangs(st, x, t, k) && t < q)
  }

  lemma {:induction false} RunParts(run: seq<Rec>, m: nat)
    requires m > 0 && run != [] && Sorted(run) && ChunksFit(Chunks(run, m))
    ensures var chunks := Chunks(run, m);
            && chunks[0] != [] && chunks[0] <= run && (Adds(chunks[0]) != [] ==> ChunkOk(chunks[0]))
            && ChunksFine(chunks) && ChunksFine(chunks[1..])
            && forall i, r :: 0 <= i < |chunks| && r in chunks[i] ==> r in run
  {
    hide Lt;
    hide Chunks;
    hide Concat;
    hide Sorted;
    hide Adds;
    hide Fit;
    ChunksConserve(run, m);
    var chunks := Chunks(run, m);
    FirstAndRest(chunks);
    forall i | 0 <= i < |chunks|
      ensures chunks[i] != [] && Sorted(chunks[i]) && forall r :: r in chunks[i] ==> r in run
    {
      PartSortedIn(chunks, i);
      forall r | r in chunks[i]
        ensures r in run
      {
        PartIn(chunks, i, r);
      }
    }
    FirstFine(chunks);
  }

  lemma {:induction false} FlushHurts(st: Store, run: seq<Rec>, q: nat, x: Rec, t: nat, k: Key)
    requires Loose(st) && Opened(st, run, q, k) && Le(x.key, k) && Hurt(st, q, x, t, k)
    ensures st.maxCount > 0
    ensures ChunksFit(Chunks(run, st.maxCount)) && FlushMerge(st, run).Done? ==>
              var b := FlushMerge(st, run).store;
              && Loose(b) && Damaged(b, x, t, k)
              && ((exists u: nat, v: nat :: Crossed(b, x, u, v)) || Overhangs(st, x, t, k))
  {
    hide Lt;
    hide FileRecs;
    hide Write;
    hide WriteNew;
    hide FlushMerge;
    hide Loose;
    hide Crossed;
    hide Overhangs;
    hide Overwritten;
    hide ChunkOk;
    hide ChunksFine;
    hide ChunksFit;
    hide ChunkNotBelow;
    hide Chunks;
    hide Opened;
    hide Adds;
    hide Sorted;
    LooseParts(st);
    OpenedName(st, run, q, k);
    var chunks := Chunks(run, st.maxCount);
    if ChunksFit(chunks) && FlushMerge(st, run).Done? {
      RunParts(run, st.maxCount);
      FlushMergeUnfolds(st, run);
      if Adds(chunks[0]) == [] {
        NoAddsNoWrite(st, chunks[0], false);
      } else {
        OverwriteLoose(st, q, chunks[0]);
        var s := Overwritten(st, q, chunks[0]);
        if u: nat, v: nat :| Crossed(st, x, u, v) {
          CrossedKept(st, run, q, k, chunks[0], x, u, v);
          RowOfCrossed(s, chunks[1..], x, u, v);
          WriteNewCrossed(s, chunks[1..], x, u, v);
        } else {
          OverhangKept(st, run, q, k, chunks[0], x, t);
          RowNotBelow(st, s, run, q, k, chunks, x, t);
        }
        WriteNewDamaged(s, chunks[1..], x, t, k);
      }
    }
  }

  lemma {:induction false} RowOfCrossed(st: Store, chunks: seq<seq<Rec>>, x: Rec, u: nat, v: nat)
    requires Crossed(st, x, u, v)
    ensures RowOk(st, chunks, x)
  {
    hide Crossed;
    hide ChunkNotBelow;
  }

  lemma {:induction false} RowNotBelow(a: Store, s: Store, run: seq<Rec>, q: nat, k: Key, chunks: seq<seq<Rec>>,
                                       x: Rec, t: nat)
    requires Opened(a, run, q, k) && Le(x.key, k) && Overhangs(a, x, t, k) && t < q && chunks != []
    requires forall i, r :: 0 <= i < |chunks| && r in chunks[i] ==> r in run
    ensures RowOk(s, chunks[1..], x)
  {
    hide Lt;
    hide FileRecs;
    hide NotBelow;
    hide StartsFile;
    hide Crossed;
    OpenedName(a, run, q, k);
    hide Opened;
    RunNotBelow(a, run, q, k, x);
    forall i | 0 <= i < |chunks[1..]|
      ensures ChunkNotBelow(chunks[1..][i], x)
    {
      var c := chunks[i + 1];
      forall j | 0 <= j < |c|
        ensures Le(x.key, c[j].key)
      {
        assert c[j] in c;
        assert c[j] in run;
      }
    }
  }

  /** Crossed files stay crossed. */
  lemma {:induction false} WriteNewCrossed(st: Store, chunks: seq<seq<Rec>>, x: Rec, u: nat, v: nat)
    requires Loose(st) && ChunksFine(chunks) && Crossed(st, x, u, v)
    ensures WriteNew(st, chunks).Done? ==> exists u: nat, v: nat :: Crossed(WriteNew(st, chunks).store, x, u, v)
    decreases |chunks|
  {
    hide Lt;
    hide Write;
    hide WriteNew;
    hide Loose;
    hide Crossed;
    hide Grown;
    hide ChunkOk;
    hide ChunksFine;
    hide Adds;
    hide Search;
    hide FileName;
    if chunks == [] {
      NoMoreChunks(st, chunks);
    } else {
      WriteNewUnfolds(st, chunks);
      FirstFine(chunks);
      if Adds(chunks[0]) == [] {
        NoAddsNoWrite(st, chunks[0], true);
      } else {
        NewFileLoose(st, chunks[0]);
        var o := Write(st.(name := FileName(|st.dir|)), chunks[0], true);
        if o.Done? {
          var p := Search(st.dir, LastKey(chunks[0]));
          CrossedMoves(st, o.store, p, chunks[0], x, u, v);
          WriteNewCrossed(o.store, chunks[1..], x, Moved(st, o.store, p, u), Moved(st, o.store, p, v));
        }
      }
    }
  }

  // ---- the walk over larger keys ---------------------------------------------------------------------

  lemma {:induction false} OpenedOn(st: Store, run: seq<Rec>, q: nat, k: Key, cur: Rec)
    requires Opened(st, run, q, k) && Lt(k, cur.key)
    ensures Opened(st, Upsert(run, cur), q, k)
  {
    hide Lt;
    hide FileRecs;
    hide Upsert;
    UpsertSorted(run, cur);
    LtIsStrictTotalOrder();
    assert cur in Upsert(run, cur);
  }

  lemma {:induction false} OpenedAcross(st: Store, p: nat, k: Key, cur: Rec)
    requires Loose(st) && p < |st.dir| && st.name == st.dir[p].name && Lt(k, cur.key)
    ensures Load(st, st.name).Some? && Opened(st, Upsert(Load(st, st.name).value, cur), p, k)
  {
    hide Lt;
    hide FileRecs;
    hide Upsert;
    hide Loose;
    hide Load;
    LoadFine(st, p);
    OpenedOn(st, FileRecs(st.files, st.dir[p]), p, k, cur);
  }

  lemma {:induction false} DamagedRenamed(st: Store, name: Name, x: Rec, t: nat, k: Key)
    requires Damaged(st, x, t, k)
    ensures Damaged(st.(name := name), x, t, k)
    ensures forall u: nat, v: nat :: Crossed(st, x, u, v) ==> Crossed(st.(name := name), x, u, v)
  {
    hide Lt;
    hide FileRecs;
    hide NotBelow;
    hide StartsFile;
    var b := st.(name := name);
    forall j: nat | j < |st.dir|
      ensures NotBelow(st, j, x.key) <==> NotBelow(b, j, x.key)
      ensures StartsFile(st, j, x) <==> StartsFile(b, j, x)
    {
      SameNotBelow(st, j, b, j, x);
    }
    if u: nat, v: nat :| Crossed(st, x, u, v) {
      assert Crossed(b, x, u, v);
    }
  }

  /** A key behind k goes behind the overhang. */
  lemma {:induction false} GoesBehind(st: Store, x: Rec, t: nat, k: Key, key: Key)
    requires Overhangs(st, x, t, k) && Lt(k, key)
    ensures Search(st.dir, key) > t
  {
    hide Lt;
    hide Search;
    hide FileRecs;
    LtIsStrictTotalOrder();
    SearchBounds(st.dir, key, t + 1);
  }

  lemma {:induction false} SamePlace(st: Store, q: nat, i: nat)
    requires Loose(st) && q < |st.dir| && i < |st.dir| && st.dir[q].name == st.dir[i].name
    ensures q == i
  {
    hide FileFine;
    LooseParts(st);
  }

  lemma {:induction false} StrideHurts(st: Store, run: seq<Rec>, q: nat, x: Rec, t: nat, k: Key, cur: Rec)
    returns (q': nat)
    requires Loose(st) && Opened(st, run, q, k) && Le(x.key, k) && Hurt(st, q, x, t, k)
    requires Lt(k, cur.key) && st.maxCount > 0 && Search(st.dir, cur.key) < |st.dir|
    requires st.name == st.dir[Search(st.dir, cur.key)].name || ChunksFit(Chunks(run, st.maxCount))
    ensures match StrideOf(st, run, cur)
            case Halt(_) => true
            case Go(st', run') => Loose(st') && Opened(st', run', q', k) && Hurt(st', q', x, t, k)
  {
    hide Lt;
    hide FileRecs;
    hide FlushMerge;
    hide Loose;
    hide Crossed;
    hide Overhangs;
    hide ChunksFit;
    hide Chunks;
    hide Opened;
    hide Upsert;
    hide Search;
    hide Load;
    q' := Search(st.dir, cur.key);
    OpenedName(st, run, q, k);
    LimitsStay(st, Some(run));
    if st.name == st.dir[q'].name {
      SamePlace(st, q, q');
      OpenedOn(st, run, q, k, cur);
    } else if FlushMerge(st, run).Done? {
      FlushHurts(st, run, q, x, t, k);
      var s := FlushMerge(st, run).store;
      var st' := s.(name := s.dir[q'].name);
      DamagedRenamed(s, s.dir[q'].name, x, t, k);
      LooseRenamed(s, s.dir[q'].name);
      OpenedAcross(st', q', k, cur);
      if Overhangs(st, x, t, k) {
        GoesBehind(st, x, t, k, cur.key);
      }
    }
  }

  /** Every key from pos on lies behind k. */
  ghost predicate LeftBehind(list: seq<Rec>, pos: nat, k: Key) {
    pos <= |list| && Sorted(list) && forall j :: pos <= j < |list| ==> Lt(k, list[j].key)
  }

  lemma {:induction false} WalkEndsHurt(st: Store, run: seq<Rec>, q: nat, x: Rec, t: nat, k: Key, list: seq<Rec>)
    requires Loose(st) && Opened(st, run, q, k) && Le(x.key, k) && Hurt(st, q, x, t, k) && st.maxCount > 0
    requires WalkFits(st, Some(run), list, |list|)
    ensures Walk(st, Some(run), list, |list|).Done? ==> Disordered(Walk(st, Some(run), list, |list|).store)
  {
    hide Loose;
    hide Opened;
    hide Damaged;
    hide Hurt;
    hide FlushMerge;
    hide Chunks;
    hide ChunksFit;
    hide Crossed;
    hide Overhangs;
    hide Disordered;
    WalkEndsAt(st, run, list);
    FlushHurts(st, run, q, x, t, k);
    if FlushMerge(st, run).Done? {
      DamagedDisorders(FlushMerge(st, run).store, x, t, k);
    }
  }

  lemma {:induction false} NewFileDisordered(st: Store, chunk: seq<Rec>)
    requires Disordered(st) && ChunkOk(chunk) && chunk != []
    ensures var o := Write(st.(name := FileName(|st.dir|)), chunk, true);
            o.Done? ==> Disordered(o.store)
  {
    hide Lt;
    hide FileRecs;
    hide Loose;
    hide Search;
    hide Write;
    hide FileName;
    hide ChunkOk;
    hide Grown;
    var u: nat, v: nat, x: Rec :| Misplaced(st, u, v, x);
    NewFileLoose(st, chunk);
    var o := Write(st.(name := FileName(|st.dir|)), chunk, true);
    if o.Done? {
      var p := Search(st.dir, LastKey(chunk));
      GrownMoves(st, o.store, p, chunk, u);
      GrownMoves(st, o.store, p, chunk, v);
      assert Misplaced(o.store, Moved(st, o.store, p, u), Moved(st, o.store, p, v), x);
    }
  }

  /** New files do not mend the order of the others. */
  lemma {:induction false} WriteNewDisordered(st: Store, chunks: seq<seq<Rec>>)
    requires Disordered(st) && ChunksFine(chunks)
    ensures WriteNew(st, chunks).Done? ==> Disordered(WriteNew(st, chunks).store)
    decreases |chunks|
  {
    hide Lt;
    hide Write;
    hide WriteNew;
    hide Disordered;
    hide ChunkOk;
    hide ChunksFine;
    hide Adds;
    hide FileName;
    if chunks == [] {
      NoMoreChunks(st, chunks);
    } else {
      WriteNewUnfolds(st, chunks);
      FirstFine(chunks);
      if Adds(chunks[0]) == [] {
        NoAddsNoWrite(st, chunks[0], true);
      } else {
        ChunkIsThere(chunks[0]);
        NewFileDisordered(st, chunks[0]);
        var o := Write(st.(name := FileName(|st.dir|)), chunks[0], true);
        if o.Done? {
          WriteNewDisordered(o.store, chunks[1..]);
        }
      }
    }
  }

  lemma {:induction false} FlushNewDisordered(st: Store, run: seq<Rec>)
    requires Disordered(st) && run != [] && Sorted(run) && st.maxCount > 0 && ChunksFit(Chunks(run, st.maxCount))
    ensures FlushNew(st, run).Done? ==> Disordered(FlushNew(st, run).store)
  {
    hide Disordered;
    hide WriteNew;
    hide Chunks;
    hide ChunksFit;
    hide ChunksFine;
    hide Adds;
    hide Sorted;
    RunParts(run, st.maxCount);
    WriteNewDisordered(st, Chunks(run, st.maxCount));
  }

  /** The restart does not help either. */
  lemma {:induction false} RestartHurts(st: Store, run: seq<Rec>, q: nat, x: Rec, t: nat, k: Key, list: seq<Rec>,
                                        pos: nat)
    requires Loose(st) && Opened(st, run, q, k) && Le(x.key, k) && Hurt(st, q, x, t, k) && st.maxCount > 0
    requires Sorted(list) && pos < |list| && Search(st.dir, list[pos].key) == |st.dir|
    requires WalkFits(st, Some(run), list, pos)
    ensures Walk(st, Some(run), list, pos).Done? ==> Disordered(Walk(st, Some(run), list, pos).store)
  {
    hide Lt;
    hide Loose;
    hide Opened;
    hide Damaged;
    hide Disordered;
    hide Hurt;
    hide FlushMerge;
    hide FlushNew;
    hide Chunks;
    hide ChunksFit;
    hide Crossed;
    hide Overhangs;
    hide Search;
    hide Sorted;
    LimitsStay(st, Some(run));
    FlushHurts(st, run, q, x, t, k);
    var o := FlushMerge(st, run);
    if o.Done? {
      DamagedDisorders(o.store, x, t, k);
      var part := list[..|list| - pos];
      assert list == part + list[|list| - pos..];
      SortedParts(part, list[|list| - pos..]);
      FlushNewDisordered(o.store, part);
    }
  }

  /** Whatever keys behind k follow, the directory is out of order in the end. */
  lemma {:induction false} DamageStays(st: Store, run: seq<Rec>, q: nat, x: Rec, t: nat, k: Key, list: seq<Rec>,
                                       pos: nat)
    requires Loose(st) && Opened(st, run, q, k) && Le(x.key, k) && Hurt(st, q, x, t, k) && st.maxCount > 0
    requires LeftBehind(list, pos, k) && pos <= |list| && WalkFits(st, Some(run), list, pos)
    ensures Walk(st, Some(run), list, pos).Done? ==> Disordered(Walk(st, Some(run), list, pos).store)
    decreases |list| - pos
  {
    hide Lt;
    hide Loose;
    hide Opened;
    hide Hurt;
    hide Disordered;
    hide Walk;
    hide WalkFits;
    hide StrideOf;
    hide Search;
    hide Chunks;
    hide ChunksFit;
    hide LeftBehind;
    if pos == |list| {
      WalkEndsHurt(st, run, q, x, t, k, list);
    } else {
      OneLessBehind(list, pos, k);
      if Search(st.dir, list[pos].key) == |st.dir| {
        RestartHurts(st, run, q, x, t, k, list, pos);
      } else {
        FitsStrides(st, run, list, pos);
        WalkStrides(st, run, list, pos);
        var q' := StrideHurts(st, run, q, x, t, k, list[pos]);
        if StrideOf(st, run, list[pos]).Go? {
          var o := StrideOf(st, run, list[pos]);
          DamageStays(o.store, o.run, q', x, t, k, list, pos + 1);
        }
      }
    }
  }

  lemma {:induction false} OneLessBehind(list: seq<Rec>, pos: nat, k: Key)
    requires LeftBehind(list, pos, k) && pos < |list|
    ensures Lt(k, list[pos].key) && LeftBehind(list, pos + 1, k) && Sorted(list)
  {
    hide Lt;
  }
}
