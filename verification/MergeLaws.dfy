// The merge of a whole list: which lists the walk handles, and what it leaves behind.
module MergeLaws {
  import opened Keys
  import opened Records
  import opened Merging
  import opened Codec
  import opened Images
  import opened Metas
  import opened Stores
  import opened StoreLaws
  import opened FlushLaws

  // ---- routing ---------------------------------------------------------------------------

  /** The number of leading records whose key is not above k. */
  function UpTo(list: seq<Rec>, k: Key): (n: nat)
    ensures n <= |list|
    ensures forall j :: 0 <= j < n ==> Le(list[j].key, k)
    ensures n < |list| ==> Lt(k, list[n].key)
  {
    if list == [] || Lt(k, list[0].key) then 0 else
      LtTotal(k, list[0].key);
      1 + UpTo(list[1..], k)
  }

  lemma {:induction false} UpToIs(list: seq<Rec>, k: Key, n: nat)
    requires Sorted(list) && n <= |list|
    requires n > 0 ==> Le(list[n - 1].key, k)
    requires n < |list| ==> Lt(k, list[n].key)
    ensures UpTo(list, k) == n
  {
    hide Lt;
    LtIsStrictTotalOrder();
    var u := UpTo(list, k);
    assert n < |list| ==> forall j :: n < j < |list| ==> Lt(list[n].key, list[j].key);
    assert n > 0 ==> forall j :: 0 <= j < n - 1 ==> Lt(list[j].key, list[n - 1].key);
  }

  /** Where the records for file i begin in the list. */
  ghost function GroupStart(dir: seq<MetaNode>, list: seq<Rec>, i: nat): nat
    requires i <= |dir|
  {
    if i == 0 then 0 else UpTo(list, dir[i - 1].end)
  }

  ghost function GroupEnd(dir: seq<MetaNode>, list: seq<Rec>, i: nat): nat
    requires i < |dir|
  {
    UpTo(list, dir[i].end)
  }

  /** The records of the list that route to file i. */
  ghost function Group(dir: seq<MetaNode>, list: seq<Rec>, i: nat): seq<Rec>
    requires i < |dir|
  {
    var a, b := GroupStart(dir, list, i), GroupEnd(dir, list, i);
    if a <= b then list[a..b] else []
  }

  /** File i with its records merged in, before it is cut and its tombstones are dropped. */
  ghost function Rebuilt(st: Store, list: seq<Rec>, i: nat): seq<Rec>
    requires i < |st.dir|
  {
    UpsertAll(FileRecs(st.files, st.dir[i]), Group(st.dir, list, i))
  }

  /** No key lies behind the last file. */
  ghost predicate AllRoute(dir: seq<MetaNode>, list: seq<Rec>) {
    dir != [] && forall j :: 0 <= j < |list| ==> Le(list[j].key, dir[|dir| - 1].end)
  }

  /** Every key lies behind the last file. */
  ghost predicate PastEnd(dir: seq<MetaNode>, list: seq<Rec>) {
    dir != [] ==> AllAbove(list, dir[|dir| - 1].end)
  }

  /** A rebuilt file is cut only when the list has nothing left for a later file. */
  ghost predicate OnlyLastSplits(st: Store, list: seq<Rec>) {
    forall i :: 0 <= i < |st.dir| && Group(st.dir, list, i) != [] && GroupEnd(st.dir, list, i) < |list| ==>
      |Rebuilt(st, list, i)| <= 2 * st.maxCount
  }

  /** The directory array holds what the merge adds to it. */
  ghost predicate HasRoom(st: Store, list: seq<Rec>)
    requires st.maxCount > 0
  {
    if PastEnd(st.dir, list) then |st.dir| + |Chunks(list, st.maxCount)| < st.maxFiles
    else forall i :: 0 <= i < |st.dir| && Group(st.dir, list, i) != [] ==>
           |st.dir| + |Chunks(Rebuilt(st, list, i), st.maxCount)| <= st.maxFiles
  }

  /** Every chunk the merge writes fits the byte format. */
  ghost predicate WritesFit(st: Store, list: seq<Rec>)
    requires st.maxCount > 0
  {
    if PastEnd(st.dir, list) then ChunksFit(Chunks(list, st.maxCount))
    else forall i :: 0 <= i < |st.dir| && Group(st.dir, list, i) != [] ==>
           ChunksFit(Chunks(Rebuilt(st, list, i), st.maxCount))
  }

  /** From file `from` on, no chunk the merge writes consists of tombstones only. */
  ghost predicate ChunksHaveAddsFrom(st: Store, list: seq<Rec>, from: nat)
    requires st.maxCount > 0
  {
    forall i :: from <= i < |st.dir| && Group(st.dir, list, i) != [] ==>
      AllHaveAdds(Chunks(Rebuilt(st, list, i), st.maxCount))
  }

  ghost predicate EveryChunkHasAdds(st: Store, list: seq<Rec>)
    requires st.maxCount > 0
  {
    if PastEnd(st.dir, list) then AllHaveAdds(Chunks(list, st.maxCount))
    else ChunksHaveAddsFrom(st, list, 0)
  }

  // ---- the store as one sorted run -----------------------------------------------------------

  lemma {:induction false} FileOf(st: Store, i: nat)
    requires Inv(st) && i < |st.dir|
    ensures var s := FileRecs(st.files, st.dir[i]);
            && Sorted(s) && Fit(s)
            && (forall j :: 0 <= j < |s| ==> Le(s[j].key, st.dir[i].end))
            && (i > 0 ==> AllAbove(s, st.dir[i - 1].end))
            && st.dir[i].name in st.files && s == ReadAll(st.files[st.dir[i].name])
  {
    hide Lt;
    hide ReadAll;
    hide EndsRise;
    hide NamesOk;
    hide LsnsOk;
    assert FileOk(st, i);
  }

  lemma {:induction false} FlatPrefix(st: Store, n: nat)
    requires Inv(st) && n <= |st.dir|
    ensures Sorted(Flat(st.dir[..n], st.files))
    ensures n > 0 ==> forall r :: r in Flat(st.dir[..n], st.files) ==> Le(r.key, st.dir[n - 1].end)
  {
    hide Inv;
    hide FileRecs;
    hide Lt;
    hide Flat;
    hide Sorted;
    if n == 0 {
      FlatEmpty(st.files);
      EmptySorted();
    } else {
      LtIsStrictTotalOrder();
      FlatPrefix(st, n - 1);
      FileOf(st, n - 1);
      FlatSnoc(st.dir, n - 1, st.files);
      if n > 1 {
        FileRange(st, n - 1);
      } else {
        FlatEmpty(st.files);
        assert st.dir[..0] == [];
      }
      RecsOfFile(st, n - 1);
      SortedConcat(Flat(st.dir[..n - 1], st.files), FileRecs(st.files, st.dir[n - 1]),
                   if n > 1 then st.dir[n - 2].end else []);
    }
  }

  lemma {:induction false} RecsOfFile(st: Store, i: nat)
    requires Inv(st) && i < |st.dir|
    ensures forall r :: r in FileRecs(st.files, st.dir[i]) ==> Le(r.key, st.dir[i].end)
  {
    hide Inv;
    hide FileRecs;
    hide Lt;
    FileOf(st, i);
  }

  lemma {:induction false} SortedConcat(a: seq<Rec>, b: seq<Rec>, k: Key)
    requires Sorted(a) && Sorted(b)
    requires a != [] ==> (forall r :: r in a ==> Le(r.key, k)) && AllAbove(b, k)
    ensures Sorted(a + b)
  {
    hide Lt;
    LtIsStrictTotalOrder();
    assert forall i :: 0 <= i < |a| ==> a[i] in a;
  }

  lemma {:induction false} FlatSorted(st: Store)
    requires Inv(st)
    ensures Sorted(Flat(st.dir, st.files))
  {
    FlatPrefix(st, |st.dir|);
    assert st.dir[..|st.dir|] == st.dir;
  }

  /** The first c files from n on hold keys above the end of the file before n. */
  lemma {:induction false} FlatSuffix(st: Store, n: nat, c: nat)
    requires Inv(st) && 0 < n && n + c <= |st.dir|
    ensures AllAbove(Flat(st.dir[n..][..c], st.files), st.dir[n - 1].end)
    decreases c
  {
    hide Inv;
    hide FileRecs;
    hide Lt;
    if c == 0 {
      FlatEmpty(st.files);
    } else {
      FlatSuffix(st, n, c - 1);
      FileRange(st, n + c - 1);
      InvEnds(st);
      FlatSnoc(st.dir[n..], c - 1, st.files);
      hide Flat;
      AboveConcat(Flat(st.dir[n..][..c - 1], st.files), FileRecs(st.files, st.dir[n + c - 1]),
                  st.dir[n - 1].end, st.dir[n + c - 2].end);
    }
  }

  lemma {:induction false} InvEnds(st: Store)
    requires Inv(st)
    ensures EndsRise(st.dir) && st.maxCount > 0
  {
  }

  lemma {:induction false} AboveConcat(a: seq<Rec>, b: seq<Rec>, lo: Key, hi: Key)
    requires AllAbove(a, lo) && AllAbove(b, hi) && Le(lo, hi)
    ensures AllAbove(a + b, lo)
  {
    hide Lt;
    LtIsStrictTotalOrder();
  }

  /** Keys in the range of file i fall between the files before and behind it. */
  lemma {:induction false} GroupBetween(st: Store, i: nat, ys: seq<Rec>)
    requires Inv(st) && i < |st.dir| && Within(ys, st.dir, i, st.dir[i].end)
    ensures Between(Flat(st.dir[..i], st.files), ys, Flat(st.dir[i + 1..], st.files))
  {
    hide Inv;
    hide Lt;
    hide Flat;
    LtIsStrictTotalOrder();
    FlatPrefix(st, i);
    FlatSuffix(st, i + 1, |st.dir| - i - 1);
    assert st.dir[i + 1..] == st.dir[i + 1..][..|st.dir| - i - 1];
    assert i == 0 ==> Flat(st.dir[..i], st.files) == [] by { FlatEmpty(st.files); }
    var pre, post := Flat(st.dir[..i], st.files), Flat(st.dir[i + 1..], st.files);
    forall k, j | 0 <= k < |ys| && 0 <= j < |pre|
      ensures Lt(pre[j].key, ys[k].key)
    {
      assert pre[j] in pre;
    }
  }

  /** Replacing file i by its merge with ys merges ys into the whole store. */
  lemma {:induction false} FlatMerged(st: Store, i: nat, ys: seq<Rec>)
    requires Inv(st) && i < |st.dir| && Within(ys, st.dir, i, st.dir[i].end)
    ensures Flat(st.dir[..i], st.files) + Merged(FileRecs(st.files, st.dir[i]), ys) + Flat(st.dir[i + 1..], st.files)
         == Merged(Flat(st.dir, st.files), ys)
  {
    GroupBetween(st, i, ys);
    FlatAround(st.dir, i, st.files);
    MergedLocal(Flat(st.dir[..i], st.files), FileRecs(st.files, st.dir[i]), Flat(st.dir[i + 1..], st.files), ys);
  }

  // ---- the walk --------------------------------------------------------------------------------

  /** A list the walk handles: it routes to existing files only, splits at most its last file,
      and what it writes has room and fits the byte format. */
  ghost predicate Walkable(st: Store, list: seq<Rec>) {
    && Inv(st) && Sorted(list)
    && AllRoute(st.dir, list) && OnlyLastSplits(st, list)
    && forall i :: 0 <= i < |st.dir| && Group(st.dir, list, i) != [] ==>
         && |st.dir| + |Chunks(Rebuilt(st, list, i), st.maxCount)| <= st.maxFiles
         && ChunksFit(Chunks(Rebuilt(st, list, i), st.maxCount))
  }

  /** The walk has flushed the records before g and collected list[g..pos] for file i. */
  ghost predicate Progress(st0: Store, st: Store, list: seq<Rec>, i: nat, g: nat, pos: nat) {
    && Inv(st)
    && st.maxCount == st0.maxCount && st.maxFiles == st0.maxFiles
    && i < |st.dir| == |st0.dir| && st.name == st.dir[i].name
    && (forall j :: i <= j < |st.dir| ==> st.dir[j] == st0.dir[j])
    && (forall j :: i <= j < |st.dir| ==> FileRecs(st.files, st.dir[j]) == FileRecs(st0.files, st0.dir[j]))
    && (i > 0 ==> Le(st.dir[i - 1].end, st0.dir[i - 1].end))
    && g == GroupStart(st0.dir, list, i) && g < pos <= GroupEnd(st0.dir, list, i)
    && Flat(st.dir, st.files) == Merged(Flat(st0.dir, st0.files), list[..g])
  }

  lemma {:induction false} GroupWithin(st0: Store, st: Store, list: seq<Rec>, i: nat, g: nat, pos: nat)
    requires Sorted(list) && Inv(st0) && Progress(st0, st, list, i, g, pos)
    ensures Within(list[g..pos], st.dir, i, st.dir[i].end)
  {
    hide Lt;
    hide Flat;
    hide FileRecs;
    hide FileOk;
    hide EndsRise;
    hide NamesOk;
    hide LsnsOk;
    hide FilesOk;
    hide Merged;
    var run := list[g..pos];
    forall j | 0 <= j < |run|
      ensures Le(run[j].key, st.dir[i].end) && (i > 0 ==> Lt(st.dir[i - 1].end, run[j].key))
    {
      assert run[j] == list[g + j];
      if i > 0 {
        if j > 0 {
          LtTransitive(st0.dir[i - 1].end, list[g].key, list[g + j].key);
        }
        if st.dir[i - 1].end != st0.dir[i - 1].end {
          LtTransitive(st.dir[i - 1].end, st0.dir[i - 1].end, list[g + j].key);
        }
      }
    }
  }

  lemma {:induction false} WithinUpsertAll(s: seq<Rec>, ys: seq<Rec>, dir: seq<MetaNode>, i: nat, hi: Key)
    requires Sorted(s) && Within(s, dir, i, hi) && Within(ys, dir, i, hi)
    ensures Within(UpsertAll(s, ys), dir, i, hi)
  {
    hide Lt;
    UpsertAllSorted(s, ys);
    var u := UpsertAll(s, ys);
    forall j | 0 <= j < |u|
      ensures Le(u[j].key, hi) && (0 < i <= |dir| ==> Lt(dir[i - 1].end, u[j].key))
    {
      assert u[j] in u;
      if u[j] in s {
        var k :| 0 <= k < |s| && s[k] == u[j];
      } else {
        var k :| 0 <= k < |ys| && ys[k] == u[j];
      }
    }
  }

  /** The run collected for file i meets what its flush asks for. */
  lemma {:induction false} CollectedFits(st0: Store, st: Store, list: seq<Rec>, i: nat, g: nat, pos: nat)
    requires Walkable(st0, list) && Progress(st0, st, list, i, g, pos)
    ensures var run := UpsertAll(FileRecs(st.files, st.dir[i]), list[g..pos]);
            run != [] && Sorted(run) && Within(run, st.dir, i, st.dir[i].end)
  {
    hide Lt;
    hide Flat;
    hide Within;
    hide Fit;
    hide Inv;
    var s, ys := FileRecs(st.files, st.dir[i]), list[g..pos];
    FileOf(st, i);
    FileWithin(st, i);
    hide FileRecs;
    GroupWithin(st0, st, list, i, g, pos);
    WithinUpsertAll(s, ys, st.dir, i, st.dir[i].end);
    UpsertAllSorted(s, ys);
    UpsertAllHolds(s, ys);
  }

  lemma {:induction false} FileWithin(st: Store, i: nat)
    requires Inv(st) && i < |st.dir|
    ensures Within(FileRecs(st.files, st.dir[i]), st.dir, i, st.dir[i].end)
  {
    hide FileRecs;
    assert FileOk(st, i);
  }

  lemma {:induction false} UpsertAllHolds(s: seq<Rec>, ys: seq<Rec>)
    requires Sorted(s) && ys != []
    ensures UpsertAll(s, ys) != []
  {
    UpsertAllSorted(s, ys[..|ys| - 1]);
    UpsertSorted(UpsertAll(s, ys[..|ys| - 1]), ys[|ys| - 1]);
    assert ys[|ys| - 1] in UpsertAll(s, ys);
  }

  lemma {:induction false} CollectedIsGroup(st0: Store, st: Store, list: seq<Rec>, i: nat, g: nat, pos: nat)
    requires Walkable(st0, list) && Progress(st0, st, list, i, g, pos)
    requires pos == GroupEnd(st0.dir, list, i)
    ensures list[g..pos] == Group(st0.dir, list, i) != []
    ensures UpsertAll(FileRecs(st.files, st.dir[i]), list[g..pos]) == Rebuilt(st0, list, i)
    ensures |st.dir| + |Chunks(Rebuilt(st0, list, i), st.maxCount)| <= st.maxFiles
    ensures ChunksFit(Chunks(Rebuilt(st0, list, i), st.maxCount))
    ensures pos < |list| ==> |Rebuilt(st0, list, i)| <= 2 * st.maxCount
  {
    hide Inv;
    hide Flat;
    hide FileRecs;
    hide Chunks;
    hide UpsertAll;
    hide Fit;
    hide UpTo;
  }

  lemma {:induction false} ProgressGives(st0: Store, st: Store, list: seq<Rec>, i: nat, g: nat, pos: nat)
    requires Walkable(st0, list) && Progress(st0, st, list, i, g, pos)
    ensures Inv(st0) && Inv(st) && Sorted(list) && st.maxCount > 0
    ensures st.maxCount == st0.maxCount && st.maxFiles == st0.maxFiles
    ensures i < |st.dir| == |st0.dir| && st.name == st.dir[i].name && g < pos <= |list|
    ensures Flat(st.dir, st.files) == Merged(Flat(st0.dir, st0.files), list[..g])
  {
    hide FileOk;
    hide Flat;
    hide FileRecs;
  }

  /** What a flush leaves when it merged the records ys into the store: the invariant, and the merged run. */
  ghost predicate MergedInto(st0: Store, o: Outcome, ys: seq<Rec>) {
    o.Done? ==>
      && Inv(o.store) && o.store.maxCount == st0.maxCount && o.store.maxFiles == st0.maxFiles
      && Flat(o.store.dir, o.store.files) == Merged(Flat(st0.dir, st0.files), ys)
  }

  /** Flushing file i once its whole group is collected. */
  lemma {:induction false} CloseGroup(st0: Store, st: Store, list: seq<Rec>, i: nat, g: nat, pos: nat)
    requires Walkable(st0, list) && Progress(st0, st, list, i, g, pos)
    requires pos == GroupEnd(st0.dir, list, i)
    ensures var run := Rebuilt(st0, list, i);
            && (FlushMerge(st, run).Done? <==> AllHaveAdds(Chunks(run, st0.maxCount)))
            && MergedInto(st0, FlushMerge(st, run), list[..pos])
            && (FlushMerge(st, run).Done? && pos < |list| ==> FlushMerge(st, run).store == Overwritten(st, i, run))
  {
    hide Walkable;
    hide Progress;
    ProgressGives(st0, st, list, i, g, pos);
    CollectedIsGroup(st0, st, list, i, g, pos);
    CollectedFits(st0, st, list, i, g, pos);
    hide GroupEnd;
    hide Group;
    hide Rebuilt;
    hide UpsertAll;
    hide Inv;
    hide Flat;
    hide Within;
    hide Fit;
    hide Sorted;
    hide FlushMerge;
    hide Chunks;
    hide AllHaveAdds;
    hide Overwritten;
    hide FileRecs;
    hide Merged;
    FlushCollected(st, i, list[g..pos]);
    GroupWithin(st0, st, list, i, g, pos);
    FlatMerged(st, i, list[g..pos]);
    MergedFurther(st0, st, list, g, pos);
  }

  lemma {:induction false} MergedFurther(st0: Store, st: Store, list: seq<Rec>, g: nat, pos: nat)
    requires Inv(st0) && g <= pos <= |list|
    requires Flat(st.dir, st.files) == Merged(Flat(st0.dir, st0.files), list[..g])
    ensures Merged(Flat(st.dir, st.files), list[g..pos]) == Merged(Flat(st0.dir, st0.files), list[..pos])
  {
    hide Inv;
    hide Flat;
    hide Merged;
    hide Sorted;
    FlatSorted(st0);
    MergedTwice(Flat(st0.dir, st0.files), list[..g], list[g..pos]);
    assert list[..g] + list[g..pos] == list[..pos];
  }

  lemma {:induction false} FlushCollected(st: Store, i: nat, ys: seq<Rec>)
    requires Inv(st) && i < |st.dir| && st.name == st.dir[i].name
    requires var run := UpsertAll(FileRecs(st.files, st.dir[i]), ys);
             && run != [] && Sorted(run) && Within(run, st.dir, i, st.dir[i].end)
             && ChunksFit(Chunks(run, st.maxCount))
             && |st.dir| + |Chunks(run, st.maxCount)| <= st.maxFiles
    ensures var run := UpsertAll(FileRecs(st.files, st.dir[i]), ys);
            var o := FlushMerge(st, run);
            && (o.Done? <==> AllHaveAdds(Chunks(run, st.maxCount)))
            && (o.Done? ==>
                  && Inv(o.store) && o.store.maxCount == st.maxCount && o.store.maxFiles == st.maxFiles
                  && Flat(o.store.dir, o.store.files) ==
                     Flat(st.dir[..i], st.files) + Merged(FileRecs(st.files, st.dir[i]), ys)
                     + Flat(st.dir[i + 1..], st.files))
            && (o.Done? && |run| <= 2 * st.maxCount ==> o.store == Overwritten(st, i, run))
  {
    hide Inv;
    FlushMergeCorrect(st, i, UpsertAll(FileRecs(st.files, st.dir[i]), ys));
  }

  // ---- routing one record ------------------------------------------------------------------------

  /** From position i on the directory still has the ends it started with. */
  ghost predicate SameEndsFrom(dir0: seq<MetaNode>, dir: seq<MetaNode>, i: nat) {
    && |dir| == |dir0| && i < |dir| && EndsRise(dir0) && EndsRise(dir)
    && (forall j :: i <= j < |dir| ==> dir[j].end == dir0[j].end)
    && (i > 0 ==> Le(dir[i - 1].end, dir0[i - 1].end))
  }

  lemma {:induction false} ProgressEnds(st0: Store, st: Store, list: seq<Rec>, i: nat, g: nat, pos: nat)
    requires Walkable(st0, list) && Progress(st0, st, list, i, g, pos)
    ensures SameEndsFrom(st0.dir, st.dir, i)
    ensures g == GroupStart(st0.dir, list, i) && pos <= GroupEnd(st0.dir, list, i)
    ensures AllRoute(st.dir, list)
  {
    hide FileOk;
    hide Flat;
    hide FileRecs;
    hide NamesOk;
    hide LsnsOk;
    hide OnlyLastSplits;
    hide Chunks;
    hide Lt;
  }

  lemma {:induction false} StaysInGroup(dir0: seq<MetaNode>, dir: seq<MetaNode>, list: seq<Rec>, i: nat, pos: nat)
    requires SameEndsFrom(dir0, dir, i) && Sorted(list)
    requires GroupStart(dir0, list, i) <= pos < GroupEnd(dir0, list, i)
    ensures Search(dir, list[pos].key) == i
  {
    hide Lt;
    hide Search;
    LtIsStrictTotalOrder();
    if i > 0 {
      var g := GroupStart(dir0, list, i);
      assert Lt(dir0[i - 1].end, list[g].key);
      assert g < pos ==> Lt(list[g].key, list[pos].key);
    }
    SearchIs(dir, list[pos].key, i);
  }

  /** The first record behind group i routes to a later file, whose group it opens. */
  lemma {:induction false} OpensGroup(dir0: seq<MetaNode>, dir: seq<MetaNode>, list: seq<Rec>, i: nat, pos: nat)
    requires SameEndsFrom(dir0, dir, i) && Sorted(list) && AllRoute(dir, list)
    requires pos == GroupEnd(dir0, list, i) < |list|
    ensures var t := Search(dir, list[pos].key);
            i < t < |dir| && pos == GroupStart(dir0, list, t) && pos < GroupEnd(dir0, list, t)
  {
    hide Lt;
    hide Search;
    SearchFinds(dir, list[pos].key);
    var t := Search(dir, list[pos].key);
    BehindGroup(dir, list[pos].key, i, t);
    UpToAt(dir0, list, i, t, pos);
  }

  lemma {:induction false} BehindGroup(dir: seq<MetaNode>, key: Key, i: nat, t: nat)
    requires EndsRise(dir) && i < |dir| && t <= |dir|
    requires Lt(dir[i].end, key) && Le(key, dir[|dir| - 1].end)
    requires forall j :: 0 <= j < t ==> Lt(dir[j].end, key)
    requires t < |dir| ==> Le(key, dir[t].end)
    ensures i < t < |dir|
  {
    hide Lt;
    LtIsStrictTotalOrder();
    assert forall j :: 0 <= j < i ==> Lt(dir[j].end, dir[i].end);
  }

  lemma {:induction false} UpToAt(dir: seq<MetaNode>, list: seq<Rec>, i: nat, t: nat, pos: nat)
    requires EndsRise(dir) && Sorted(list) && i < t < |dir|
    requires pos == UpTo(list, dir[i].end) < |list|
    requires Lt(dir[t - 1].end, list[pos].key) && Le(list[pos].key, dir[t].end)
    ensures UpTo(list, dir[t - 1].end) == pos
    ensures pos < UpTo(list, dir[t].end)
  {
    hide Lt;
    LtIsStrictTotalOrder();
    assert i < t - 1 ==> Lt(dir[i].end, dir[t - 1].end);
    UpToIs(list, dir[t - 1].end, pos);
    assert forall j :: 0 <= j < pos ==> Lt(list[j].key, list[pos].key);
  }

  /** Between file i and the file of the next record, no group exists. */
  lemma {:induction false} NoGroupsBetween(st0: Store, list: seq<Rec>, i: nat, t: nat, pos: nat)
    requires st0.maxCount > 0 && EndsRise(st0.dir) && Sorted(list) && i < t < |st0.dir|
    requires pos == GroupEnd(st0.dir, list, i) == GroupStart(st0.dir, list, t)
    requires Group(st0.dir, list, i) != []
    ensures ChunksHaveAddsFrom(st0, list, i) <==>
              AllHaveAdds(Chunks(Rebuilt(st0, list, i), st0.maxCount)) && ChunksHaveAddsFrom(st0, list, t)
  {
    hide Chunks;
    hide AllHaveAdds;
    hide Rebuilt;
    forall j | i < j < t
      ensures Group(st0.dir, list, j) == []
    {
      EmptyBetween(st0.dir, list, i, j, t, pos);
    }
    hide Group;
    hide EndsRise;
    hide Sorted;
  }

  lemma {:induction false} EmptyBetween(dir: seq<MetaNode>, list: seq<Rec>, i: nat, j: nat, t: nat, pos: nat)
    requires EndsRise(dir) && Sorted(list) && i < j < t < |dir|
    requires UpTo(list, dir[i].end) == pos == UpTo(list, dir[t - 1].end)
    ensures Group(dir, list, j) == []
  {
    hide Lt;
    hide UpTo;
    EndsSqueeze(dir, list, i, j, t - 1, pos);
    EndsSqueeze(dir, list, i, j - 1, t - 1, pos);
  }

  lemma {:induction false} EndsSqueeze(dir: seq<MetaNode>, list: seq<Rec>, i: nat, j: nat, k: nat, pos: nat)
    requires EndsRise(dir) && Sorted(list) && i <= j <= k < |dir|
    requires UpTo(list, dir[i].end) == pos == UpTo(list, dir[k].end)
    ensures UpTo(list, dir[j].end) == pos
  {
    hide Lt;
    LtIsStrictTotalOrder();
    UpToIs(list, dir[j].end, pos);
  }

  /** What lies behind a rebuilt file stays as it was. */
  lemma {:induction false} RestStays(st: Store, i: nat, run: seq<Rec>, j: nat)
    requires NamesOk(st.dir) && i < j < |st.dir| && run != []
    ensures var st1 := Overwritten(st, i, run);
            && |st1.dir| == |st.dir| && st1.dir[j] == st.dir[j]
            && FileRecs(st1.files, st1.dir[j]) == FileRecs(st.files, st.dir[j])
  {
    hide FileRecs;
    hide WriteImage;
    hide BufferAfter;
    hide NumberedBelow;
    OtherFileStays(st.files, st.dir[i].name, WriteImage(run, st.buf), st.dir[j]);
  }

  lemma {:induction false} NextGroupName(st0: Store, st: Store, list: seq<Rec>, i: nat, g: nat, pos: nat, t: nat)
    requires Progress(st0, st, list, i, g, pos) && t < |st.dir|
    ensures NamesOk(st.dir) && st.dir[i].end == st0.dir[i].end
    ensures i < t ==> st.dir[t - 1].end == st0.dir[t - 1].end
    ensures forall j :: t <= j < |st.dir| && i < t ==>
              st.dir[j] == st0.dir[j] && FileRecs(st.files, st.dir[j]) == FileRecs(st0.files, st0.dir[j])
  {
    hide Lt;
    hide Flat;
    hide FileOk;
    hide EndsRise;
    hide NamesOk;
    hide LsnsOk;
    hide FilesOk;
    hide FileRecs;
    hide GroupStart;
    hide GroupEnd;
    hide Merged;
  }

  /** The store between two groups: file i is rebuilt, the next file's name is taken over. */
  lemma {:induction false} NextGroupProgress(st0: Store, st: Store, list: seq<Rec>, i: nat, g: nat, pos: nat,
                                             t: nat, run: seq<Rec>)
    requires Progress(st0, st, list, i, g, pos)
    requires i < t < |st.dir|
    requires pos == GroupStart(st0.dir, list, t) && pos < GroupEnd(st0.dir, list, t)
    requires run != [] && Le(LastKey(run), st.dir[i].end)
    requires MergedInto(st0, Done(Overwritten(st, i, run)), list[..pos])
    ensures var st1 := Overwritten(st, i, run);
            Progress(st0, st1.(name := st1.dir[t].name), list, t, pos, pos + 1)
  {
    hide Lt;
    hide Flat;
    hide Inv;
    hide NamesOk;
    hide FileRecs;
    hide WriteImage;
    hide BufferAfter;
    hide UpTo;
    hide Merged;
    var st1 := Overwritten(st, i, run);
    NextGroupName(st0, st, list, i, g, pos, t);
    forall j | t <= j < |st.dir|
      ensures st1.dir[j] == st0.dir[j]
      ensures FileRecs(st1.files, st1.dir[j]) == FileRecs(st0.files, st0.dir[j])
    {
      RestStays(st, i, run, j);
    }
    InvIgnoresRest(st1, st1.(name := st1.dir[t].name));
  }

  /** Neither the current name nor the buffer matters to the invariant. */
  lemma {:induction false} InvIgnoresRest(st: Store, st': Store)
    requires Inv(st) && st' == st.(name := st'.name, buf := st'.buf)
    ensures Inv(st')
  {
    hide FileRecs;
    hide Within;
    forall i | 0 <= i < |st.dir|
      ensures FileOk(st', i)
    {
      assert FileOk(st, i);
    }
  }

  lemma {:induction false} LoadsFile(st: Store, t: nat)
    requires Inv(st) && t < |st.dir|
    ensures Load(st, st.dir[t].name) == Some(FileRecs(st.files, st.dir[t]))
  {
    hide Lt;
    hide ReadAll;
    FileOf(st, t);
    hide Inv;
    var s := FileRecs(st.files, st.dir[t]);
    UpsertAllBehind([], s);
    assert [] + s == s;
  }

  // ---- the walk as a whole ---------------------------------------------------------------------------

  /** The run under construction for file i. */
  ghost function Collected(st: Store, list: seq<Rec>, i: nat, g: nat, pos: nat): seq<Rec>
    requires i < |st.dir| && g <= pos <= |list|
  {
    UpsertAll(FileRecs(st.files, st.dir[i]), list[g..pos])
  }

  lemma {:induction false} CollectOne(st: Store, list: seq<Rec>, i: nat, g: nat, pos: nat)
    requires i < |st.dir| && g <= pos < |list|
    ensures Upsert(Collected(st, list, i, g, pos), list[pos]) == Collected(st, list, i, g, pos + 1)
  {
    hide FileRecs;
    hide Upsert;
    assert list[g..pos + 1][..pos - g] == list[g..pos];
  }

  lemma {:induction false} ProgressOne(st0: Store, st: Store, list: seq<Rec>, i: nat, g: nat, pos: nat)
    requires Progress(st0, st, list, i, g, pos) && pos < GroupEnd(st0.dir, list, i)
    ensures Progress(st0, st, list, i, g, pos + 1)
  {
    hide Inv;
    hide FileRecs;
    hide Flat;
    hide UpTo;
  }

  lemma {:induction false} CollectFirst(st: Store, list: seq<Rec>, i: nat, pos: nat)
    requires i < |st.dir| && pos < |list|
    ensures Upsert(FileRecs(st.files, st.dir[i]), list[pos]) == Collected(st, list, i, pos, pos + 1)
  {
    hide FileRecs;
    hide Upsert;
    CollectOne(st, list, i, pos, pos);
    assert list[pos..pos] == [];
  }

  lemma {:induction false} WalkOpens(st: Store, run: seq<Rec>, list: seq<Rec>, pos: nat, t: nat)
    requires st.maxCount > 0 && pos < |list| && t < |st.dir|
    requires st.name != st.dir[t].name && t == Search(st.dir, list[pos].key)
    ensures FlushMerge(st, run).Stopped? ==> Walk(st, Some(run), list, pos) == FlushMerge(st, run)
    ensures FlushMerge(st, run).Done? ==>
              var st1 := FlushMerge(st, run).store;
              && t < |st1.dir| && st1.maxCount > 0
              && var st' := st1.(name := st1.dir[t].name);
                 Load(st', st'.name).Some? ==>
                   Walk(st, Some(run), list, pos)
                   == Walk(st', Some(Upsert(Load(st', st'.name).value, list[pos])), list, pos + 1)
  {
    hide FlushMerge;
    hide Search;
    hide Load;
    hide Upsert;
    LimitsStay(st, Some(run));
  }

  /** One step of the walk that flushes file i and opens file t. */
  lemma {:induction false} WalkToNext(st: Store, run: seq<Rec>, list: seq<Rec>, pos: nat, i: nat, t: nat)
    requires st.maxCount > 0 && pos < |list| && i < t < |st.dir| && NamesOk(st.dir)
    requires st.name == st.dir[i].name && t == Search(st.dir, list[pos].key) && run != []
    requires FlushMerge(st, run).Done? ==> FlushMerge(st, run).store == Overwritten(st, i, run)
    requires FlushMerge(st, run).Done? ==> Inv(Overwritten(st, i, run))
    ensures FlushMerge(st, run).Stopped? ==> Walk(st, Some(run), list, pos) == FlushMerge(st, run)
    ensures FlushMerge(st, run).Done? ==>
              var st1 := Overwritten(st, i, run);
              var st' := st1.(name := st1.dir[t].name);
              Walk(st, Some(run), list, pos) == Walk(st', Some(Collected(st', list, t, pos, pos + 1)), list, pos + 1)
  {
    hide FlushMerge;
    hide Inv;
    hide Search;
    hide FileRecs;
    hide Load;
    hide Walk;
    hide Upsert;
    hide Collected;
    hide WriteImage;
    hide BufferAfter;
    WalkOpens(st, run, list, pos, t);
    if FlushMerge(st, run).Done? {
      var st1 := Overwritten(st, i, run);
      InvPositive(st1);
      var st' := st1.(name := st1.dir[t].name);
      InvIgnoresRest(st1, st1.(name := st1.dir[t].name));
      LoadsFile(st', t);
      CollectFirst(st', list, t, pos);
    }
  }

  lemma {:induction false} WalkInGroup(st: Store, run: seq<Rec>, list: seq<Rec>, pos: nat, i: nat)
    requires st.maxCount > 0 && pos < |list| && i < |st.dir|
    requires st.name == st.dir[i].name && i == Search(st.dir, list[pos].key)
    ensures Walk(st, Some(run), list, pos) == Walk(st, Some(Upsert(run, list[pos])), list, pos + 1)
  {
    hide FlushOpen;
    hide Search;
    hide Upsert;
    LimitsStay(st, Some(run));
  }

  /** The last group is collected. */
  lemma {:induction false} WalkEnds(st0: Store, st: Store, list: seq<Rec>, i: nat, g: nat, pos: nat)
    requires Walkable(st0, list) && Progress(st0, st, list, i, g, pos)
    requires st.maxCount > 0 && st0.maxCount > 0
    requires pos == |list| == GroupEnd(st0.dir, list, i)
    ensures var o := Walk(st, Some(Collected(st, list, i, g, pos)), list, pos);
            && (o.Done? <==> ChunksHaveAddsFrom(st0, list, i))
            && MergedInto(st0, o, list)
  {
    hide Walkable;
    hide Progress;
    hide MergedInto;
    hide FlushMerge;
    hide Chunks;
    hide AllHaveAdds;
    hide Inv;
    hide Flat;
    hide Merged;
    hide FileRecs;
    hide UpsertAll;
    hide Sorted;
    hide Group;
    hide Rebuilt;
    hide ChunksHaveAddsFrom;
    ProgressGives(st0, st, list, i, g, pos);
    CollectedIsGroup(st0, st, list, i, g, pos);
    LimitsStay(st, Some(Collected(st, list, i, g, pos)));
    CloseGroup(st0, st, list, i, g, pos);
    assert list[..pos] == list;
    NoGroupsBehind(st0, list, i);
  }

  lemma {:induction false} NoGroupsBehind(st0: Store, list: seq<Rec>, i: nat)
    requires Inv(st0) && Sorted(list) && i < |st0.dir| && GroupEnd(st0.dir, list, i) == |list|
    requires Group(st0.dir, list, i) != [] && st0.maxCount > 0
    ensures ChunksHaveAddsFrom(st0, list, i) <==> AllHaveAdds(Chunks(Rebuilt(st0, list, i), st0.maxCount))
  {
    hide Chunks;
    hide AllHaveAdds;
    hide Rebuilt;
    InvEnds(st0);
    hide Inv;
    hide EndsRise;
    hide Sorted;
    hide Group;
    hide UpTo;
    forall j | i < j < |st0.dir|
      ensures Group(st0.dir, list, j) == []
    {
      NoGroupAt(st0.dir, list, i, j);
    }
  }

  lemma {:induction false} NoGroupAt(dir: seq<MetaNode>, list: seq<Rec>, i: nat, j: nat)
    requires EndsRise(dir) && Sorted(list) && i < j < |dir| && UpTo(list, dir[i].end) == |list|
    ensures Group(dir, list, j) == []
  {
    hide EndsRise;
    hide Sorted;
    hide UpTo;
    ListBelow(dir, list, i, j);
    ListBelow(dir, list, i, j - 1);
  }

  lemma {:induction false} ListBelow(dir: seq<MetaNode>, list: seq<Rec>, i: nat, j: nat)
    requires EndsRise(dir) && Sorted(list) && i <= j < |dir| && UpTo(list, dir[i].end) == |list|
    ensures UpTo(list, dir[j].end) == |list|
  {
    hide Lt;
    LtIsStrictTotalOrder();
    UpToIs(list, dir[j].end, |list|);
  }

  /** The walk leaves group i and opens the next. */
  lemma {:induction false} WalkCrosses(st0: Store, st: Store, list: seq<Rec>, all: seq<Rec>, i: nat, g: nat, pos: nat)
    requires Walkable(st0, list) && Progress(st0, st, list, i, g, pos) && list <= all
    requires st.maxCount > 0 && st0.maxCount > 0
    requires pos == GroupEnd(st0.dir, list, i) < |list|
    ensures Collected(st, list, i, g, pos) != []
    ensures var run := Collected(st, list, i, g, pos);
            var t := Search(st.dir, list[pos].key);
            && i < t < |st.dir|
            && (FlushMerge(st, run).Done? <==> AllHaveAdds(Chunks(run, st0.maxCount)))
            && (ChunksHaveAddsFrom(st0, list, i) <==> FlushMerge(st, run).Done? && ChunksHaveAddsFrom(st0, list, t))
            && (FlushMerge(st, run).Stopped? ==> Walk(st, Some(run), all, pos) == FlushMerge(st, run))
            && (FlushMerge(st, run).Done? ==>
                  var st1 := Overwritten(st, i, run);
                  var st' := st1.(name := st1.dir[t].name);
                  && Progress(st0, st', list, t, pos, pos + 1) && st'.maxCount > 0
                  && Walk(st, Some(run), all, pos)
                     == Walk(st', Some(Collected(st', list, t, pos, pos + 1)), all, pos + 1))
  {
    hide Walkable;
    hide Progress;
    hide FlushMerge;
    hide Chunks;
    hide AllHaveAdds;
    hide ChunksHaveAddsFrom;
    hide Search;
    hide Walk;
    hide FileRecs;
    hide UpsertAll;
    hide Within;
    hide Fit;
    hide Sorted;
    hide Inv;
    hide Flat;
    hide Merged;
    hide Group;
    hide Rebuilt;
    hide UpTo;
    hide EndsRise;
    hide NamesOk;
    hide WriteImage;
    hide BufferAfter;
    ProgressGives(st0, st, list, i, g, pos);
    ProgressEnds(st0, st, list, i, g, pos);
    CollectedIsGroup(st0, st, list, i, g, pos);
    CollectedFits(st0, st, list, i, g, pos);
    CloseGroup(st0, st, list, i, g, pos);
    OpensGroup(st0.dir, st.dir, list, i, pos);
    var run := Collected(st, list, i, g, pos);
    var t := Search(st.dir, list[pos].key);
    InvEnds(st0);
    InvNames(st);
    NoGroupsBetween(st0, list, i, t, pos);
    EndOfRun(run, st.dir, i, st.dir[i].end);
    assert list[pos] == all[pos] && list[pos..pos + 1] == all[pos..pos + 1];
    WalkToNext(st, run, all, pos, i, t);
    if FlushMerge(st, run).Done? {
      SameSlice(st, i, run, t, list, all, pos);
      NextGroupProgress(st0, st, list, i, g, pos, t, run);
    }
  }

  lemma {:induction false} SameSlice(st: Store, i: nat, run: seq<Rec>, t: nat, list: seq<Rec>, all: seq<Rec>, pos: nat)
    requires i < t < |st.dir| && run != [] && pos < |list| && list <= all
    ensures var st1 := Overwritten(st, i, run);
            var st' := st1.(name := st1.dir[t].name);
            Collected(st', list, t, pos, pos + 1) == Collected(st', all, t, pos, pos + 1)
  {
    hide FileRecs;
    assert list[pos..pos + 1] == all[pos..pos + 1];
  }

  lemma {:induction false} StoppedMergesNothing(st0: Store, o: Outcome, ys: seq<Rec>)
    ensures o.Stopped? ==> MergedInto(st0, o, ys)
  {
  }

  lemma {:induction false} InvNames(st: Store)
    requires Inv(st)
    ensures NamesOk(st.dir)
  {
  }

  lemma {:induction false} EndOfRun(run: seq<Rec>, dir: seq<MetaNode>, i: nat, hi: Key)
    requires run != [] && Within(run, dir, i, hi)
    ensures Le(LastKey(run), hi)
  {
  }

  /** The same, with the state behind the flush and the next file handed on. */
  lemma {:induction false} WalkGoesOn(st0: Store, st: Store, list: seq<Rec>, all: seq<Rec>, i: nat, g: nat, pos: nat)
    returns (t: nat, st': Store)
    requires Walkable(st0, list) && Progress(st0, st, list, i, g, pos) && list <= all
    requires st.maxCount > 0 && st0.maxCount > 0
    requires pos == GroupEnd(st0.dir, list, i) < |list|
    ensures var run := Collected(st, list, i, g, pos);
            && (ChunksHaveAddsFrom(st0, list, i) <==> FlushMerge(st, run).Done? && ChunksHaveAddsFrom(st0, list, t))
            && (FlushMerge(st, run).Stopped? ==>
                  Walk(st, Some(run), list, pos) == FlushMerge(st, run) == Walk(st, Some(run), all, pos))
            && (FlushMerge(st, run).Done? ==>
                  && Progress(st0, st', list, t, pos, pos + 1) && st'.maxCount > 0
                  && t < |st'.dir|
                  && Walk(st, Some(run), list, pos)
                     == Walk(st', Some(Collected(st', list, t, pos, pos + 1)), list, pos + 1)
                  && (EndsDone(st0, st, list, i) ==> EndsDone(st0, st', list, t))
                  && Walk(st, Some(run), all, pos)
                     == Walk(st', Some(Collected(st', list, t, pos, pos + 1)), all, pos + 1))
  {
    hide Walkable;
    hide Progress;
    hide FlushMerge;
    hide Chunks;
    hide AllHaveAdds;
    hide ChunksHaveAddsFrom;
    hide Search;
    hide Walk;
    hide Collected;
    hide FileRecs;
    hide WriteImage;
    hide BufferAfter;
    hide UpTo;
    hide Sorted;
    hide Flat;
    hide Merged;
    hide Inv;
    hide EndsDone;
    ProgressGives(st0, st, list, i, g, pos);
    WalkCrosses(st0, st, list, list, i, g, pos);
    WalkCrosses(st0, st, list, all, i, g, pos);
    t := Search(st.dir, list[pos].key);
    var run := Collected(st, list, i, g, pos);
    var st1 := Overwritten(st, i, run);
    st' := st1.(name := st1.dir[t].name);
    if EndsDone(st0, st, list, i) {
      EndsGoOn(st0, st, list, i, g, pos, t);
    }
  }

  // ---- the ends of the directory ----------------------------------------------------------------------

  /** Where file i ends after the merge, if it is not cut. */
  ghost function EndAfter(st: Store, list: seq<Rec>, i: nat): Key
    requires i < |st.dir|
  {
    var run := Rebuilt(st, list, i);
    if Group(st.dir, list, i) == [] || run == [] then st.dir[i].end else LastKey(run)
  }

  /** The files before i have their new ends. */
  ghost predicate EndsDone(st0: Store, st: Store, list: seq<Rec>, i: nat) {
    i <= |st0.dir| == |st.dir| && forall j :: 0 <= j < i ==> st.dir[j].end == EndAfter(st0, list, j)
  }

  lemma {:induction false} EndsGoOn(st0: Store, st: Store, list: seq<Rec>, i: nat, g: nat, pos: nat, t: nat)
    requires Walkable(st0, list) && Progress(st0, st, list, i, g, pos) && EndsDone(st0, st, list, i)
    requires pos == GroupEnd(st0.dir, list, i) < |list| && t == Search(st.dir, list[pos].key)
    ensures var run := Collected(st, list, i, g, pos);
            run != [] && t < |st.dir|
            && var st1 := Overwritten(st, i, run); EndsDone(st0, st1.(name := st1.dir[t].name), list, t)
  {
    hide Walkable;
    hide Progress;
    hide Rebuilt;
    hide Group;
    hide FileRecs;
    hide UpsertAll;
    hide Search;
    hide Inv;
    hide Flat;
    hide Chunks;
    hide Sorted;
    hide Lt;
    hide WriteImage;
    hide BufferAfter;
    hide Merged;
    hide UpTo;
    hide EndsRise;
    hide NamesOk;
    hide Within;
    ProgressGives(st0, st, list, i, g, pos);
    ProgressEnds(st0, st, list, i, g, pos);
    CollectedIsGroup(st0, st, list, i, g, pos);
    CollectedFits(st0, st, list, i, g, pos);
    OpensGroup(st0.dir, st.dir, list, i, pos);
    forall j | i < j < t
      ensures Group(st0.dir, list, j) == [] && st.dir[j].end == st0.dir[j].end
    {
      EmptyBetween(st0.dir, list, i, j, t, pos);
    }
  }

  lemma {:induction false} WalkCorrect(st0: Store, st: Store, list: seq<Rec>, i: nat, g: nat, pos: nat)
    requires Walkable(st0, list) && Progress(st0, st, list, i, g, pos)
    requires st.maxCount > 0 && st0.maxCount > 0 && pos <= |list|
    ensures var o := Walk(st, Some(Collected(st, list, i, g, pos)), list, pos);
            && (o.Done? <==> ChunksHaveAddsFrom(st0, list, i))
            && MergedInto(st0, o, list)
    decreases |list| - pos
  {
    hide Walkable;
    hide Progress;
    hide MergedInto;
    hide ChunksHaveAddsFrom;
    hide Walk;
    hide Collected;
    hide FlushMerge;
    hide WriteImage;
    hide BufferAfter;
    hide Search;
    hide Inv;
    hide EndsRise;
    hide Sorted;
    hide Flat;
    hide Merged;
    hide AllRoute;
    hide FileRecs;
    hide UpTo;
    ProgressGives(st0, st, list, i, g, pos);
    ProgressEnds(st0, st, list, i, g, pos);
    StoppedMergesNothing(st0, Walk(st, Some(Collected(st, list, i, g, pos)), list, pos), list);
    var run := Collected(st, list, i, g, pos);
    if pos < GroupEnd(st0.dir, list, i) {
      StaysInGroup(st0.dir, st.dir, list, i, pos);
      ProgressOne(st0, st, list, i, g, pos);
      CollectOne(st, list, i, g, pos);
      WalkCorrect(st0, st, list, i, g, pos + 1);
      WalkInGroup(st, run, list, pos, i);
    } else if pos < |list| {
      var t, st' := WalkGoesOn(st0, st, list, list, i, g, pos);
      if FlushMerge(st, run).Done? {
        WalkCorrect(st0, st', list, t, pos, pos + 1);
      }
    } else {
      WalkEnds(st0, st, list, i, g, pos);
    }
  }

  // ---- up to a point of a longer list --------------------------------------------------------------------

  /** A longer list is walked like its head until the head ends: either a flush stops both, or both
      reach the state in which the head's last run is collected. */
  lemma {:induction false} ReachEnd(st0: Store, st: Store, head: seq<Rec>, list: seq<Rec>, i: nat, g: nat, pos: nat)
    returns (stops: bool, stE: Store, iE: nat, gE: nat)
    requires Walkable(st0, head) && Progress(st0, st, head, i, g, pos) && head <= list
    requires st.maxCount > 0 && st0.maxCount > 0 && EndsDone(st0, st, head, i)
    ensures var run := Collected(st, head, i, g, pos);
            if stops then Walk(st, Some(run), head, pos).Stopped?
              && Walk(st, Some(run), list, pos) == Walk(st, Some(run), head, pos)
            else
              && Progress(st0, stE, head, iE, gE, |head|) && stE.maxCount > 0 && EndsDone(st0, stE, head, iE)
              && var runE := Collected(stE, head, iE, gE, |head|);
                 && Walk(st, Some(run), head, pos) == FlushMerge(stE, runE)
                 && Walk(st, Some(run), list, pos) == Walk(stE, Some(runE), list, |head|)
    decreases |head| - pos
  {
    hide Walkable;
    hide Progress;
    hide ChunksHaveAddsFrom;
    hide Walk;
    hide Collected;
    hide FlushMerge;
    hide WriteImage;
    hide BufferAfter;
    hide Search;
    hide Inv;
    hide EndsRise;
    hide Sorted;
    hide Flat;
    hide Merged;
    hide AllRoute;
    hide FileRecs;
    hide UpTo;
    hide EndsDone;
    ProgressGives(st0, st, head, i, g, pos);
    ProgressEnds(st0, st, head, i, g, pos);
    var run := Collected(st, head, i, g, pos);
    stE, iE, gE := st, i, g;
    if pos < GroupEnd(st0.dir, head, i) {
      StaysInGroup(st0.dir, st.dir, head, i, pos);
      ProgressOne(st0, st, head, i, g, pos);
      CollectOne(st, head, i, g, pos);
      WalkInGroup(st, run, head, pos, i);
      WalkInGroup(st, run, list, pos, i);
      stops, stE, iE, gE := ReachEnd(st0, st, head, list, i, g, pos + 1);
    } else if pos < |head| {
      var t, st' := WalkGoesOn(st0, st, head, list, i, g, pos);
      stops := FlushMerge(st, run).Stopped?;
      if !stops {
        stops, stE, iE, gE := ReachEnd(st0, st', head, list, t, pos, pos + 1);
      }
    } else {
      stops := false;
      WalkEndsAt(st, run, head);
    }
  }

  lemma {:induction false} WalkEndsAt(st: Store, run: seq<Rec>, list: seq<Rec>)
    requires st.maxCount > 0
    ensures Walk(st, Some(run), list, |list|) == FlushMerge(st, run)
  {
    LimitsStay(st, Some(run));
  }
}
