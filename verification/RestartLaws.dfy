// Writing a run behind the files although some of it may belong in front: what the restart of a
// merge at the head of its list does to a store.
module RestartLaws {
  import opened Keys
  import opened Records
  import opened Merging
  import opened Images
  import opened Metas
  import opened Stores
  import opened StoreLaws
  import opened FlushLaws
  import opened MergeLaws

  // ---- a file that the directory drops ------------------------------------------------------

  /** The store without the file that the next new name would overwrite. */
  ghost function Clean(st: Store): Store {
    st.(files := st.files - {FileName(|st.dir|)})
  }

  lemma {:induction false} WriteIgnoresSpare(st: Store, chunk: seq<Rec>)
    ensures Write(st.(name := FileName(|st.dir|)), chunk, true) ==
            Write(Clean(st).(name := FileName(|st.dir|)), chunk, true)
  {
    hide WriteImage;
    hide FileName;
    hide WithNode;
    hide Adds;
    var n := FileName(|st.dir|);
    if chunk != [] {
      var f := WriteImage(chunk, st.buf);
      assert (st.files - {n})[n := f] == st.files[n := f];
    }
  }

  lemma {:induction false} WriteNewIgnoresSpare(st: Store, chunks: seq<seq<Rec>>)
    requires chunks != []
    ensures WriteNew(st, chunks) == WriteNew(Clean(st), chunks)
  {
    hide Write;
    hide FileName;
    WriteIgnoresSpare(st, chunks[0]);
  }

  lemma {:induction false} NextNameIsFree(st: Store)
    requires Inv(st)
    ensures FileName(|st.dir|) !in st.files
  {
    hide FileName;
    hide FileOk;
    FreshName(st);
  }

  /** A chunk whose end is an end already is written, but not entered: the directory invariant
      fails, and all else is as before. */
  lemma {:induction false} Dropped(st: Store, chunk: seq<Rec>)
    requires Inv(st) && chunk != [] && Adds(chunk) != [] && |st.dir| + 1 < st.maxFiles
    requires LastKey(chunk) in EndKeys(st.dir)
    ensures var o := Write(st.(name := FileName(|st.dir|)), chunk, true);
            && o.Done? && !Inv(o.store) && Inv(Clean(o.store))
            && Clean(o.store).dir == st.dir && Clean(o.store).files == st.files
            && Clean(o.store).maxCount == st.maxCount && Clean(o.store).maxFiles == st.maxFiles
  {
    hide Lt;
    hide FileName;
    hide WriteImage;
    hide BufferAfter;
    hide Adds;
    hide Search;
    hide FileOk;
    NextNameIsFree(st);
    EndIsFound(st.dir, LastKey(chunk));
    var st1 := st.(name := FileName(|st.dir|));
    var st' := Write(st1, chunk, true).store;
    assert st'.dir == st.dir;
    assert Clean(st').files == st.files;
    InvIgnoresRest(st, Clean(st'));
    NoSpareFile(st');
  }

  lemma {:induction false} NoSpareFile(st: Store)
    requires FileName(|st.dir|) in st.files
    ensures !Inv(st)
  {
    if Inv(st) {
      NextNameIsFree(st);
      assert false;
    }
  }

  function EndKeys(dir: seq<MetaNode>): (ends: seq<Key>)
    ensures |ends| == |dir|
  {
    seq(|dir|, i requires 0 <= i < |dir| => dir[i].end)
  }

  lemma {:induction false} EndIsFound(dir: seq<MetaNode>, key: Key)
    requires EndsRise(dir)
    ensures var i := Search(dir, key);
            key in EndKeys(dir) <==> i < |dir| && dir[i].end == key
  {
    hide Lt;
    LtIsStrictTotalOrder();
    SearchFinds(dir, key);
    var i := Search(dir, key);
    if key in EndKeys(dir) {
      var j :| 0 <= j < |dir| && EndKeys(dir)[j] == key;
    }
    if i < |dir| && dir[i].end == key {
      assert EndKeys(dir)[i] == key;
    }
  }

  // ---- a key in two files ------------------------------------------------------------------------

  ghost predicate InFile(st: Store, i: nat, key: Key) {
    i < |st.dir| && exists x :: 0 <= x < |FileRecs(st.files, st.dir[i])| && FileRecs(st.files, st.dir[i])[x].key == key
  }

  /** Two files of the directory hold the key. No write into a new file takes that back. */
  ghost predicate Twice(st: Store, key: Key) {
    && NamesOk(st.dir) && LsnsOk(st.dir)
    && exists i: nat, j: nat :: i < j && InFile(st, i, key) && InFile(st, j, key)
  }

  lemma {:induction false} TwiceIsNotInv(st: Store, key: Key)
    requires Twice(st, key)
    ensures !Inv(st)
  {
    hide Lt;
    hide FileRecs;
    hide NamesOk;
    hide LsnsOk;
    if Inv(st) {
      var i: nat, j: nat :| i < j && InFile(st, i, key) && InFile(st, j, key);
      FileOf(st, i);
      FileOf(st, j);
      InvEnds(st);
      if i < j - 1 {
        LtTransitive(st.dir[i].end, st.dir[j - 1].end, key);
      }
      LtIrreflexive(key);
      if Lt(key, st.dir[i].end) {
        LtTransitive(key, st.dir[i].end, key);
      }
      assert false;
    }
  }

  lemma {:induction false} InsertKeepsFile(st: Store, p: nat, node: MetaNode, f: Image, i: nat, key: Key)
    requires p <= |st.dir| && InFile(st, i, key) && st.dir[i].name != node.name
    ensures InFile(st.(dir := st.dir[..p] + [node] + st.dir[p..], files := st.files[node.name := f]),
                   if i < p then i else i + 1, key)
  {
    hide FileRecs;
    OtherFileStays(st.files, node.name, f, st.dir[i]);
    var d := st.dir[..p] + [node] + st.dir[p..];
    assert d[if i < p then i else i + 1] == st.dir[i];
  }

  lemma {:induction false} DropKeepsFile(st: Store, name: Name, f: Image, i: nat, key: Key)
    requires InFile(st, i, key) && st.dir[i].name != name
    ensures InFile(st.(files := st.files[name := f]), i, key)
  {
    hide FileRecs;
    OtherFileStays(st.files, name, f, st.dir[i]);
  }

  lemma {:induction false} FilesIgnoreRest(st: Store, st': Store, i: nat, key: Key)
    requires InFile(st, i, key) && st'.dir == st.dir && st'.files == st.files
    ensures InFile(st', i, key)
  {
    hide FileRecs;
  }

  lemma {:induction false} NameNotNext(dir: seq<MetaNode>, i: nat)
    requires NamesOk(dir) && i < |dir|
    ensures dir[i].name != FileName(|dir|)
  {
    hide FileName;
    assert NumberedBelow(dir[i].name, |dir|);
    var c: nat :| c < |dir| && dir[i].name == FileName(c);
    if FileName(c) == FileName(|dir|) {
      FileNameInjective(c, |dir|);
      assert false;
    }
  }

  /** What a write into a new file makes of the store. */
  lemma {:induction false} WriteShape(st: Store, chunk: seq<Rec>)
    requires chunk != []
    ensures var o := Write(st.(name := FileName(|st.dir|)), chunk, true);
            o.Done? ==>
              && o.store.files == st.files[FileName(|st.dir|) := WriteImage(chunk, st.buf)]
              && o.store.maxCount == st.maxCount && o.store.maxFiles == st.maxFiles
              && var p := Search(st.dir, LastKey(chunk));
                 o.store.dir == if p < |st.dir| && st.dir[p].end == LastKey(chunk) then st.dir
                                else st.dir[..p] + [NewNode(st, chunk)] + st.dir[p..]
  {
    hide Search;
    hide FileName;
    hide WriteImage;
    hide BufferAfter;
    hide Adds;
  }

  lemma {:induction false} TwiceStays(st: Store, chunk: seq<Rec>, key: Key)
    requires Twice(st, key) && chunk != []
    ensures var o := Write(st.(name := FileName(|st.dir|)), chunk, true);
            o.Done? ==> Twice(o.store, key)
  {
    hide Search;
    hide FileName;
    hide WriteImage;
    hide Write;
    hide InFile;
    hide Adds;
    hide NumberedBelow;
    WriteShape(st, chunk);
    var o := Write(st.(name := FileName(|st.dir|)), chunk, true);
    if o.Done? {
      var i: nat, j: nat :| i < j && InFile(st, i, key) && InFile(st, j, key);
      InFileRange(st, i, key);
      InFileRange(st, j, key);
      NameNotNext(st.dir, i);
      NameNotNext(st.dir, j);
      var p, node, f := Search(st.dir, LastKey(chunk)), NewNode(st, chunk), WriteImage(chunk, st.buf);
      if o.store.dir == st.dir {
        DropKeepsFile(st, FileName(|st.dir|), f, i, key);
        DropKeepsFile(st, FileName(|st.dir|), f, j, key);
        FilesIgnoreRest(st.(files := o.store.files), o.store, i, key);
        FilesIgnoreRest(st.(files := o.store.files), o.store, j, key);
      } else {
        InsertNames(st.dir, p, node);
        InsertKeepsFile(st, p, node, f, i, key);
        InsertKeepsFile(st, p, node, f, j, key);
        var st' := st.(dir := o.store.dir, files := o.store.files);
        FilesIgnoreRest(st', o.store, if i < p then i else i + 1, key);
        FilesIgnoreRest(st', o.store, if j < p then j else j + 1, key);
      }
    }
  }

  lemma {:induction false} InFileRange(st: Store, i: nat, key: Key)
    requires InFile(st, i, key)
    ensures i < |st.dir|
  {
  }

  lemma {:induction false} TwiceStaysAll(st: Store, chunks: seq<seq<Rec>>, key: Key)
    requires Twice(st, key) && forall i :: 0 <= i < |chunks| ==> chunks[i] != []
    ensures WriteNew(st, chunks).Done? ==> Twice(WriteNew(st, chunks).store, key)
    decreases |chunks|
  {
    hide Write;
    hide Twice;
    hide FileName;
    if chunks != [] {
      TwiceStays(st, chunks[0], key);
      var o := Write(st.(name := FileName(|st.dir|)), chunks[0], true);
      if o.Done? {
        TwiceStaysAll(o.store, chunks[1..], key);
      }
    }
  }

  // ---- the chunks of a restart ----------------------------------------------------------------------

  /** Some file of the directory holds the record. */
  ghost predicate Stored(st: Store, r: Rec) {
    exists i :: 0 <= i < |st.dir| && r in FileRecs(st.files, st.dir[i])
  }

  /** Every ADD record of the run up to hi is in some file already. */
  ghost predicate HeadStored(st: Store, run: seq<Rec>, hi: Key) {
    forall r :: r in run && r.opt == ADD && Le(r.key, hi) ==> Stored(st, r)
  }

  /** The chunks do no harm to files that end at `ends`, all up to hi. A chunk that lies up to hi
      must end where a file ends: then it is dropped, and the next chunk takes its name. The first
      chunk that reaches behind hi must have no ADD record up to hi; there has to be one. */
  ghost predicate Harmless(ends: seq<Key>, chunks: seq<seq<Rec>>, hi: Key)
    decreases |chunks|
  {
    chunks != [] && chunks[0] != [] &&
    if Le(LastKey(chunks[0]), hi) then LastKey(chunks[0]) in ends && Harmless(ends, chunks[1..], hi)
    else forall r :: r in chunks[0] && r.opt == ADD ==> Lt(hi, r.key)
  }

  /** A chunk that is entered although a file holds one of its records. */
  lemma {:induction false} EnteredTwice(st: Store, chunk: seq<Rec>, r: Rec)
    requires Inv(st) && ChunkOk(chunk) && LastKey(chunk) !in EndKeys(st.dir)
    requires r in chunk && r.opt == ADD && Stored(st, r)
    ensures var o := Write(st.(name := FileName(|st.dir|)), chunk, true);
            o.Done? ==> Twice(o.store, r.key)
  {
    hide Lt;
    hide Search;
    hide FileName;
    hide WriteImage;
    hide ReadAll;
    hide Write;
    hide InFile;
    hide Adds;
    hide NumberedBelow;
    hide FileOk;
    hide FilesOk;
    hide Fit;
    hide Sorted;
    WriteShape(st, chunk);
    EndIsFound(st.dir, LastKey(chunk));
    var o := Write(st.(name := FileName(|st.dir|)), chunk, true);
    if o.Done? {
      var i: nat :| i < |st.dir| && r in FileRecs(st.files, st.dir[i]);
      var p, node, f := Search(st.dir, LastKey(chunk)), NewNode(st, chunk), WriteImage(chunk, st.buf);
      RecIsInFile(st, i, r);
      NameNotNext(st.dir, i);
      InsertNames(st.dir, p, node);
      InsertKeepsFile(st, p, node, f, i, r.key);
      WrittenFile(chunk, st.buf);
      var st' := st.(dir := o.store.dir, files := o.store.files);
      NewFileHolds(st, p, node, f, Adds(chunk), r);
      FilesIgnoreRest(st', o.store, if i < p then i else i + 1, r.key);
      FilesIgnoreRest(st', o.store, p, r.key);
    }
  }

  lemma {:induction false} RecIsInFile(st: Store, i: nat, r: Rec)
    requires i < |st.dir| && r in FileRecs(st.files, st.dir[i])
    ensures InFile(st, i, r.key)
  {
    hide FileRecs;
  }

  lemma {:induction false} NewFileHolds(st: Store, p: nat, node: MetaNode, f: Image, recs: seq<Rec>, r: Rec)
    requires p <= |st.dir| && ReadAll(f) == recs && r in recs
    ensures InFile(st.(dir := st.dir[..p] + [node] + st.dir[p..], files := st.files[node.name := f]), p, r.key)
  {
    hide ReadAll;
    var d := st.dir[..p] + [node] + st.dir[p..];
    assert d[p] == node;
    assert FileRecs(st.files[node.name := f], node) == recs;
    var x :| 0 <= x < |recs| && recs[x] == r;
  }

  /** The records of a sorted run that lie behind hi. */
  ghost function Behind(run: seq<Rec>, hi: Key): seq<Rec> {
    run[UpTo(run, hi)..]
  }

  lemma {:induction false} BehindConcat(a: seq<Rec>, b: seq<Rec>, hi: Key)
    requires Sorted(a + b) && a != [] && Le(LastKey(a), hi)
    ensures Behind(a + b, hi) == Behind(b, hi)
  {
    hide Lt;
    LtIsStrictTotalOrder();
    var s, u := a + b, UpTo(b, hi);
    assert forall j :: 0 <= j < |b| ==> s[|a| + j] == b[j];
    assert s[|a| - 1] == a[|a| - 1];
    UpToIs(s, hi, |a| + u);
  }

  lemma {:induction false} WriteSeesAdds(st: Store, a: seq<Rec>, b: seq<Rec>, isNew: bool)
    requires a != [] && b != [] && LastKey(a) == LastKey(b) && Adds(a) == Adds(b)
    ensures Write(st, a, isNew) == Write(st, b, isNew)
  {
    hide WithNode;
    hide SetEnd;
    hide Adds;
    hide Data;
    hide MaxLen;
  }

  lemma {:induction false} FrontHasNoAdds(chunk: seq<Rec>, hi: Key)
    requires chunk != [] && Sorted(chunk) && Lt(hi, LastKey(chunk))
    requires forall r :: r in chunk && r.opt == ADD ==> Lt(hi, r.key)
    ensures var b := Behind(chunk, hi);
            b != [] && LastKey(b) == LastKey(chunk) && Adds(b) == Adds(chunk)
  {
    hide Lt;
    hide Adds;
    hide Sorted;
    hide UpTo;
    LtAsymmetric(hi, LastKey(chunk));
    var n := UpTo(chunk, hi);
    var a, b := chunk[..n], chunk[n..];
    assert a + b == chunk;
    AddsConcat(a, b);
    forall j | 0 <= j < n
      ensures a[j].opt != ADD
    {
      assert chunk[j] in chunk;
      UpToIsNotBehind(chunk[j].key, hi);
    }
    NoAddsUpTo(a);
    assert [] + Adds(b) == Adds(b);
  }

  lemma {:induction false} UpToIsNotBehind(key: Key, hi: Key)
    requires Le(key, hi)
    ensures !Lt(hi, key)
  {
    hide Lt;
    LtIsStrictTotalOrder();
  }

  /** Tombstones at the front of a chunk leave no trace. */
  lemma {:induction false} FrontLeavesNoTrace(st: Store, chunk: seq<Rec>, hi: Key, isNew: bool)
    requires chunk != [] && Sorted(chunk) && Lt(hi, LastKey(chunk))
    requires forall r :: r in chunk && r.opt == ADD ==> Lt(hi, r.key)
    ensures var b := Behind(chunk, hi);
            && b != [] && LastKey(b) == LastKey(chunk) && Adds(b) == Adds(chunk)
            && Write(st, b, isNew) == Write(st, chunk, isNew)
  {
    hide Lt;
    hide Write;
    hide Adds;
    hide Behind;
    hide Sorted;
    FrontHasNoAdds(chunk, hi);
    WriteSeesAdds(st, Behind(chunk, hi), chunk, isNew);
  }

  lemma {:induction false} NoAddsUpTo(a: seq<Rec>)
    requires forall j :: 0 <= j < |a| ==> a[j].opt != ADD
    ensures Adds(a) == []
  {
    if a != [] {
      NoAddsUpTo(a[..|a| - 1]);
    }
  }

  lemma {:induction false} SortedParts(a: seq<Rec>, b: seq<Rec>)
    requires Sorted(a + b)
    ensures Sorted(a) && Sorted(b)
  {
    hide Lt;
    var s := a + b;
    assert forall j :: 0 <= j < |a| ==> s[j] == a[j];
    assert forall j :: 0 <= j < |b| ==> s[|a| + j] == b[j];
  }

  lemma {:induction false} SameFirstWrite(st: Store, x: seq<seq<Rec>>, y: seq<seq<Rec>>)
    requires x != [] && y != [] && x[1..] == y[1..]
    requires Write(st.(name := FileName(|st.dir|)), x[0], true) == Write(st.(name := FileName(|st.dir|)), y[0], true)
    ensures WriteNew(st, x) == WriteNew(st, y)
  {
    hide Write;
    hide FileName;
  }

  lemma {:induction false} BehindCuts(a: seq<Rec>, b: seq<Rec>, hi: Key)
    requires Sorted(a + b) && a != [] && Lt(hi, LastKey(a))
    ensures Behind(a + b, hi) == Behind(a, hi) + b
  {
    hide Lt;
    LtIsStrictTotalOrder();
    var s, u := a + b, UpTo(a, hi);
    assert forall j :: 0 <= j < |a| ==> s[j] == a[j];
    assert s[u] == a[u];
    UpToIs(s, hi, u);
  }

  lemma {:induction false} BehindIsAbove(dir: seq<MetaNode>, run: seq<Rec>, hi: Key)
    requires dir != [] && Le(dir[|dir| - 1].end, hi) && Sorted(run)
    ensures var b := Behind(run, hi);
            Sorted(b) && (b != [] ==> Within(b, dir, |dir|, LastKey(b)))
  {
    hide Lt;
    LtIsStrictTotalOrder();
    var n := UpTo(run, hi);
    forall j | n <= j < |run|
      ensures Lt(dir[|dir| - 1].end, run[j].key)
    {
      assert n < j ==> Lt(run[n].key, run[j].key);
    }
  }

  lemma {:induction false} NothingBehindDir(st: Store, hi: Key)
    ensures RoomBefore(st, |st.dir|, hi)
  {
  }

  /** The first chunk behind hi, without ADD records up to hi, and all chunks after it go behind
      the last file. */
  lemma {:induction false} AppendsBehind(st: Store, chunks: seq<seq<Rec>>, hi: Key)
    requires Inv(st) && st.dir != [] && Le(st.dir[|st.dir| - 1].end, hi)
    requires chunks != [] && forall i :: 0 <= i < |chunks| ==> chunks[i] != []
    requires Sorted(Concat(chunks)) && ChunksFit(chunks) && AllHaveAdds(chunks)
    requires |st.dir| + |chunks| < st.maxFiles
    requires Lt(hi, LastKey(chunks[0])) && forall r :: r in chunks[0] && r.opt == ADD ==> Lt(hi, r.key)
    ensures var o := WriteNew(st, chunks);
            && o.Done? && Inv(o.store)
            && Flat(o.store.dir, o.store.files) == Flat(st.dir, st.files) + Adds(Behind(Concat(chunks), hi))
  {
    hide Lt;
    hide Write;
    hide WriteNew;
    hide Inv;
    hide Flat;
    hide Fit;
    hide Adds;
    hide Behind;
    hide Concat;
    hide Sorted;
    hide Within;
    hide FileName;
    var c, rest := chunks[0], chunks[1..];
    FirstAndRest(chunks);
    SortedParts(c, Concat(rest));
    var st1 := st.(name := FileName(|st.dir|));
    FrontLeavesNoTrace(st1, c, hi, true);
    var b := Behind(c, hi);
    var chunks' := [b] + rest;
    assert chunks'[1..] == rest;
    SameFirstWrite(st, chunks, chunks');
    FirstAndRest(chunks');
    BehindCuts(c, Concat(rest), hi);
    BehindIsAbove(st.dir, Concat(chunks), hi);
    var last := LastKey(Concat(chunks'));
    NothingBehindDir(st, last);
    WriteNewCorrect(st, |st.dir|, chunks', last);
    assert st.dir[..|st.dir|] == st.dir && st.dir[|st.dir|..] == [];
    FlatEmpty(st.files);
  }

  lemma {:induction false} HeadOfChunks(st: Store, chunks: seq<seq<Rec>>, hi: Key)
    requires chunks != [] && HeadStored(st, Concat(chunks), hi) && Sorted(Concat(chunks))
    ensures HeadStored(st, chunks[0], hi) && HeadStored(st, Concat(chunks[1..]), hi)
    ensures Sorted(chunks[0]) && Sorted(Concat(chunks[1..]))
  {
    hide Stored;
    hide Lt;
    FirstAndRest(chunks);
    SortedParts(chunks[0], Concat(chunks[1..]));
    var s := chunks[0] + Concat(chunks[1..]);
    assert forall r :: r in chunks[0] || r in Concat(chunks[1..]) ==> r in s;
  }

  lemma {:induction false} StoredIgnoresRest(st: Store, st': Store, run: seq<Rec>, hi: Key)
    requires HeadStored(st, run, hi) && st'.dir == st.dir && st'.files == st.files
    ensures HeadStored(st', run, hi)
  {
    hide Lt;
    hide FileRecs;
    assert forall r :: Stored(st, r) ==> Stored(st', r);
  }

  /** A chunk up to hi that is not dropped spoils the store for good. */
  lemma {:induction false} SpoilsTheStore(st: Store, chunks: seq<seq<Rec>>, r: Rec)
    requires Inv(st) && chunks != [] && ChunkOk(chunks[0]) && LastKey(chunks[0]) !in EndKeys(st.dir)
    requires forall i :: 0 <= i < |chunks| ==> chunks[i] != []
    requires r in chunks[0] && r.opt == ADD && Stored(st, r)
    ensures WriteNew(st, chunks).Done? ==> !Inv(WriteNew(st, chunks).store)
  {
    hide Write;
    hide Inv;
    hide Twice;
    hide Stored;
    hide FileName;
    hide ChunkOk;
    hide EndKeys;
    EnteredTwice(st, chunks[0], r);
    var o := Write(st.(name := FileName(|st.dir|)), chunks[0], true);
    if o.Done? {
      TwiceStaysAll(o.store, chunks[1..], r.key);
      if WriteNew(st, chunks).Done? {
        TwiceIsNotInv(WriteNew(st, chunks).store, r.key);
      }
    }
  }

  lemma {:induction false} EndsBelowHi(dir: seq<MetaNode>, hi: Key, key: Key)
    requires EndsRise(dir) && dir != [] && Le(dir[|dir| - 1].end, hi) && Lt(hi, key)
    ensures key !in EndKeys(dir)
  {
    hide Lt;
    LtIsStrictTotalOrder();
    assert forall j :: 0 <= j < |dir| - 1 ==> Lt(dir[j].end, dir[|dir| - 1].end);
  }

  /** A run of which the ADD records up to hi are stored already, written chunk by chunk behind
      files that end up to hi: the directory invariant survives exactly if the chunks are harmless,
      and then only the records behind hi were added. */
  lemma {:induction false} RestartIff(st: Store, chunks: seq<seq<Rec>>, hi: Key)
    requires Inv(st) && st.dir != [] && Le(st.dir[|st.dir| - 1].end, hi)
    requires chunks != [] && forall i :: 0 <= i < |chunks| ==> chunks[i] != []
    requires Sorted(Concat(chunks)) && ChunksFit(chunks) && AllHaveAdds(chunks)
    requires |st.dir| + |chunks| < st.maxFiles && HeadStored(st, Concat(chunks), hi)
    ensures var o := WriteNew(st, chunks);
            && ((o.Done? && Inv(o.store)) <==> Harmless(EndKeys(st.dir), chunks, hi))
            && (Harmless(EndKeys(st.dir), chunks, hi) ==>
                  Flat(o.store.dir, o.store.files) == Flat(st.dir, st.files) + Adds(Behind(Concat(chunks), hi)))
    decreases |chunks|
  {
    hide Lt;
    hide Write;
    hide WriteNew;
    hide Inv;
    hide Flat;
    hide Fit;
    hide Adds;
    hide Behind;
    hide Concat;
    hide Sorted;
    hide FileName;
    hide HeadStored;
    hide Stored;
    hide EndKeys;
    hide Clean;
    var c, rest := chunks[0], chunks[1..];
    InvEnds(st);
    HeadOfChunks(st, chunks, hi);
    FirstAndRest(chunks);
    if Le(LastKey(c), hi) {
      if LastKey(c) in EndKeys(st.dir) {
        DroppedGoesOn(st, chunks, hi);
        if rest != [] {
          var o := Write(st.(name := FileName(|st.dir|)), c, true);
          RestartIff(Clean(o.store), rest, hi);
          BehindConcat(c, Concat(rest), hi);
        }
      } else {
        var r := AddOfHead(st, c, hi);
        SpoilsTheStore(st, chunks, r);
      }
    } else {
      LtTotal(LastKey(c), hi);
      EndsBelowHi(st.dir, hi, LastKey(c));
      if r :| r in c && r.opt == ADD && !Lt(hi, r.key) {
        LtTotal(hi, r.key);
        StoredOne(st, c, hi, r);
        SpoilsTheStore(st, chunks, r);
      } else {
        AppendsBehind(st, chunks, hi);
      }
    }
  }

  lemma {:induction false} StoredOne(st: Store, run: seq<Rec>, hi: Key, r: Rec)
    requires HeadStored(st, run, hi) && r in run && r.opt == ADD && Le(r.key, hi)
    ensures Stored(st, r)
  {
    hide Stored;
  }

  lemma {:induction false} AddOfHead(st: Store, c: seq<Rec>, hi: Key) returns (r: Rec)
    requires c != [] && Sorted(c) && Adds(c) != [] && Le(LastKey(c), hi) && HeadStored(st, c, hi)
    ensures r in c && r.opt == ADD && Stored(st, r)
  {
    hide Lt;
    hide Stored;
    LtIsStrictTotalOrder();
    r := Adds(c)[0];
    assert r in Adds(c);
    var j :| 0 <= j < |c| && c[j] == r;
    assert j < |c| - 1 ==> Lt(c[j].key, c[|c| - 1].key);
  }

  /** After a dropped chunk: with none left the store stays spoiled, else the rest is written as
      if nothing had happened. */
  lemma {:induction false} DroppedGoesOn(st: Store, chunks: seq<seq<Rec>>, hi: Key)
    requires Inv(st) && chunks != [] && chunks[0] != [] && Adds(chunks[0]) != []
    requires |st.dir| + |chunks| < st.maxFiles && LastKey(chunks[0]) in EndKeys(st.dir)
    requires HeadStored(st, Concat(chunks[1..]), hi)
    ensures var o := Write(st.(name := FileName(|st.dir|)), chunks[0], true);
            && o.Done?
            && (chunks[1..] == [] ==> WriteNew(st, chunks).Done? && !Inv(WriteNew(st, chunks).store))
            && (chunks[1..] != [] ==>
                  var s := Clean(o.store);
                  && WriteNew(st, chunks) == WriteNew(s, chunks[1..])
                  && Inv(s) && s.dir == st.dir && s.files == st.files && s.maxFiles == st.maxFiles
                  && HeadStored(s, Concat(chunks[1..]), hi))
  {
    hide Write;
    hide Inv;
    hide Adds;
    hide FileName;
    hide Concat;
    hide EndKeys;
    hide HeadStored;
    hide Clean;
    Dropped(st, chunks[0]);
    var o := Write(st.(name := FileName(|st.dir|)), chunks[0], true);
    if chunks[1..] == [] {
      NoMoreChunks(o.store, chunks[1..]);
    } else {
      WriteNewIgnoresSpare(o.store, chunks[1..]);
      StoredIgnoresRest(st, Clean(o.store), Concat(chunks[1..]), hi);
    }
  }
}
