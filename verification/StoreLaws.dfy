// The directory invariant, and what each write does to the store read as one sorted run.
module StoreLaws {
  import opened Keys
  import opened Records
  import opened Merging
  import opened Codec
  import opened Images
  import opened Metas
  import opened Stores

  // ---- the store as one run -----------------------------------------------------------

  ghost function FileRecs(files: map<Name, Image>, n: MetaNode): (s: seq<Rec>)
    ensures AllAdds(s)
  {
    if n.name in files then ReadAll(files[n.name]) else []
  }

  /** All files, one behind the other in directory order. */
  ghost function Flat(dir: seq<MetaNode>, files: map<Name, Image>): (s: seq<Rec>)
    ensures AllAdds(s)
  {
    if dir == [] then [] else Flat(dir[..|dir| - 1], files) + FileRecs(files, dir[|dir| - 1])
  }

  lemma {:induction false} FlatConcat(a: seq<MetaNode>, b: seq<MetaNode>, files: map<Name, Image>)
    ensures Flat(a + b, files) == Flat(a, files) + Flat(b, files)
  {
    hide FileRecs;
    if b == [] {
      assert a + b == a;
    } else {
      assert (a + b)[..|a + b| - 1] == a + b[..|b| - 1];
      FlatConcat(a, b[..|b| - 1], files);
    }
  }

  lemma {:induction false} FlatAround(dir: seq<MetaNode>, i: nat, files: map<Name, Image>)
    requires i < |dir|
    ensures Flat(dir, files) == Flat(dir[..i], files) + FileRecs(files, dir[i]) + Flat(dir[i + 1..], files)
  {
    assert dir == dir[..i + 1] + dir[i + 1..];
    FlatConcat(dir[..i + 1], dir[i + 1..], files);
    assert dir[..i + 1][..i] == dir[..i];
  }

  /** Directories that name the same files in the same order read alike. */
  lemma {:induction false} FlatSame(a: seq<MetaNode>, b: seq<MetaNode>, fa: map<Name, Image>, fb: map<Name, Image>)
    requires |a| == |b|
    requires forall i :: 0 <= i < |a| ==> FileRecs(fa, a[i]) == FileRecs(fb, b[i])
    ensures Flat(a, fa) == Flat(b, fb)
  {
    if a != [] {
      FlatSame(a[..|a| - 1], b[..|b| - 1], fa, fb);
    }
  }

  /** A record of the run is in some file. */
  lemma {:induction false} FlatRecInFile(st: Store, n: nat, r: Rec) returns (i: nat)
    requires n <= |st.dir| && r in Flat(st.dir[..n], st.files)
    ensures i < |st.dir| && r in FileRecs(st.files, st.dir[i])
    decreases n
  {
    hide FileRecs;
    if r in FileRecs(st.files, st.dir[n - 1]) {
      i := n - 1;
    } else {
      assert st.dir[..n][..n - 1] == st.dir[..n - 1];
      i := FlatRecInFile(st, n - 1, r);
    }
  }

  lemma {:induction false} OtherFileStays(files: map<Name, Image>, name: Name, f: Image, n: MetaNode)
    requires n.name != name
    ensures FileRecs(files[name := f], n) == FileRecs(files, n)
  {
  }

  // ---- the directory invariant -----------------------------------------------------------

  /** No two nodes share a file, and the files are numbered below the size of the directory,
      so the number of the next file is free. */
  ghost predicate NamesOk(dir: seq<MetaNode>) {
    && (forall i, j :: 0 <= i < j < |dir| ==> dir[i].name != dir[j].name)
    && (forall i :: 0 <= i < |dir| ==> NumberedBelow(dir[i].name, |dir|))
  }

  ghost predicate NumberedBelow(name: Name, n: nat) {
    exists c: nat :: c < n && name == FileName(c)
  }

  ghost predicate LsnsOk(dir: seq<MetaNode>) {
    && (forall i, j :: 0 <= i < j < |dir| ==> dir[i].lsn != dir[j].lsn)
    && (forall i :: 0 <= i < |dir| ==> 1 <= dir[i].lsn <= |dir|)
  }

  /** The keys of a run lie above every end before position p and not above `hi`. */
  ghost predicate Within(run: seq<Rec>, dir: seq<MetaNode>, p: nat, hi: Key) {
    && (0 < p <= |dir| ==> AllAbove(run, dir[p - 1].end))
    && forall j :: 0 <= j < |run| ==> Le(run[j].key, hi)
  }

  /** Records that one file can carry: keys of one length without NUL, offsets the decoder gets back. */
  ghost predicate Fit(adds: seq<Rec>) {
    OneWidth(adds) && Storable(adds)
  }

  ghost predicate FileOk(st: Store, i: nat)
    requires i < |st.dir|
  {
    && st.dir[i].name in st.files
    && st.files[st.dir[i].name].footer.key == st.dir[i].end
    && var s := FileRecs(st.files, st.dir[i]);
       s != [] && Sorted(s) && Fit(s) && Within(s, st.dir, i, st.dir[i].end)
  }

  ghost function NameSet(dir: seq<MetaNode>): set<Name> {
    set i | 0 <= i < |dir| :: dir[i].name
  }

  /** The files on disk are the files of the directory. */
  ghost predicate FilesOk(dir: seq<MetaNode>, files: map<Name, Image>) {
    files.Keys == NameSet(dir)
  }

  ghost predicate Inv(st: Store) {
    && st.maxCount > 0
    && EndsRise(st.dir) && NamesOk(st.dir) && LsnsOk(st.dir) && FilesOk(st.dir, st.files)
    && forall i :: 0 <= i < |st.dir| ==> FileOk(st, i)
  }

  /** A chunk the format can carry. */
  ghost predicate ChunkOk(chunk: seq<Rec>) {
    chunk != [] && Sorted(chunk) && Adds(chunk) != [] && Fit(Adds(chunk))
  }

  lemma {:induction false} WrittenFile(chunk: seq<Rec>, buf: seq<Byte>)
    requires ChunkOk(chunk)
    ensures ReadAll(WriteImage(chunk, buf)) == Adds(chunk)
    ensures WriteImage(chunk, buf).footer.key == LastKey(chunk)
    ensures Sorted(Adds(chunk))
  {
    ReadUndoesWrite(chunk, buf);
    AddsSorted(chunk);
  }

  lemma {:induction false} AddsWithin(chunk: seq<Rec>, dir: seq<MetaNode>, p: nat, hi: Key)
    requires Sorted(chunk) && chunk != [] && Within(chunk, dir, p, hi)
    ensures Within(Adds(chunk), dir, p, LastKey(chunk))
    ensures Le(LastKey(chunk), hi)
    ensures 0 < p <= |dir| ==> Lt(dir[p - 1].end, LastKey(chunk))
  {
    hide Lt;
    var adds := Adds(chunk);
    forall j | 0 <= j < |adds|
      ensures Le(adds[j].key, LastKey(chunk))
      ensures 0 < p <= |dir| ==> Lt(dir[p - 1].end, adds[j].key)
    {
      assert adds[j] in chunk;
      var k :| 0 <= k < |chunk| && chunk[k] == adds[j];
      assert k < |chunk| - 1 ==> Lt(chunk[k].key, chunk[|chunk| - 1].key);
    }
  }

  // ---- overwriting a file -----------------------------------------------------------------

  ghost function Overwritten(st: Store, i: nat, chunk: seq<Rec>): Store
    requires i < |st.dir| && chunk != []
  {
    st.(files := st.files[st.dir[i].name := WriteImage(chunk, st.buf)],
        buf := BufferAfter(chunk, st.buf),
        dir := st.dir[i := st.dir[i].(end := LastKey(chunk))])
  }

  lemma {:induction false} WriteOverIs(st: Store, i: nat, chunk: seq<Rec>)
    requires i < |st.dir| && NamesOk(st.dir) && st.name == st.dir[i].name
    requires chunk != [] && Adds(chunk) != []
    ensures Write(st, chunk, false) == Done(Overwritten(st, i, chunk))
  {
    SetEndAt(st.dir, i, LastKey(chunk));
  }

  lemma {:induction false} OverwriteEnds(dir: seq<MetaNode>, i: nat, end: Key)
    requires i < |dir| && EndsRise(dir) && NamesOk(dir) && LsnsOk(dir)
    requires Le(end, dir[i].end) && (i > 0 ==> Lt(dir[i - 1].end, end))
    ensures var d := dir[i := dir[i].(end := end)]; EndsRise(d) && NamesOk(d) && LsnsOk(d)
  {
    hide Lt;
    hide NumberedBelow;
    LtIsStrictTotalOrder();
  }

  lemma {:induction false} OverwriteOthers(st: Store, i: nat, chunk: seq<Rec>, j: nat)
    requires Inv(st) && i < |st.dir| && j < |st.dir| && j != i && chunk != []
    requires Le(LastKey(chunk), st.dir[i].end)
    ensures FileOk(Overwritten(st, i, chunk), j)
    ensures FileRecs(Overwritten(st, i, chunk).files, Overwritten(st, i, chunk).dir[j]) == FileRecs(st.files, st.dir[j])
  {
    hide Lt;
    hide ReadAll;
    hide WriteImage;
    hide BufferAfter;
    hide EndsRise;
    hide LsnsOk;
    hide FilesOk;
    hide NumberedBelow;
    hide Sorted;
    hide Fit;
    LtIsStrictTotalOrder();
    assert FileOk(st, j);
    assert st.dir[i].name != st.dir[j].name;
  }

  /** Rebuilding a file in its own range keeps the invariant, even when its end moves down
      to the key of a dropped tombstone, and changes that stretch of the store only. */
  lemma {:induction false} OverwriteCorrect(st: Store, i: nat, chunk: seq<Rec>)
    requires Inv(st) && i < |st.dir|
    requires ChunkOk(chunk) && Within(chunk, st.dir, i, st.dir[i].end)
    ensures var st' := Overwritten(st, i, chunk);
            && Inv(st')
            && FileRecs(st'.files, st'.dir[i]) == Adds(chunk)
            && Flat(st'.dir, st'.files) ==
               Flat(st.dir[..i], st.files) + Adds(chunk) + Flat(st.dir[i + 1..], st.files)
  {
    hide Lt;
    hide ReadAll;
    hide WriteImage;
    hide Adds;
    hide Sorted;
    hide Fit;
    hide Storable;
    hide BufferAfter;
    hide NameSet;
    hide NumberedBelow;
    hide Flat;
    var st' := Overwritten(st, i, chunk);
    WrittenFile(chunk, st.buf);
    AddsWithin(chunk, st.dir, i, st.dir[i].end);
    OverwriteEnds(st.dir, i, LastKey(chunk));
    forall j | 0 <= j < |st.dir| && j != i
      ensures FileOk(st', j)
      ensures FileRecs(st'.files, st'.dir[j]) == FileRecs(st.files, st.dir[j])
    {
      OverwriteOthers(st, i, chunk, j);
    }
    assert FileOk(st', i);
    OverwriteFiles(st, i, chunk);
    OverwriteFlat(st, i, chunk);
  }

  lemma {:induction false} OverwriteFiles(st: Store, i: nat, chunk: seq<Rec>)
    requires FilesOk(st.dir, st.files) && i < |st.dir| && chunk != []
    ensures FilesOk(Overwritten(st, i, chunk).dir, Overwritten(st, i, chunk).files)
  {
    hide WriteImage;
    var st' := Overwritten(st, i, chunk);
    assert forall j :: 0 <= j < |st.dir| ==> st'.dir[j].name == st.dir[j].name;
    assert NameSet(st'.dir) == NameSet(st.dir);
    assert st.dir[i].name in NameSet(st.dir);
  }

  lemma {:induction false} OverwriteFlat(st: Store, i: nat, chunk: seq<Rec>)
    requires i < |st.dir| && chunk != []
    requires var st' := Overwritten(st, i, chunk);
             && FileRecs(st'.files, st'.dir[i]) == Adds(chunk)
             && forall j :: 0 <= j < |st.dir| && j != i ==>
                  FileRecs(st'.files, st'.dir[j]) == FileRecs(st.files, st.dir[j])
    ensures var st' := Overwritten(st, i, chunk);
            Flat(st'.dir, st'.files) ==
            Flat(st.dir[..i], st.files) + Adds(chunk) + Flat(st.dir[i + 1..], st.files)
  {
    hide FileRecs;
    hide Adds;
    hide WriteImage;
    var st' := Overwritten(st, i, chunk);
    FlatAround(st'.dir, i, st'.files);
    FlatSame(st.dir[..i], st'.dir[..i], st.files, st'.files);
    FlatSame(st.dir[i + 1..], st'.dir[i + 1..], st.files, st'.files);
  }

  // ---- adding a file -------------------------------------------------------------------------

  ghost function NewNode(st: Store, chunk: seq<Rec>): MetaNode
    requires chunk != []
  {
    MetaNode(LastKey(chunk), FileName(|st.dir|), |Adds(chunk)|, |st.dir| + 1)
  }

  ghost function Inserted(st: Store, p: nat, chunk: seq<Rec>): Store
    requires p <= |st.dir| && chunk != []
  {
    st.(name := FileName(|st.dir|),
        files := st.files[FileName(|st.dir|) := WriteImage(chunk, st.buf)],
        buf := BufferAfter(chunk, st.buf),
        dir := st.dir[..p] + [NewNode(st, chunk)] + st.dir[p..])
  }

  /** Keys up to hi fit in front of what stands at position p. */
  ghost predicate RoomBefore(st: Store, p: nat, hi: Key) {
    p < |st.dir| ==> Lt(hi, st.dir[p].end) && AllAbove(FileRecs(st.files, st.dir[p]), hi)
  }

  lemma {:induction false} WriteInsertIs(st: Store, p: nat, chunk: seq<Rec>)
    requires p <= |st.dir| && EndsRise(st.dir)
    requires chunk != [] && Adds(chunk) != [] && |st.dir| + 1 < st.maxFiles
    requires p > 0 ==> Lt(st.dir[p - 1].end, LastKey(chunk))
    requires p < |st.dir| ==> Lt(LastKey(chunk), st.dir[p].end)
    ensures Write(st.(name := FileName(|st.dir|)), chunk, true) == Done(Inserted(st, p, chunk))
  {
    hide Lt;
    hide Search;
    hide WriteImage;
    hide BufferAfter;
    hide FileName;
    hide Adds;
    SearchIs(st.dir, LastKey(chunk), p);
    hide EndsRise;
    if p < |st.dir| {
      LtAsymmetric(LastKey(chunk), st.dir[p].end);
    }
  }

  lemma {:induction false} InsertEnds(dir: seq<MetaNode>, p: nat, node: MetaNode)
    requires p <= |dir| && EndsRise(dir)
    requires p > 0 ==> Lt(dir[p - 1].end, node.end)
    requires p < |dir| ==> Lt(node.end, dir[p].end)
    ensures EndsRise(dir[..p] + [node] + dir[p..])
  {
    hide Lt;
    LtIsStrictTotalOrder();
  }

  /** A fresh number never collides, and the next lsn is the new size. */
  lemma {:induction false} InsertNames(dir: seq<MetaNode>, p: nat, node: MetaNode)
    requires p <= |dir| && NamesOk(dir) && LsnsOk(dir)
    requires node.name == FileName(|dir|) && node.lsn == |dir| + 1
    ensures var d := dir[..p] + [node] + dir[p..]; NamesOk(d) && LsnsOk(d)
    ensures forall i :: 0 <= i < |dir| ==> dir[i].name != node.name
  {
    hide FileName;
    var d := dir[..p] + [node] + dir[p..];
    forall i | 0 <= i < |dir|
      ensures dir[i].name != node.name && NumberedBelow(dir[i].name, |d|)
    {
      assert NumberedBelow(dir[i].name, |dir|);
      var c: nat :| c < |dir| && dir[i].name == FileName(c);
      if dir[i].name == node.name {
        FileNameInjective(c, |dir|);
      }
    }
    assert NumberedBelow(node.name, |d|);
  }

  /** A file that was there keeps its records and stays in its range. */
  lemma {:induction false} InsertOthers(st: Store, p: nat, chunk: seq<Rec>, j: nat)
    requires Inv(st) && p <= |st.dir| && j < |st.dir| && chunk != []
    requires RoomBefore(st, p, LastKey(chunk))
    requires st.dir[j].name != FileName(|st.dir|)
    ensures var st' := Inserted(st, p, chunk);
            var k := if j < p then j else j + 1;
            && st'.dir[k] == st.dir[j]
            && FileOk(st', k)
            && FileRecs(st'.files, st'.dir[k]) == FileRecs(st.files, st.dir[j])
  {
    hide Lt;
    hide FileRecs;
    hide FilesOk;
    hide WriteImage;
    hide BufferAfter;
    hide EndsRise;
    hide LsnsOk;
    hide NamesOk;
    hide Sorted;
    hide Fit;
    hide FileName;
    assert FileOk(st, j);
    OtherFileStays(st.files, FileName(|st.dir|), WriteImage(chunk, st.buf), st.dir[j]);
    NodeMoves(st, p, NewNode(st, chunk), j);
  }

  /** The node in front of file j stays, unless the new one stands there now. */
  lemma {:induction false} NodeMoves(st: Store, p: nat, node: MetaNode, j: nat)
    requires p <= |st.dir| && j < |st.dir|
    ensures var d := st.dir[..p] + [node] + st.dir[p..];
            var k := if j < p then j else j + 1;
            d[k] == st.dir[j] && (k > 0 ==> d[k - 1] == if j == p then node else st.dir[j - 1])
  {
  }

  lemma {:induction false} InsertNamed(st: Store, p: nat, chunk: seq<Rec>)
    requires FilesOk(st.dir, st.files) && p <= |st.dir| && chunk != []
    ensures FilesOk(Inserted(st, p, chunk).dir, Inserted(st, p, chunk).files)
  {
    hide WriteImage;
    hide FileName;
    var st' := Inserted(st, p, chunk);
    NamesOfInserted(st.dir, p, NewNode(st, chunk));
  }

  lemma {:induction false} NamesOfInserted(dir: seq<MetaNode>, p: nat, node: MetaNode)
    requires p <= |dir|
    ensures NameSet(dir[..p] + [node] + dir[p..]) == NameSet(dir) + {node.name}
  {
    var d := dir[..p] + [node] + dir[p..];
    forall n
      ensures n in NameSet(d) <==> n in NameSet(dir) || n == node.name
    {
      if n in NameSet(dir) {
        var j :| 0 <= j < |dir| && dir[j].name == n;
        assert d[if j < p then j else j + 1].name == n;
      }
      if n in NameSet(d) {
        var j :| 0 <= j < |d| && d[j].name == n;
        assert j != p ==> dir[if j < p then j else j - 1].name == n;
      }
      assert d[p].name == node.name;
    }
  }

  lemma {:induction false} InsertFiles(st: Store, p: nat, chunk: seq<Rec>)
    requires Inv(st) && p <= |st.dir| && chunk != []
    requires RoomBefore(st, p, LastKey(chunk))
    requires ReadAll(WriteImage(chunk, st.buf)) == Adds(chunk)
    requires WriteImage(chunk, st.buf).footer.key == LastKey(chunk)
    requires Adds(chunk) != [] && Sorted(Adds(chunk)) && Fit(Adds(chunk))
    requires Within(Adds(chunk), st.dir, p, LastKey(chunk))
    requires forall i :: 0 <= i < |st.dir| ==> st.dir[i].name != FileName(|st.dir|)
    ensures var st' := Inserted(st, p, chunk);
            && (forall k :: 0 <= k < |st'.dir| ==> FileOk(st', k))
            && FileRecs(st'.files, st'.dir[p]) == Adds(chunk)
            && forall j :: 0 <= j < |st.dir| ==> FileRecs(st'.files, st.dir[j]) == FileRecs(st.files, st.dir[j])
  {
    hide Lt;
    hide ReadAll;
    hide WriteImage;
    hide Adds;
    hide Sorted;
    hide Fit;
    hide FileName;
    hide Inv;
    hide RoomBefore;
    var st' := Inserted(st, p, chunk);
    assert st'.dir[p].end == LastKey(chunk) && st'.dir[..p] == st.dir[..p];
    forall k | 0 <= k < |st'.dir|
      ensures FileOk(st', k)
    {
      if k != p {
        InsertOthers(st, p, chunk, if k < p then k else k - 1);
      }
    }
  }

  lemma {:induction false} InsertCorrect(st: Store, p: nat, chunk: seq<Rec>)
    requires Inv(st) && p <= |st.dir|
    requires ChunkOk(chunk) && Within(chunk, st.dir, p, LastKey(chunk))
    requires RoomBefore(st, p, LastKey(chunk))
    ensures var st' := Inserted(st, p, chunk);
            && Inv(st')
            && Flat(st'.dir, st'.files) ==
               Flat(st.dir[..p], st.files) + Adds(chunk) + Flat(st.dir[p..], st.files)
            && Flat(st'.dir[..p + 1], st'.files) == Flat(st.dir[..p], st.files) + Adds(chunk)
            && Flat(st'.dir[p + 1..], st'.files) == Flat(st.dir[p..], st.files)
  {
    hide Lt;
    hide ReadAll;
    hide WriteImage;
    hide Adds;
    hide Sorted;
    hide Fit;
    hide FileName;
    hide NamesOk;
    hide LsnsOk;
    hide EndsRise;
    var st' := Inserted(st, p, chunk);
    WrittenFile(chunk, st.buf);
    AddsWithin(chunk, st.dir, p, LastKey(chunk));
    InsertEnds(st.dir, p, NewNode(st, chunk));
    InsertNames(st.dir, p, NewNode(st, chunk));
    InsertFiles(st, p, chunk);
    InsertNamed(st, p, chunk);
    hide Inserted;
    hide Within;
    InsertFlat(st, p, chunk);
  }

  lemma {:induction false} InsertFlat(st: Store, p: nat, chunk: seq<Rec>)
    requires p <= |st.dir| && chunk != []
    requires var st' := Inserted(st, p, chunk);
             && FileRecs(st'.files, st'.dir[p]) == Adds(chunk)
             && forall j :: 0 <= j < |st.dir| ==> FileRecs(st'.files, st.dir[j]) == FileRecs(st.files, st.dir[j])
    ensures var st' := Inserted(st, p, chunk);
            && Flat(st'.dir, st'.files) ==
               Flat(st.dir[..p], st.files) + Adds(chunk) + Flat(st.dir[p..], st.files)
            && Flat(st'.dir[..p + 1], st'.files) == Flat(st.dir[..p], st.files) + Adds(chunk)
            && Flat(st'.dir[p + 1..], st'.files) == Flat(st.dir[p..], st.files)
  {
    hide FileRecs;
    hide Adds;
    hide WriteImage;
    var st' := Inserted(st, p, chunk);
    assert st'.dir[..p] == st.dir[..p] && st'.dir[p + 1..] == st.dir[p..];
    FlatAround(st'.dir, p, st'.files);
    FlatSame(st.dir[..p], st.dir[..p], st.files, st'.files);
    FlatSame(st.dir[p..], st.dir[p..], st.files, st'.files);
    assert st'.dir[..p + 1][..p] == st'.dir[..p];
  }
}
