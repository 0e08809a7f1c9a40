// The file layer as the program runs it.
module Silopits {
  import opened Keys
  import opened Records
  import opened Codec
  import opened Images
  import opened Jikukans
  import opened Metas
  import opened Stores
  import opened Hiraishins
  import opened Reload

  // ---- one more node of a chunk ------------------------------------------------------

  lemma {:induction false} AddsSnoc(a: seq<Rec>, r: Rec)
    ensures Adds(a + [r]) == if r.opt == ADD then Adds(a) + [r] else Adds(a)
  {
    assert (a + [r])[..|a|] == a;
  }

  lemma {:induction false} AddsOfNext(recs: seq<Rec>, q: nat, i: nat)
    requires q <= i < |recs|
    ensures Adds(recs[q..i + 1]) == if recs[i].opt == ADD then Adds(recs[q..i]) + [recs[i]] else Adds(recs[q..i])
  {
    hide Adds;
    assert recs[q..i + 1] == recs[q..i] + [recs[i]];
    AddsSnoc(recs[q..i], recs[i]);
  }

  lemma {:induction false} StatsOfNext(recs: seq<Rec>, q: nat, i: nat)
    requires q <= i < |recs|
    ensures var a, b := Adds(recs[q..i]), Adds(recs[q..i + 1]);
            && |b| == |a| + (if recs[i].opt == ADD then 1 else 0)
            && MaxLen(b) == if recs[i].opt == ADD && |recs[i].key| >= MaxLen(a) then |recs[i].key| + 1 else MaxLen(a)
  {
    AddsOfNext(recs, q, i);
    var a := Adds(recs[q..i]);
    hide Adds;
    assert (a + [recs[i]])[..|a|] == a;
  }

  lemma {:induction false} DataOfNext(recs: seq<Rec>, q: nat, i: nat)
    requires q <= i < |recs|
    ensures var a, b := Data(Adds(recs[q..i])), Data(Adds(recs[q..i + 1]));
            b == if recs[i].opt == ADD then a + RecBytes(recs[i]) else a
  {
    AddsOfNext(recs, q, i);
    var a := Adds(recs[q..i]);
    hide Adds;
    hide RecBytes;
    assert (a + [recs[i]])[..|a|] == a;
  }

  lemma {:induction false} EmptyChunkStats(recs: seq<Rec>, q: nat)
    requires q <= |recs|
    ensures Adds(recs[q..q]) == [] && MaxLen([]) == 1 && Data([]) == []
  {
  }

  /** What writing the data of a chunk leaves behind. */
  ghost function Stored(st: Store, data: seq<Byte>, last: Key, n: nat, w: nat, isNew: bool): Store {
    var node := MetaNode(last, st.name, n, 0);
    st.(files := st.files[st.name := Image(Take(data, st.buf, n * (w + 8)), Footer(last, n, F_CRC, n * (w + 8), w))],
        buf := if |data| <= |st.buf| then data + st.buf[|data|..] else data,
        dir := if isNew then WithNode(st.dir, node) else SetEnd(st.dir, st.name, last))
  }

  lemma {:induction false} WriteIs(st: Store, chunk: seq<Rec>, isNew: bool)
    ensures var adds := Adds(chunk);
            && (adds != [] ==> chunk != [])
            && Write(st, chunk, isNew) ==
               if adds == [] then Stopped(EmptyChunk)
               else if isNew && |st.dir| + 1 >= st.maxFiles && !EndIsThere(st.dir, LastKey(chunk))
                 then Stopped(DirectoryFull)
               else Done(Stored(st, Data(adds), chunk[|chunk| - 1].key, |adds|, MaxLen(adds), isNew))
  {
    hide WithNode;
    hide SetEnd;
    hide Take;
    hide Data;
    hide MaxLen;
    EmptyChunkStats(chunk, 0);
  }

  // ---- the chunk counts of the two flushes ------------------------------------------------

  /** The number of records in k full chunks. */
  function Full(k: nat, m: nat): nat {
    k * m
  }

  lemma {:induction false} FullChunksLeft(k: nat, m: nat)
    ensures k > 0 ==> Full(k, m) == Full(k - 1, m) + m
    ensures k == 0 ==> Full(k, m) == 0
  {
  }

  lemma {:induction false} FlushNewCounts(count: nat, m: nat)
    requires m > 0 && count > 2 * m
    ensures count / m >= 2 && Full(count / m - 1, m) + (m + count % m) == count
  {
    assert count == count / m * m + count % m;
    if count / m < 2 {
      MulStep(count / m, 2, m);
      assert false;
    }
  }

  lemma {:induction false} MulStep(a: nat, b: nat, m: nat)
    requires a < b
    ensures a * m + m <= b * m
  {
    if a + 1 < b {
      MulStep(a, b - 1, m);
    }
    assert b * m == (b - 1) * m + m;
  }

  lemma {:induction false} FlushMergeCounts(count: nat, m: nat)
    requires m > 0 && count > 2 * m
    ensures m + Full((count - m * 2) / m, m) + (count % m + m) == count
  {
    var d := count - m * 2;
    assert d == d / m * m + d % m;
    assert count == (d / m + 2) * m + d % m;
    RemainderIs(count, d / m + 2, m, d % m);
  }

  lemma {:induction false} RemainderIs(n: nat, a: nat, m: nat, r: nat)
    requires m > 0 && n == a * m + r && r < m
    ensures n % m == r
  {
    var b := n / m;
    assert n == b * m + n % m;
    if a < b {
      MulStep(a, b, m);
      assert false;
    } else if b < a {
      MulStep(b, a, m);
      assert false;
    }
  }

  lemma {:induction false} SliceOfSlice(s: seq<Rec>, at: nat, end: nat, m: nat)
    requires at + m <= end <= |s|
    ensures s[at..end][..m] == s[at..at + m] && s[at..end][m..] == s[at + m..end]
  {
  }

  lemma {:induction false} SplitOne(st: Store, run: seq<Rec>, m: nat)
    requires m > 0 && |run| >= 2 * m
    ensures var o := Write(st.(name := FileName(|st.dir|)), run[..m], true);
            WriteNew(st, Split(run, m)) == if o.Done? then WriteNew(o.store, Split(run[m..], m)) else o
  {
    hide Write;
    assert Split(run, m)[1..] == Split(run[m..], m);
  }

  lemma {:induction false} SplitLast(st: Store, run: seq<Rec>, m: nat)
    requires 0 < m <= |run| < 2 * m
    ensures WriteNew(st, Split(run, m)) == Write(st.(name := FileName(|st.dir|)), run, true)
  {
    hide Write;
    var o := Write(st.(name := FileName(|st.dir|)), run, true);
    assert Split(run, m) == [run] && [run][1..] == [];
    assert o.Done? ==> WriteNew(o.store, []) == o;
  }

  lemma {:induction false} OneChunk(st: Store, run: seq<Rec>)
    requires st.maxCount > 0 && |run| <= 2 * st.maxCount
    ensures FlushNew(st, run) == Write(st.(name := FileName(|st.dir|)), run, true)
  {
    hide Write;
    var o := Write(st.(name := FileName(|st.dir|)), run, true);
    assert Chunks(run, st.maxCount) == [run] && [run][1..] == [];
    assert o.Done? ==> WriteNew(o.store, []) == o;
  }

  lemma {:induction false} FlushMergeOne(st: Store, run: seq<Rec>)
    requires st.maxCount > 0 && |run| <= 2 * st.maxCount
    ensures FlushMerge(st, run) == Write(st, run, false)
  {
    hide Write;
    assert Chunks(run, st.maxCount) == [run] && [run][1..] == [];
  }

  lemma {:induction false} FlushMergeMore(st: Store, run: seq<Rec>)
    requires st.maxCount > 0 && |run| > 2 * st.maxCount
    ensures var o := Write(st, run[..st.maxCount], false);
            FlushMerge(st, run) == if o.Done? then WriteNew(o.store, Split(run[st.maxCount..], st.maxCount)) else o
  {
    hide Write;
    hide WriteNew;
    var chunks := Chunks(run, st.maxCount);
    assert chunks[0] == run[..st.maxCount] && chunks[1..] == Split(run[st.maxCount..], st.maxCount);
  }

  // ---- the steps of the walk ------------------------------------------------------------

  lemma {:induction false} UpsertGrows(s: seq<Rec>, r: Rec)
    ensures |Upsert(s, r)| <= |s| + 1
  {
  }

  /** Bring file i under construction: flush if another file is open, load if none is. */
  ghost function Routed(st: Store, merge: Option<seq<Rec>>, i: nat): (r: (Outcome, seq<Rec>))
    requires st.maxCount > 0 && i < |st.dir|
    ensures r.0.Done? ==> r.0.store.maxCount > 0
  {
    LimitsStay(st, merge);
    var same := st.name == st.dir[i].name;
    var o := if same then Done(st) else FlushOpen(st, merge);
    if o.Stopped? then (o, []) else
      var st' := if same then st else o.store.(name := o.store.dir[i].name);
      var open := if same && merge.Some? then merge else Load(st', st'.name);
      if open.None? then (Stopped(MissingFile), []) else (Done(st'), open.value)
  }

  lemma {:induction false} WalkRoutes(st: Store, merge: Option<seq<Rec>>, list: seq<Rec>, pos: nat, i: nat)
    requires st.maxCount > 0 && pos < |list| && i == Search(st.dir, list[pos].key) < |st.dir|
    ensures var (o, open) := Routed(st, merge, i);
            Walk(st, merge, list, pos) ==
            if o.Stopped? then o else Walk(o.store, Some(Upsert(open, list[pos])), list, pos + 1)
  {
    hide Search;
    hide FlushOpen;
    hide Load;
    hide Upsert;
    LimitsStay(st, merge);
  }

  lemma {:induction false} WalkStops(st: Store, merge: Option<seq<Rec>>, list: seq<Rec>)
    requires st.maxCount > 0
    ensures Walk(st, merge, list, |list|) == FlushOpen(st, merge)
  {
    LimitsStay(st, merge);
  }

  lemma {:induction false} NothingToRead(f: Image, size: nat)
    requires size > 0 && f.footer.count == 0
    ensures BitsOf(ReadAll(f), size) == {}
  {
  }

  lemma {:induction false} WithNodeGrows(dir: seq<MetaNode>, node: MetaNode)
    ensures |WithNode(dir, node)| <= |dir| + 1
  {
  }

  class Silopit {
    var name: Name
    var files: map<Name, Image>
    var buf: seq<Byte>
    const meta: Meta
    const filter: Hiraishin
    const maxCount: nat

    ghost predicate Valid()
      reads this, meta
    {
      meta.Valid() && maxCount > 0 && filter.Valid() && filter.bitset as object != meta.nodes
    }

    ghost function State(): Store
      requires Valid()
      reads this, meta, meta.nodes
    {
      Store(meta.Dir(), files, name, buf, maxCount, meta.nodes.Length)
    }

    /** Open a directory with the given files, listed in the given order. */
    constructor (maxCount: nat, maxFiles: nat, filterSize: nat, files: map<Name, Image>, order: seq<Name>)
      requires maxCount > 0 && filterSize > 0
      requires forall n :: n in order ==> n in files
      requires order != [] ==> |order| + 1 < maxFiles
      ensures Valid() && fresh(meta) && fresh(meta.nodes) && fresh(filter) && fresh(filter.bitset)
      ensures State() == Store(LoadDir(files, order), files, [], [], maxCount, maxFiles)
      ensures filter.size == filterSize && filter.Bits() == LoadBits(files, order, filterSize)
    {
      name, buf := [], [];
      this.files := files;
      this.maxCount := maxCount;
      var m := new Meta(maxFiles);
      meta := m;
      filter := new Hiraishin(filterSize);
      new;
      LoadFiles(order);
    }

    // ---- writing a chunk ------------------------------------------------------------

    /** Count the ADD records of a chunk and size their key field. */
    method PrepareStats(list: Jikukan, x0: nat, count: nat, ghost q: nat) returns (adds: nat, maxLen: nat)
      requires list.Valid() && list.At(x0, q) && q + count <= list.count
      ensures adds == |Adds(list.Recs()[q..q + count])|
      ensures maxLen == MaxLen(Adds(list.Recs()[q..q + count]))
    {
      hide Linked;
      hide Chain;
      hide Adds;
      hide MaxLen;
      var x := x0;
      ghost var recs := list.Recs();
      adds, maxLen := 0, 1;
      EmptyChunkStats(recs, q);
      for i := 0 to count
        invariant list.At(x, q + i)
        invariant adds == |Adds(recs[q..q + i])| && maxLen == MaxLen(Adds(recs[q..q + i]))
      {
        list.NodeAt(x, q + i);
        StatsOfNext(recs, q, q + i);
        if list.pool[x].opt == ADD {
          var klen := |list.pool[x].key|;
          adds := adds + 1;
          if klen >= maxLen {
            maxLen := klen + 1;
          }
        }
        x := list.pool[x].forward[0];
      }
    }

    /** Append each ADD record of a chunk to the buffer. */
    method Serialize(list: Jikukan, x0: nat, count: nat, ghost q: nat) returns (data: seq<Byte>, last: Key, x: nat)
      requires list.Valid() && list.At(x0, q) && q + count <= list.count
      ensures data == Data(Adds(list.Recs()[q..q + count]))
      ensures count > 0 ==> last == list.Recs()[q + count - 1].key
      ensures list.At(x, q + count)
    {
      hide Linked;
      hide Chain;
      hide Adds;
      hide Data;
      hide PutLong;
      ghost var recs := list.Recs();
      data, last, x := [], [], x0;
      EmptyChunkStats(recs, q);
      for i := 0 to count
        invariant list.At(x, q + i)
        invariant data == Data(Adds(recs[q..q + i]))
        invariant i > 0 ==> last == recs[q + i - 1].key
      {
        list.NodeAt(x, q + i);
        DataOfNext(recs, q, q + i);
        if list.pool[x].opt == ADD {
          data := data + (list.pool[x].key + [0] + PutLong(list.pool[x].val));
        }
        last := list.pool[x].key;
        x := list.pool[x].forward[0];
      }
    }

    /** Store the file and enter it into the directory: the end of the mapping of _write_mmap. */
    method PutFile(data: seq<Byte>, last: Key, n: nat, w: nat, isNew: bool)
      requires Valid() && (isNew ==> meta.size + 1 < meta.nodes.Length || EndIsThere(meta.Dir(), last))
      modifies this`files, this`buf, meta`size, meta.nodes
      ensures Valid()
      ensures State() == Stored(old(State()), data, last, n, w, isNew)
    {
      hide Search;
      hide WithNode;
      hide SetEnd;
      hide Take;
      files := files[name := Image(Take(data, buf, n * (w + 8)), Footer(last, n, F_CRC, n * (w + 8), w))];
      buf := if |data| <= |buf| then data + buf[|data|..] else data;
      var mn := MetaNode(last, name, n, 0);
      if isNew {
        meta.Set(mn);
      } else {
        meta.SetByName(mn);
      }
    }

    /** Write `count` records from x on into the current file; None means no fault. */
    method WriteMmap(list: Jikukan, x0: nat, count: nat, isNew: bool, ghost q: nat)
      returns (fault: Option<Fault>, x: nat)
      requires Valid() && list.Valid() && list.At(x0, q) && q + count <= list.count
      modifies this`files, this`buf, meta`size, meta.nodes
      ensures Valid()
      ensures fault == None ==> list.At(x, q + count)
      ensures Write(old(State()), list.Recs()[q..q + count], isNew) ==
              if fault == None then Done(State()) else Stopped(fault.value)
    {
      hide Linked;
      hide Chain;
      hide Write;
      hide Stored;
      hide Adds;
      hide MaxLen;
      hide Data;
      ghost var chunk := list.Recs()[q..q + count];
      WriteIs(State(), chunk, isNew);
      x := x0;
      var n, w := PrepareStats(list, x0, count, q);
      if n == 0 {
        return Some(EmptyChunk), x;
      }
      var data, last;
      data, last, x := Serialize(list, x0, count, q);
      if isNew && meta.size + 1 >= meta.nodes.Length {
        var i, found := meta.Slot(last);
        if !found {
          return Some(DirectoryFull), x;
        }
      }
      PutFile(data, last, n, w, isNew);
      fault := None;
    }

    // ---- flushing a run ----------------------------------------------------------------

    /** Take the next free file name and write a chunk under it. */
    method WriteNextFile(list: Jikukan, x0: nat, count: nat, ghost q: nat) returns (fault: Option<Fault>, x: nat)
      requires Valid() && list.Valid() && list.At(x0, q) && q + count <= list.count
      modifies this`name, this`files, this`buf, meta`size, meta.nodes
      ensures Valid()
      ensures fault == None ==> list.At(x, q + count)
      ensures var st := old(State());
              Write(st.(name := FileName(|st.dir|)), list.Recs()[q..q + count], true) ==
              if fault == None then Done(State()) else Stopped(fault.value)
    {
      hide Linked;
      hide Chain;
      hide Write;
      hide FileName;
      name := FileName(meta.size);
      fault, x := WriteMmap(list, x0, count, true, q);
    }

    /** `full` chunks of maxCount records, then one of `rest`, each into a file of its own. */
    method WriteFiles(list: Jikukan, x0: nat, full: nat, rest: nat, ghost q: nat) returns (fault: Option<Fault>)
      requires Valid() && list.Valid() && list.At(x0, q) && q + Full(full, maxCount) + rest <= list.count
      requires maxCount <= rest < 2 * maxCount
      modifies this`name, this`files, this`buf, meta`size, meta.nodes
      ensures Valid()
      ensures WriteNew(old(State()), Split(list.Recs()[q..q + Full(full, maxCount) + rest], maxCount)) ==
              if fault == None then Done(State()) else Stopped(fault.value)
    {
      hide Linked;
      hide Chain;
      hide Write;
      hide Split;
      hide WriteNew;
      hide Full;
      ghost var recs, end := list.Recs(), q + Full(full, maxCount) + rest;
      ghost var all := WriteNew(State(), Split(recs[q..end], maxCount));
      ghost var at: nat := q;
      var x := x0;
      for i := 0 to full
        invariant Valid() && list.At(x, at)
        invariant at + Full(full - i, maxCount) + rest == end
        invariant WriteNew(State(), Split(recs[at..end], maxCount)) == all
      {
        FullChunksLeft(full - i, maxCount);
        assert full - (i + 1) == full - i - 1;
        SplitOne(State(), recs[at..end], maxCount);
        SliceOfSlice(recs, at, end, maxCount);
        fault, x := WriteNextFile(list, x, maxCount, at);
        if fault != None {
          return;
        }
        at := at + maxCount;
      }
      FullChunksLeft(0, maxCount);
      SplitLast(State(), recs[at..end], maxCount);
      fault, x := WriteNextFile(list, x, rest, at);
    }

    /** Flush `count` records from x on into new files. */
    method FlushNewList(list: Jikukan, x: nat, count: nat, ghost q: nat) returns (fault: Option<Fault>)
      requires Valid() && list.Valid() && list.At(x, q) && q + count <= list.count
      modifies this`name, this`files, this`buf, meta`size, meta.nodes
      ensures Valid()
      ensures FlushNew(old(State()), list.Recs()[q..q + count]) ==
              if fault == None then Done(State()) else Stopped(fault.value)
    {
      hide Linked;
      hide Chain;
      hide Write;
      hide Split;
      hide WriteNew;
      ghost var run := list.Recs()[q..q + count];
      if count <= maxCount * 2 {
        var end: nat;
        fault, end := WriteNextFile(list, x, count, q);
        OneChunk(old(State()), run);
      } else {
        var mul, rem := count / maxCount, count % maxCount;
        FlushNewCounts(count, maxCount);
        fault := WriteFiles(list, x, mul - 1, maxCount + rem, q);
      }
    }

    /** Flush a rebuilt file: the first chunk under its own name, the others into new files. */
    method FlushMergeList(list: Jikukan) returns (fault: Option<Fault>)
      requires Valid() && list.Valid()
      modifies this`name, this`files, this`buf, meta`size, meta.nodes
      ensures Valid()
      ensures FlushMerge(old(State()), list.Recs()) ==
              if fault == None then Done(State()) else Stopped(fault.value)
    {
      hide Linked;
      hide Chain;
      hide Write;
      hide WriteNew;
      hide Split;
      hide FlushMerge;
      list.FirstAt();
      var x, count := list.pool[0].forward[0], list.count;
      ghost var run := list.Recs();
      assert run[0..count] == run;
      if count <= maxCount * 2 {
        FlushMergeOne(State(), run);
        fault, x := WriteMmap(list, x, count, false, 0);
      } else {
        FlushMergeMore(State(), run);
        fault, x := WriteMmap(list, x, maxCount, false, 0);
        if fault == None {
          var mul := (count - maxCount * 2) / maxCount;
          var rem := count % maxCount;
          FlushMergeCounts(count, maxCount);
          assert run[maxCount..count] == run[maxCount..];
          fault := WriteFiles(list, x, mul, rem + maxCount, maxCount);
        }
      }
    }

    // ---- merging -----------------------------------------------------------------------

    /** Load the current file into a list with room for its records and `count` more. */
    method ReadMmap(count: nat) returns (fault: Option<Fault>, merge: Jikukan?)
      requires Valid()
      ensures fault == None <==> merge != null
      ensures fault != None ==> fault == Some(MissingFile) && Load(State(), name) == None
      ensures merge != null ==>
                && fresh(merge) && merge.Valid() && Load(State(), name) == Some(merge.Recs())
                && |merge.Recs()| + count < merge.size
    {
      hide Linked;
      hide Chain;
      hide Upsert;
      hide ReadRec;
      if name !in files {
        return Some(MissingFile), null;
      }
      var f := files[name];
      var list := new Jikukan(f.footer.count + count + 1);
      ghost var all := ReadAll(f);
      for i := 0 to f.footer.count
        invariant fresh(list) && list.Valid() && list.size == f.footer.count + count + 1
        invariant list.Recs() == UpsertAll([], all[..i]) && |list.Recs()| <= i
      {
        var r := ReadRec(f, i);
        assert all[..i + 1][..i] == all[..i] && all[i] == r;
        UpsertGrows(list.Recs(), r);
        var ok := list.Insert(r.key, r.val, r.opt);
        assert ok && r == Rec(r.key, r.val, r.opt);
      }
      assert all[..f.footer.count] == all;
      return None, list;
    }

    ghost function Open(merge: Jikukan?): Option<seq<Rec>>
      reads merge
      requires merge != null ==> merge.Valid()
    {
      if merge == null then None else Some(merge.Recs())
    }

    /** Flush the run under construction, if there is one. */
    method FlushOpenList(merge: Jikukan?) returns (fault: Option<Fault>)
      requires Valid() && (merge != null ==> merge.Valid())
      modifies this`name, this`files, this`buf, meta`size, meta.nodes
      ensures Valid()
      ensures FlushOpen(old(State()), Open(merge)) ==
              if fault == None then Done(State()) else Stopped(fault.value)
    {
      hide FlushMerge;
      fault := None;
      if merge != null {
        fault := FlushMergeList(merge);
      }
    }

    /** Bring file i under construction; `left` more records may go into it. */
    method Route(merge0: Jikukan?, i: nat, count: nat, ghost left: nat) returns (fault: Option<Fault>, merge: Jikukan?)
      requires Valid() && i < meta.size && left <= count
      requires merge0 != null ==> merge0.Valid() && |merge0.Recs()| + left < merge0.size
      modifies this`name, this`files, this`buf, meta`size, meta.nodes
      ensures Valid()
      ensures fault == None ==>
                && merge != null && (merge == merge0 || fresh(merge)) && merge.Valid()
                && |merge.Recs()| + left < merge.size
                && Routed(old(State()), old(Open(merge0)), i) == (Done(State()), merge.Recs())
      ensures fault != None ==> Routed(old(State()), old(Open(merge0)), i).0 == Stopped(fault.value)
    {
      hide Linked;
      hide Chain;
      hide FlushOpen;
      hide Load;
      merge := merge0;
      LimitsStay(State(), Open(merge));
      if name != meta.nodes[i].name {
        fault := FlushOpenList(merge);
        if fault != None {
          return;
        }
        name := meta.nodes[i].name;
        merge := null;
      }
      fault := None;
      if merge == null {
        fault, merge := ReadMmap(count);
      }
    }

    /** Put one node of the list into the run of file i. */
    method Collect(merge0: Jikukan?, i: nat, r: Rec, count: nat, ghost left: nat)
      returns (fault: Option<Fault>, merge: Jikukan?)
      requires Valid() && i < meta.size && 0 < left <= count
      requires merge0 != null ==> merge0.Valid() && |merge0.Recs()| + left < merge0.size
      modifies this`name, this`files, this`buf, meta`size, meta.nodes, merge0
      ensures Valid()
      ensures fault == None ==>
                && merge != null && (merge == merge0 || fresh(merge)) && merge.Valid()
                && |merge.Recs()| + (left - 1) < merge.size
                && var (o, open) := Routed(old(State()), old(Open(merge0)), i);
                   o == Done(State()) && merge.Recs() == Upsert(open, r)
      ensures fault != None ==> Routed(old(State()), old(Open(merge0)), i).0 == Stopped(fault.value)
    {
      hide Linked;
      hide Chain;
      hide Routed;
      hide Upsert;
      fault, merge := Route(merge0, i, count, left);
      if fault == None {
        UpsertGrows(merge.Recs(), r);
        var ok := merge.Insert(r.key, r.val, r.opt);
        assert r == Rec(r.key, r.val, r.opt);
      }
    }

    /** The walk over the list. */
    method FlushList(list: Jikukan) returns (fault: Option<Fault>)
      requires Valid() && list.Valid()
      modifies this`name, this`files, this`buf, meta`size, meta.nodes
      ensures Valid()
      ensures Walk(old(State()), None, list.Recs(), 0) ==
              if fault == None then Done(State()) else Stopped(fault.value)
    {
      hide Linked;
      hide Chain;
      hide Search;
      hide FlushOpen;
      hide FlushNew;
      hide Load;
      hide Upsert;
      hide Walk;
      hide Routed;
      list.FirstAt();
      var first, count := list.pool[0].forward[0], list.count;
      var cur, pos := first, 0;
      var merge: Jikukan? := null;
      ghost var recs, all := list.Recs(), Walk(State(), None, list.Recs(), 0);
      list.EndAt(cur, 0);
      while cur != 0
        invariant Valid() && list.Valid() && list.Recs() == recs && list.At(cur, pos)
        invariant cur == 0 <==> pos == count
        invariant list.pool == old(list.pool)
        invariant merge != null ==> fresh(merge) && merge.Valid() && |merge.Recs()| + (count - pos) < merge.size
        invariant Walk(State(), Open(merge), recs, pos) == all
        decreases count - pos
      {
        list.NodeAt(cur, pos);
        var node := list.pool[cur];
        var i := meta.Get(node.key);
        if i == meta.size {
          WalkRestarts(State(), Open(merge), recs, pos);
          fault := FlushOpenList(merge);
          if fault == None {
            list.FirstAt();
            fault := FlushNewList(list, first, count - pos, 0);
          }
          return;
        }
        WalkRoutes(State(), Open(merge), recs, pos, i);
        fault, merge := Collect(merge, i, Rec(node.key, node.val, node.opt), count, count - pos);
        if fault != None {
          return;
        }
        pos := pos + 1;
        cur := node.forward[0];
        list.EndAt(cur, pos);
      }
      WalkStops(State(), Open(merge), recs);
      fault := FlushOpenList(merge);
    }

    /** Set the filter's bits for every key a replayed list adds. */
    method AddListBits(list: Jikukan)
      requires Valid() && list.Valid()
      modifies filter`count, filter.bitset
      ensures filter.Bits() == old(filter.Bits()) + AddedBits(list.Recs(), filter.size)
    {
      hide Linked;
      hide Chain;
      hide TestBit;
      hide Positions;
      ghost var recs := list.Recs();
      list.FirstAt();
      var cur := list.pool[0].forward[0];
      ghost var pos: nat := 0;
      list.EndAt(cur, 0);
      while cur != 0
        invariant list.At(cur, pos) && (cur == 0 <==> pos == list.count)
        invariant filter.Bits() == old(filter.Bits()) + AddedBits(recs[..pos], filter.size)
        decreases list.count - pos
      {
        list.NodeAt(cur, pos);
        assert recs[..pos + 1][..pos] == recs[..pos];
        if list.pool[cur].opt == ADD {
          filter.Add(list.pool[cur].key);
        }
        cur := list.pool[cur].forward[0];
        pos := pos + 1;
        list.EndAt(cur, pos);
      }
      assert recs[..pos] == recs;
    }

    /** Fold a list into the files; one that was replayed from the log is entered into the filter first. */
    method Merge(list: Jikukan, fromLog: bool) returns (fault: Option<Fault>)
      requires Valid() && list.Valid()
      modifies this`name, this`files, this`buf, meta`size, meta.nodes, filter`count, filter.bitset
      ensures Valid()
      ensures Stores.Merge(old(State()), list.Recs()) ==
              if fault == None then Done(State()) else Stopped(fault.value)
      ensures filter.Bits() == old(filter.Bits()) + if fromLog then AddedBits(list.Recs(), filter.size) else {}
    {
      hide Linked;
      hide Chain;
      hide FlushNew;
      hide Walk;
      hide TestBit;
      hide AddedBits;
      if fromLog {
        AddListBits(list);
      }
      if meta.size == 0 {
        list.FirstAt();
        assert list.Recs()[0..0 + list.count] == list.Recs();
        fault := FlushNewList(list, list.pool[0].forward[0], list.count, 0);
      } else {
        fault := FlushList(list);
      }
    }

    // ---- looking a key up ---------------------------------------------------------------

    /** The search over the blocks of the current file. */
    method ReadOffset(key: Key) returns (off: nat)
      requires Valid() && name in files
      ensures off == OffsetIn(files[name], key, 0, files[name].footer.count)
    {
      hide ReadRec;
      var f := files[name];
      var left: nat, right: nat := 0, f.footer.count;
      while left < right
        invariant left <= right <= f.footer.count
        invariant OffsetIn(f, key, left, right) == OffsetIn(f, key, 0, f.footer.count)
      {
        var i := Mid(left, right);
        var cmp := Strcmp(key, ReadRec(f, i).key);
        if cmp == 0 {
          return ReadRec(f, i).val;
        }
        if cmp < 0 {
          right := i;
        } else {
          left := i + 1;
        }
      }
      off := 0;
    }

    /** The offset of a key, 0 if no file has it. The name of the file it looked into stays current. */
    method GetOff(key: Key) returns (off: nat)
      requires Valid()
      modifies this`name
      ensures Valid() && State() == AfterGetOff(old(State()), key)
      ensures off == Stores.GetOff(old(State()), key)
    {
      var i := meta.Get(key);
      if i == meta.size {
        return 0;
      }
      name := meta.nodes[i].name;
      if name !in files {
        return 0;
      }
      off := ReadOffset(key);
    }

    // ---- opening -------------------------------------------------------------------------

    /** Set the filter's bits for every key of a file. */
    method AddHiraishin(f: Image)
      requires Valid()
      modifies filter`count, filter.bitset
      ensures filter.Bits() == old(filter.Bits()) + BitsOf(ReadAll(f), filter.size)
    {
      hide ReadRec;
      hide Positions;
      ghost var all := ReadAll(f);
      for i := 0 to f.footer.count
        invariant filter.Bits() == old(filter.Bits()) + BitsOf(all[..i], filter.size)
      {
        var r := ReadRec(f, i);
        assert all[..i + 1][..i] == all[..i] && all[i] == r;
        filter.Add(r.key);
      }
      assert all[..f.footer.count] == all;
    }

    /** One file of the scan; a file without records is passed over. */
    method LoadFile(name: Name)
      requires Valid() && name in files && meta.size + 1 < meta.nodes.Length
      modifies meta`size, meta.nodes, filter`count, filter.bitset
      ensures Valid() && meta.size <= old(meta.size) + 1
      ensures meta.Dir() == if files[name].footer.count == 0 then old(meta.Dir())
                            else WithNode(old(meta.Dir()), FooterNode(files, name))
      ensures filter.Bits() == old(filter.Bits()) + BitsOf(ReadAll(files[name]), filter.size)
    {
      hide BitsOf;
      hide WithNode;
      hide ReadAll;
      hide TestBit;
      hide Positions;
      var f := files[name];
      if f.footer.count == 0 {
        NothingToRead(f, filter.size);
        return;
      }
      ghost var dir := meta.Dir();
      WithNodeGrows(dir, FooterNode(files, name));
      AddHiraishin(f);
      assert meta.Dir() == dir;
      ghost var bits := filter.Bits();
      meta.Set(MetaNode(f.footer.key, name, f.footer.count, 0));
      assert filter.Bits() == bits;
      assert meta.Dir() == WithNode(dir, FooterNode(files, name));
    }

    /** Scan the files in the order the operating system lists them. */
    method LoadFiles(order: seq<Name>)
      requires Valid() && meta.size == 0
      requires forall n :: n in order ==> n in files
      requires order != [] ==> |order| + 1 < meta.nodes.Length
      modifies meta`size, meta.nodes, filter`count, filter.bitset
      ensures Valid() && State() == old(State()).(dir := LoadDir(files, order))
      ensures filter.Bits() == old(filter.Bits()) + LoadBits(files, order, filter.size)
    {
      hide BitsOf;
      hide ReadAll;
      hide WithNode;
      for i := 0 to |order|
        invariant Valid() && meta.size <= i
        invariant meta.Dir() == LoadDir(files, order[..i])
        invariant filter.Bits() == old(filter.Bits()) + LoadBits(files, order[..i], filter.size)
      {
        assert order[..i + 1][..i] == order[..i];
        LoadFile(order[i]);
      }
      assert order[..|order|] == order;
    }
  }
}
