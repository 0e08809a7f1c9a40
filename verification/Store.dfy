// What the file layer computes, as functions on values: writing chunks, splitting
// runs, and the walk of a merge over the list. The class Silopit runs these.
module Stores {
  import opened Keys
  import opened Texts
  import opened Records
  import opened Merging
  import opened Images
  import opened Metas
  import Decimal

  /** maxCount is the size of a full chunk, maxFiles the length of the directory array. */
  datatype Store = Store(dir: seq<MetaNode>, files: map<Name, Image>, name: Name, buf: seq<Byte>,
                         maxCount: nat, maxFiles: nat)

  /** Why a flush stops the process: a chunk without ADD records cannot be written, a file
      cannot be opened, or a node that has to be inserted would overflow the directory array. */
  datatype Fault = EmptyChunk | MissingFile | DirectoryFull

  datatype Outcome = Done(store: Store) | Stopped(fault: Fault)

  const SUFFIX: seq<Byte> := [46, 115, 105, 108, 111, 112, 105, 116]

  /** "%d.silopit" */
  function FileName(n: nat): Name {
    Decimal.Digits(n) + SUFFIX
  }

  lemma {:induction false} FileNameInjective(a: nat, b: nat)
    requires FileName(a) == FileName(b)
    ensures a == b
  {
    assert FileName(a)[..|FileName(a)| - |SUFFIX|] == Decimal.Digits(a);
    assert FileName(b)[..|FileName(b)| - |SUFFIX|] == Decimal.Digits(b);
    Decimal.AtoiUndoesDigits(a);
    Decimal.AtoiUndoesDigits(b);
  }

  /** A file is named by the decimal digits of its number, and then ".silopit". */
  lemma {:induction false} NameOfNumber(n: nat)
    ensures var f := FileName(n);
            |f| > 8 && Decimal.AllDigits(f[..|f| - 8]) && Decimal.Atoi(f[..|f| - 8]) == n &&
            f[|f| - 8..] == Ascii(".silopit")
  {
    hide Decimal.Digits;
    hide Decimal.Atoi;
    Decimal.AtoiUndoesDigits(n);
    assert FileName(n)[..|FileName(n)| - 8] == Decimal.Digits(n);
    assert ".silopit" == ['.', 's', 'i', 'l', 'o', 'p', 'i', 't'];
  }

  // ---- writing --------------------------------------------------------------------

  /** The buffer after the records of a chunk went through it. */
  function BufferAfter(chunk: seq<Rec>, buf: seq<Byte>): seq<Byte> {
    var data := Data(Adds(chunk));
    if |data| <= |buf| then data + buf[|data|..] else data
  }

  function Write(st: Store, chunk: seq<Rec>, isNew: bool): Outcome {
    if chunk == [] || Adds(chunk) == [] then Stopped(EmptyChunk)
    else if isNew && |st.dir| + 1 >= st.maxFiles && !EndIsThere(st.dir, LastKey(chunk)) then Stopped(DirectoryFull)
    else
      var node := MetaNode(LastKey(chunk), st.name, |Adds(chunk)|, 0);
      Done(st.(files := st.files[st.name := WriteImage(chunk, st.buf)],
               buf := BufferAfter(chunk, st.buf),
               dir := if isNew then WithNode(st.dir, node) else SetEnd(st.dir, node.name, node.end)))
  }

  /** A run longer than two chunks is cut into full chunks; the last one takes the remainder too. */
  function Split(run: seq<Rec>, m: nat): (c: seq<seq<Rec>>)
    requires m > 0
    ensures |c| > 0
    decreases |run|
  {
    if |run| < 2 * m then [run] else [run[..m]] + Split(run[m..], m)
  }

  function Chunks(run: seq<Rec>, m: nat): (c: seq<seq<Rec>>)
    requires m > 0
    ensures |c| > 0
  {
    if |run| <= 2 * m then [run] else Split(run, m)
  }

  function WriteNew(st: Store, chunks: seq<seq<Rec>>): Outcome
    decreases |chunks|
  {
    if chunks == [] then Done(st) else
      var o := Write(st.(name := FileName(|st.dir|)), chunks[0], true);
      if o.Done? then WriteNew(o.store, chunks[1..]) else o
  }

  function FlushMerge(st: Store, run: seq<Rec>): Outcome
    requires st.maxCount > 0
  {
    var chunks := Chunks(run, st.maxCount);
    var o := Write(st, chunks[0], false);
    if o.Done? then WriteNew(o.store, chunks[1..]) else o
  }

  function FlushNew(st: Store, run: seq<Rec>): Outcome
    requires st.maxCount > 0
  {
    WriteNew(st, Chunks(run, st.maxCount))
  }

  // ---- merging ---------------------------------------------------------------------

  /** A file, loaded record by record into an empty list. */
  function Load(st: Store, name: Name): Option<seq<Rec>> {
    if name in st.files then Some(UpsertAll([], ReadAll(st.files[name]))) else None
  }

  /** The state of a merge between two list nodes: the files and the run under construction. */
  function FlushOpen(st: Store, merge: Option<seq<Rec>>): Outcome
    requires st.maxCount > 0
  {
    match merge
    case Some(run) => FlushMerge(st, run)
    case None => Done(st)
  }

  lemma {:induction false} LimitsStay(st: Store, merge: Option<seq<Rec>>)
    requires st.maxCount > 0
    ensures FlushOpen(st, merge).Done? ==>
              && FlushOpen(st, merge).store.maxCount == st.maxCount
              && |FlushOpen(st, merge).store.dir| >= |st.dir|
  {
    if merge.Some? {
      var chunks := Chunks(merge.value, st.maxCount);
      var o := Write(st, chunks[0], false);
      if o.Done? {
        LimitsStayNew(o.store, chunks[1..]);
      }
    }
  }

  lemma {:induction false} LimitsStayNew(st: Store, chunks: seq<seq<Rec>>)
    ensures WriteNew(st, chunks).Done? ==>
              && WriteNew(st, chunks).store.maxCount == st.maxCount
              && |WriteNew(st, chunks).store.dir| >= |st.dir|
    decreases |chunks|
  {
    if chunks != [] {
      var o := Write(st.(name := FileName(|st.dir|)), chunks[0], true);
      if o.Done? {
        LimitsStayNew(o.store, chunks[1..]);
      }
    }
  }

  /** The walk over the list from position pos on. Two quirks of the code are kept: the first
      key no file takes restarts at the head of the list, with the count of what is left; and
      the index found before a flush is used on the directory after it. */
  function Walk(st: Store, merge: Option<seq<Rec>>, list: seq<Rec>, pos: nat): Outcome
    requires st.maxCount > 0 && pos <= |list|
    decreases |list| - pos
  {
    LimitsStay(st, merge);
    if pos == |list| then FlushOpen(st, merge) else
      var cur := list[pos];
      var i := Search(st.dir, cur.key);
      if i == |st.dir| then
        var o := FlushOpen(st, merge);
        if o.Done? then FlushNew(o.store, list[..|list| - pos]) else o
      else if st.name == st.dir[i].name then
        var open := if merge.None? then Load(st, st.name) else merge;
        if open.None? then Stopped(MissingFile) else
          Walk(st, Some(Upsert(open.value, cur)), list, pos + 1)
      else
        var o := FlushOpen(st, merge);
        if o.Stopped? then o else
          var st' := o.store.(name := o.store.dir[i].name);
          var open := Load(st', st'.name);
          if open.None? then Stopped(MissingFile) else
            Walk(st', Some(Upsert(open.value, cur)), list, pos + 1)
  }

  lemma {:induction false} WalkRestarts(st: Store, merge: Option<seq<Rec>>, list: seq<Rec>, pos: nat)
    requires st.maxCount > 0 && pos < |list| && Search(st.dir, list[pos].key) == |st.dir|
    ensures var o := FlushOpen(st, merge);
            && (o.Done? ==> o.store.maxCount > 0)
            && Walk(st, merge, list, pos) == if o.Done? then FlushNew(o.store, list[0..0 + (|list| - pos)]) else o
  {
    hide Search;
    hide FlushOpen;
    hide FlushNew;
    LimitsStay(st, merge);
    assert list[0..0 + (|list| - pos)] == list[..|list| - pos];
  }

  function Merge(st: Store, list: seq<Rec>): Outcome
    requires st.maxCount > 0
  {
    if st.dir == [] then FlushNew(st, list) else Walk(st, None, list, 0)
  }

  // ---- what a short file takes along --------------------------------------------------------

  /** Behind the records of a chunk, up to the size its count and width call for, the file shows what an earlier
      write left in the buffer. */
  lemma {:induction false} LeftoverShowsThrough(st: Store, a: seq<Rec>, isNewA: bool, name: Name, b: seq<Rec>,
                                                isNewB: bool, i: nat)
    requires Write(st, a, isNewA).Done?
    requires Write(Write(st, a, isNewA).store.(name := name), b, isNewB).Done?
    ensures var st2 := Write(Write(st, a, isNewA).store.(name := name), b, isNewB).store;
            && name in st2.files
            && (|Data(Adds(b))| <= i < |st2.files[name].blocks| ==>
                  st2.files[name].blocks[i] ==
                    if i < |Data(Adds(a))| then Data(Adds(a))[i] else if i < |st.buf| then st.buf[i] else 0)
            && (i < |Data(Adds(b))| && i < |st2.files[name].blocks| ==>
                  st2.files[name].blocks[i] == Data(Adds(b))[i])
  {
    hide Adds;
    hide Data;
    hide MaxLen;
    hide Search;
    hide At;
    hide WithNode;
    hide SetEnd;
    var st1 := Write(st, a, isNewA).store.(name := name);
    assert st1.buf == BufferAfter(a, st.buf);
  }

  /** A key whose file is not there stops the merge before anything is written. */
  lemma {:induction false} MissingFileStops(st: Store, list: seq<Rec>)
    requires st.maxCount > 0 && list != [] && st.dir != [] && Search(st.dir, list[0].key) < |st.dir|
    requires st.dir[Search(st.dir, list[0].key)].name !in st.files
    ensures Merge(st, list) == Stopped(MissingFile)
  {
    hide Search;
  }

  // ---- the directory never overflows ------------------------------------------------------

  /** The directory has not grown, or it still ends before the last slot of its array. */
  predicate StaysInBounds(st: Store, o: Outcome) {
    o.Done? ==>
      && o.store.maxFiles == st.maxFiles
      && (|o.store.dir| == |st.dir| || |st.dir| < |o.store.dir| < st.maxFiles)
  }

  lemma {:induction false} WriteInBounds(st: Store, chunk: seq<Rec>, isNew: bool)
    ensures StaysInBounds(st, Write(st, chunk, isNew))
  {
    hide WriteImage;
    hide Search;
  }

  lemma {:induction false} WriteNewInBounds(st: Store, chunks: seq<seq<Rec>>)
    ensures StaysInBounds(st, WriteNew(st, chunks))
    decreases |chunks|
  {
    hide Write;
    if chunks != [] {
      var st1 := st.(name := FileName(|st.dir|));
      WriteInBounds(st1, chunks[0], true);
      var o := Write(st1, chunks[0], true);
      if o.Done? {
        WriteNewInBounds(o.store, chunks[1..]);
      }
    }
  }

  lemma {:induction false} FlushInBounds(st: Store, merge: Option<seq<Rec>>)
    requires st.maxCount > 0
    ensures StaysInBounds(st, FlushOpen(st, merge))
  {
    hide Write;
    hide WriteNew;
    if merge.Some? {
      var chunks := Chunks(merge.value, st.maxCount);
      WriteInBounds(st, chunks[0], false);
      var o := Write(st, chunks[0], false);
      if o.Done? {
        WriteNewInBounds(o.store, chunks[1..]);
      }
    }
  }

  lemma {:induction false} WalkInBounds(st: Store, merge: Option<seq<Rec>>, list: seq<Rec>, pos: nat)
    requires st.maxCount > 0 && pos <= |list|
    ensures StaysInBounds(st, Walk(st, merge, list, pos))
    decreases |list| - pos
  {
    hide FlushOpen;
    hide WriteNew;
    hide Load;
    hide Upsert;
    LimitsStay(st, merge);
    FlushInBounds(st, merge);
    var o := FlushOpen(st, merge);
    if pos < |list| {
      var cur := list[pos];
      var i := Search(st.dir, cur.key);
      if i == |st.dir| {
        if o.Done? {
          WriteNewInBounds(o.store, Chunks(list[..|list| - pos], o.store.maxCount));
        }
      } else if st.name == st.dir[i].name {
        var open := if merge.None? then Load(st, st.name) else merge;
        if open.Some? {
          WalkInBounds(st, Some(Upsert(open.value, cur)), list, pos + 1);
        }
      } else if o.Done? {
        var st' := o.store.(name := o.store.dir[i].name);
        var open := Load(st', st'.name);
        if open.Some? {
          WalkInBounds(st', Some(Upsert(open.value, cur)), list, pos + 1);
        }
      }
    }
  }

  /** No merge of any list writes behind the directory array: one that goes through leaves the directory as
      long as it was, or shorter than the array. */
  lemma {:induction false} MergeInBounds(st: Store, list: seq<Rec>)
    requires st.maxCount > 0
    ensures StaysInBounds(st, Merge(st, list))
  {
    hide Walk;
    hide WriteNew;
    if st.dir == [] {
      WriteNewInBounds(st, Chunks(list, st.maxCount));
    } else {
      WalkInBounds(st, None, list, 0);
    }
  }

  // ---- lookup -----------------------------------------------------------------------

  /** The binary search over the records of one file. */
  function OffsetIn(f: Image, key: Key, left: nat, right: nat): nat
    requires left <= right <= f.footer.count
    decreases right - left
  {
    if left == right then 0 else
      var i := Mid(left, right);
      var r := ReadRec(f, i);
      var cmp := Strcmp(key, r.key);
      if cmp == 0 then r.val else if cmp < 0 then OffsetIn(f, key, left, i) else OffsetIn(f, key, i + 1, right)
  }

  /** The offset of a key, 0 when no file has it. */
  function GetOff(st: Store, key: Key): nat {
    var i := Search(st.dir, key);
    if i == |st.dir| || st.dir[i].name !in st.files then 0 else
      var f := st.files[st.dir[i].name];
      OffsetIn(f, key, 0, f.footer.count)
  }

  /** The store after a lookup: the name of the file it looked into stays current. */
  function AfterGetOff(st: Store, key: Key): Store {
    var i := Search(st.dir, key);
    if i == |st.dir| then st else st.(name := st.dir[i].name)
  }
}
