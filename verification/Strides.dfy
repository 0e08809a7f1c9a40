// The walk of a merge as a sequence of strides, one for each record: what it does from some record on
// depends on the records from there on only.
module Strides {
  import opened Keys
  import opened Records
  import opened Merging
  import opened Images
  import opened Metas
  import opened Stores
  import opened StoreLaws
  import opened FlushLaws
  import opened MergeLaws
  import opened StaleIndex
  import opened LostTails
  import opened LooseStores

  /** One record of the walk: it stops, or goes on with a store and a run. */
  datatype Stride = Halt(fault: Fault) | Go(store: Store, run: seq<Rec>)

  function StrideOf(st: Store, run: seq<Rec>, cur: Rec): (r: Stride)
    requires st.maxCount > 0 && Search(st.dir, cur.key) < |st.dir|
    ensures r.Go? ==> r.store.maxCount == st.maxCount
  {
    var i := Search(st.dir, cur.key);
    if st.name == st.dir[i].name then Go(st, Upsert(run, cur)) else
      var o := FlushMerge(st, run);
      LimitsStay(st, Some(run));
      if o.Stopped? then Halt(o.fault) else
        var st' := o.store.(name := o.store.dir[i].name);
        var open := Load(st', st'.name);
        if open.None? then Halt(MissingFile) else Go(st', Upsert(open.value, cur))
  }

  lemma {:induction false} WalkStrides(st: Store, run: seq<Rec>, list: seq<Rec>, pos: nat)
    requires st.maxCount > 0 && pos < |list| && Search(st.dir, list[pos].key) < |st.dir|
    ensures Walk(st, Some(run), list, pos) ==
            match StrideOf(st, run, list[pos])
            case Halt(fault) => Stopped(fault)
            case Go(st', run') => Walk(st', Some(run'), list, pos + 1)
  {
    hide Search;
    hide FlushMerge;
    hide Load;
    hide Upsert;
    LimitsStay(st, Some(run));
  }

  lemma {:induction false} FitsStrides(st: Store, run: seq<Rec>, list: seq<Rec>, pos: nat)
    requires st.maxCount > 0 && pos < |list| && Search(st.dir, list[pos].key) < |st.dir|
    requires WalkFits(st, Some(run), list, pos)
    ensures st.name == st.dir[Search(st.dir, list[pos].key)].name || ChunksFit(Chunks(run, st.maxCount))
    ensures match StrideOf(st, run, list[pos])
            case Halt(_) => true
            case Go(st', run') => st'.maxCount > 0 && WalkFits(st', Some(run'), list, pos + 1)
  {
    hide Search;
    hide FlushMerge;
    hide Load;
    hide Upsert;
    hide Chunks;
    hide ChunksFit;
    LimitsStay(st, Some(run));
  }

  // ---- strides that find a file -----------------------------------------------------------------

  /** The walk holds a run for the file at place q; for the keys from k on, the directory is in order
      from place b on, and q is b or, if the name was taken from a wrong place, in front of it. */
  ghost predicate Riding(st: Store, run: seq<Rec>, q: nat, b: nat, k: Key) {
    && Loose(st) && q <= b < |st.dir| && st.name == st.dir[q].name
    && SplitAt(st.dir, b, k) && RiseFrom(st.dir, b)
    && run != [] && Sorted(run) && RunUpTo(run, if q == b then st.dir[b].end else k)
  }

  ghost predicate RunUpTo(run: seq<Rec>, k: Key) {
    forall i :: 0 <= i < |run| ==> Le(run[i].key, k)
  }

  /** The first place from b on that takes the key. */
  lemma {:induction false} NextPlace(dir: seq<MetaNode>, b: nat, k: Key, key: Key) returns (p: nat)
    requires b < |dir| && SplitAt(dir, b, k) && RiseFrom(dir, b) && Lt(k, key) && Le(key, dir[|dir| - 1].end)
    ensures b <= p < |dir| && SplitAt(dir, p, key) && RiseFrom(dir, p) && Search(dir, key) == p
  {
    hide Lt;
    hide Search;
    LtIsStrictTotalOrder();
    p := b;
    while Lt(dir[p].end, key)
      invariant b <= p < |dir|
      invariant forall j :: b <= j < p ==> Lt(dir[j].end, key)
      decreases |dir| - p
    {
      p := p + 1;
    }
    forall j | p <= j < |dir|
      ensures Le(key, dir[j].end)
    {
      assert p < j ==> Lt(dir[p].end, dir[j].end);
    }
    SearchSplits(dir, key, p);
  }

  lemma {:induction false} LoadFine(st: Store, t: nat)
    requires Loose(st) && t < |st.dir|
    ensures Load(st, st.dir[t].name) == Some(FileRecs(st.files, st.dir[t]))
    ensures FileRecs(st.files, st.dir[t]) != [] && Sorted(FileRecs(st.files, st.dir[t]))
    ensures RunUpTo(FileRecs(st.files, st.dir[t]), st.dir[t].end)
  {
    hide Lt;
    hide ReadAll;
    FineFile(st, t);
    hide Loose;
    var s := FileRecs(st.files, st.dir[t]);
    UpsertAllBehind([], s);
    assert [] + s == s;
  }

  lemma {:induction false} LooseRenamed(st: Store, name: Name)
    requires Loose(st)
    ensures Loose(st.(name := name))
  {
    hide Lt;
    hide FileRecs;
    hide Sorted;
    hide NamesOk;
    var s := st.(name := name);
    forall j | 0 <= j < |s.dir|
      ensures FileFine(s, j)
    {
      FineFile(st, j);
    }
  }

  lemma {:induction false} UpsertUpTo(run: seq<Rec>, cur: Rec, k: Key)
    requires Sorted(run) && RunUpTo(run, k) && Le(cur.key, k)
    ensures Upsert(run, cur) != [] && Sorted(Upsert(run, cur)) && RunUpTo(Upsert(run, cur), k)
    ensures forall r :: r in Upsert(run, cur) <==> r == cur || (r in run && r.key != cur.key)
  {
    hide Lt;
    hide Upsert;
    UpsertSorted(run, cur);
    var u := Upsert(run, cur);
    assert cur in u;
    forall i | 0 <= i < |u|
      ensures Le(u[i].key, k)
    {
      assert u[i] in u;
      if u[i] != cur {
        var j :| 0 <= j < |run| && run[j] == u[i];
      }
    }
  }

  lemma {:induction false} RunBelow(run: seq<Rec>, k: Key, key: Key)
    requires RunUpTo(run, k) && Lt(k, key)
    ensures forall i :: 0 <= i < |run| ==> Lt(run[i].key, key)
    ensures RunUpTo(run, key)
  {
    hide Lt;
    LtIsStrictTotalOrder();
  }

  /** A stride on the file at hand. */
  lemma {:induction false} RidesOn(st: Store, run: seq<Rec>, q: nat, b: nat, k: Key, cur: Rec)
    requires Riding(st, run, q, b, k) && Lt(k, cur.key) && b == Search(st.dir, cur.key)
    requires SplitAt(st.dir, b, cur.key) && st.name == st.dir[b].name
    ensures Riding(st, Upsert(run, cur), b, b, cur.key)
  {
    hide Lt;
    hide Loose;
    hide Search;
    hide Upsert;
    hide Sorted;
    hide RunUpTo;
    LooseParts(st);
    assert q == b;
    UpsertUpTo(run, cur, st.dir[b].end);
  }

  /** A stride onto another file, or what stands at its place. */
  lemma {:induction false} RidesAcross(st: Store, run: seq<Rec>, q: nat, b: nat, k: Key, cur: Rec, p: nat)
    requires Riding(st, run, q, b, k) && Lt(k, cur.key) && b <= p < |st.dir| && q < p
    requires SplitAt(st.dir, p, cur.key) && RiseFrom(st.dir, p)
    requires st.maxCount > 0 && ChunksFit(Chunks(run, st.maxCount)) && FlushMerge(st, run).Done?
    ensures var s := FlushMerge(st, run).store;
            && p < |s.dir| && |s.dir| >= |st.dir| && s.maxCount == st.maxCount
            && var st' := s.(name := s.dir[p].name);
               && Load(st', st'.name).Some?
               && Riding(st', Upsert(Load(st', st'.name).value, cur), p, p + (|s.dir| - |st.dir|), cur.key)
  {
    hide Lt;
    hide Loose;
    hide FlushMerge;
    hide FileRecs;
    hide Upsert;
    hide Sorted;
    hide RunUpTo;
    hide Chunks;
    hide ChunksFit;
    hide Load;
    hide SplitAt;
    RideBound(st, run, q, b, k, cur.key, p);
    FlushPushes(st, run, q, p, cur.key);
    var s := FlushMerge(st, run).store;
    var n := |s.dir| - |st.dir|;
    var st' := s.(name := s.dir[p].name);
    LooseRenamed(s, s.dir[p].name);
    LoadFine(st', p);
    RiseMoves(st, s, p, n);
    LandsUpTo(st, s, p, n, cur.key);
    var l := FileRecs(st'.files, st'.dir[p]);
    if n == 0 {
      UpsertUpTo(l, cur, st'.dir[p].end);
    } else {
      RunBelow(l, st'.dir[p].end, cur.key);
      UpsertUpTo(l, cur, cur.key);
    }
  }

  /** The run in hand lies below the next key. */
  lemma {:induction false} RideBound(st: Store, run: seq<Rec>, q: nat, b: nat, k: Key, key: Key, p: nat)
    requires Riding(st, run, q, b, k) && Lt(k, key) && b <= p < |st.dir| && q < p && SplitAt(st.dir, p, key)
    ensures forall i :: 0 <= i < |run| ==> Lt(run[i].key, key)
  {
    hide Lt;
    hide Loose;
    hide Sorted;
    RunBelow(run, if q == b then st.dir[b].end else k, key);
  }

  lemma {:induction false} RiseMoves(a: Store, s: Store, p: nat, n: nat)
    requires RiseFrom(a.dir, p) && MovedBack(a, s, p, n)
    ensures RiseFrom(s.dir, p + n)
  {
    hide Lt;
    hide FileRecs;
    forall i, j | p + n <= i < j < |s.dir|
      ensures Lt(s.dir[i].end, s.dir[j].end)
    {
      assert s.dir[i] == a.dir[i - n] && s.dir[j] == a.dir[j - n];
    }
  }

  lemma {:induction false} LandsUpTo(a: Store, s: Store, p: nat, n: nat, key: Key)
    requires Pushed(a, s, p, key) && n == |s.dir| - |a.dir| && p < |a.dir|
    ensures SplitAt(s.dir, p + n, key)
    ensures if n == 0 then Le(key, s.dir[p].end) else Lt(s.dir[p].end, key)
  {
    hide Lt;
    hide Loose;
    hide MovedBack;
  }

  /** A record that is not behind the last file never stops the ride, and the last file's end stays. */
  lemma {:induction false} RideOn(st: Store, run: seq<Rec>, q: nat, b: nat, k: Key, cur: Rec)
    returns (q': nat, b': nat)
    requires Riding(st, run, q, b, k) && Lt(k, cur.key) && Le(cur.key, st.dir[|st.dir| - 1].end)
    ensures st.dir != [] && st.maxCount > 0 && Search(st.dir, cur.key) < |st.dir|
    ensures (st.name == st.dir[Search(st.dir, cur.key)].name || ChunksFit(Chunks(run, st.maxCount))) ==>
              match StrideOf(st, run, cur)
              case Halt(_) => true
              case Go(st', run') =>
                && Riding(st', run', q', b', cur.key) && st'.dir != []
                && st'.dir[|st'.dir| - 1].end == st.dir[|st.dir| - 1].end
  {
    hide Lt;
    hide Loose;
    hide Search;
    hide FlushMerge;
    hide FileRecs;
    hide Upsert;
    hide Sorted;
    hide RunUpTo;
    hide Chunks;
    hide ChunksFit;
    hide Load;
    hide SplitAt;
    hide RiseFrom;
    LooseParts(st);
    var p := NextPlace(st.dir, b, k, cur.key);
    if st.name == st.dir[p].name {
      assert p == q == b;
      RidesOn(st, run, q, b, k, cur);
      q', b' := b, b;
    } else {
      q', b' := p, p;
      if ChunksFit(Chunks(run, st.maxCount)) && FlushMerge(st, run).Done? {
        RidesAcross(st, run, q, b, k, cur, p);
        b' := p + (|FlushMerge(st, run).store.dir| - |st.dir|);
        LastEndStays(st, run, q, b, k, cur.key, p);
      }
    }
  }

  lemma {:induction false} LastEndStays(st: Store, run: seq<Rec>, q: nat, b: nat, k: Key, key: Key, p: nat)
    requires Riding(st, run, q, b, k) && Lt(k, key) && b <= p < |st.dir| && q < p && SplitAt(st.dir, p, key)
    requires st.maxCount > 0 && ChunksFit(Chunks(run, st.maxCount)) && FlushMerge(st, run).Done?
    ensures var s := FlushMerge(st, run).store;
            |s.dir| >= |st.dir| && s.dir[|s.dir| - 1] == st.dir[|st.dir| - 1]
  {
    hide Lt;
    hide Loose;
    hide FlushMerge;
    hide FileRecs;
    hide RunUpTo;
    hide Sorted;
    hide Chunks;
    hide ChunksFit;
    RideBound(st, run, q, b, k, key, p);
    FlushPushes(st, run, q, p, key);
  }

  // ---- only what is left of the list matters --------------------------------------------------------

  /** What is left of the list does not lie behind hi. */
  ghost predicate LeftUpTo(list: seq<Rec>, pos: nat, hi: Key) {
    pos <= |list| && forall j :: pos <= j < |list| ==> Le(list[j].key, hi)
  }

  lemma {:induction false} OneLess(list: seq<Rec>, pos: nat, hi: Key)
    requires LeftUpTo(list, pos, hi) && pos < |list| && Sorted(list)
    ensures Le(list[pos].key, hi) && LeftUpTo(list, pos + 1, hi)
    ensures pos + 1 < |list| ==> Lt(list[pos].key, list[pos + 1].key)
  {
    hide Lt;
  }

  /** The longer list goes on from place d like the shorter one from its start. */
  ghost predicate TailOf(all: seq<Rec>, d: nat, list: seq<Rec>) {
    |all| == d + |list| && forall j :: 0 <= j < |list| ==> all[d + j] == list[j]
  }

  lemma {:induction false} SameRecord(all: seq<Rec>, d: nat, list: seq<Rec>, pos: nat)
    requires TailOf(all, d, list) && pos <= |list|
    ensures d + pos <= |all| && (d + pos == |all| <==> pos == |list|)
    ensures pos < |list| ==> all[d + pos] == list[pos] && d + pos + 1 == d + (pos + 1)
  {
  }

  /** One stride, taken by both walks. */
  lemma {:induction false} BothStride(st: Store, run: seq<Rec>, q: nat, b: nat, k: Key,
                                      all: seq<Rec>, at: nat, list: seq<Rec>, pos: nat)
    returns (go: bool, st': Store, run': seq<Rec>, q': nat, b': nat)
    requires Riding(st, run, q, b, k) && st.maxCount > 0 && pos < |list| && at < |all| && all[at] == list[pos]
    requires Lt(k, list[pos].key) && Le(list[pos].key, st.dir[|st.dir| - 1].end)
    requires WalkFits(st, Some(run), list, pos)
    ensures !go ==>
              Walk(st, Some(run), all, at) == Walk(st, Some(run), list, pos) && Walk(st, Some(run), list, pos).Stopped?
    ensures go ==>
              && Riding(st', run', q', b', list[pos].key) && st'.maxCount > 0
              && st'.dir[|st'.dir| - 1].end == st.dir[|st.dir| - 1].end
              && WalkFits(st', Some(run'), list, pos + 1)
              && Walk(st, Some(run), all, at) == Walk(st', Some(run'), all, at + 1)
              && Walk(st, Some(run), list, pos) == Walk(st', Some(run'), list, pos + 1)
  {
    hide Lt;
    hide Riding;
    hide Walk;
    hide WalkFits;
    hide StrideOf;
    hide Search;
    hide Chunks;
    hide ChunksFit;
    q', b' := RideOn(st, run, q, b, k, list[pos]);
    WalkStrides(st, run, all, at);
    WalkStrides(st, run, list, pos);
    FitsStrides(st, run, list, pos);
    var o := StrideOf(st, run, list[pos]);
    go := o.Go?;
    st', run' := if go then o.store else st, if go then o.run else run;
  }

  /** Walking the tail of a longer list is walking that tail by itself. */
  lemma {:induction false} WalkForgets(st: Store, run: seq<Rec>, q: nat, b: nat, k: Key,
                                       all: seq<Rec>, d: nat, list: seq<Rec>, pos: nat, hi: Key)
    requires Riding(st, run, q, b, k) && st.dir[|st.dir| - 1].end == hi && TailOf(all, d, list)
    requires st.maxCount > 0 && Sorted(list) && pos <= |list| && LeftUpTo(list, pos, hi)
    requires pos < |list| ==> Lt(k, list[pos].key)
    requires WalkFits(st, Some(run), list, pos)
    ensures d + pos <= |all| && Walk(st, Some(run), all, d + pos) == Walk(st, Some(run), list, pos)
    decreases |list| - pos
  {
    hide Lt;
    hide Riding;
    hide Walk;
    hide WalkFits;
    hide Sorted;
    hide LeftUpTo;
    hide TailOf;
    hide FlushMerge;
    SameRecord(all, d, list, pos);
    if pos == |list| {
      WalkEndsAt(st, run, all);
      WalkEndsAt(st, run, list);
    } else {
      OneLess(list, pos, hi);
      var go, st', run', q', b' := BothStride(st, run, q, b, k, all, d + pos, list, pos);
      if go {
        WalkForgets(st', run', q', b', list[pos].key, all, d, list, pos + 1, hi);
      }
    }
  }
}
