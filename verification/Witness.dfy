// Runs that end in the states the laws except: a stale read, a poisoned cache, a log that has lost
// its trigger.
module Witnesses {
  import opened Keys
  import opened Records
  import opened Codec
  import opened Images
  import opened Stores
  import opened StoreLaws
  import opened MergeLaws
  import opened MergeTheorem
  import opened StaleIndex
  import opened Logs
  import opened Hiraishins
  import opened Indexes
  import opened IndexLaws
  import opened LogLaws
  import opened Metas
  import opened Reload
  import opened Recovery
  import opened LookupLaws

  // ---- steps of a list with room for one record ------------------------------------------------

  lemma {:induction false} OneMoreStep(s: Index, ops: seq<Op>, mid: Index, op: Op, s': Index)
    requires Reaches(s, ops, mid) && mid.filterSize > 0 && mid.store.maxCount > 0
    requires GoodStep(mid, op) && Step(mid, op) == Some(s')
    ensures Reaches(s, ops + [op], s')
  {
    hide Step;
    hide GoodStep;
    assert (ops + [op])[..|ops|] == ops;
  }

  /** Nothing but the store is out of sight. */
  ghost predicate Small(s: Index) {
    s.cap == 1 && |s.list| <= 1 && s.filterSize > 0 && Inv(s.store) && s.store.maxCount > 0
  }

  lemma {:induction false} AddShape(s: Index, key: Key, value: Option<Value>)
    requires Small(s) && (s.list != [] ==> s.park.None?)
    ensures var s', r := Add(s, key, value), NewRec(s, key, value);
            && Small(s') && s'.list == [r] && s'.store == s.store
            && s'.park == (if s.list == [] then s.park else Some(s.list))
            && s'.trigger == (if s.list == [] then s.trigger else Some(r))
            && s'.logged == (if s.list == [] then s.logged + [r] else [])
            && (s.list != [] ==> s'.log == [])
            && |s'.db| == |s.db| + (if value.Some? then 4 + |value.value| else 0)
            && s'.islog == s.islog && s'.filterSize == s.filterSize && Grows(s, s')
            && (value.Some? ==> HoldsValue(s'.db, |s.db|, value.value))
    ensures value.Some? ==>
              GoodStep(s, Put(key, value.value)) && Step(s, Put(key, value.value)) == Some(Add(s, key, value))
    ensures value.None? ==> GoodStep(s, Op.Remove(key)) && Step(s, Op.Remove(key)) == Some(Add(s, key, value))
  {
    hide Inv;
    hide Positions;
    hide Line;
    hide HoldsValue;
    hide Grows;
    AddGrows(s, key, value);
    var r := NewRec(s, key, value);
    assert InsertCap([], 1, r) == [r];
  }

  lemma {:induction false} MergeShape(s: Index, run: seq<Rec>) returns (s': Index)
    requires Small(s) && s.park == Some(run)
    requires ChunkOk(run) && |run| <= 2 * s.store.maxCount && |s.store.dir| + 1 < s.store.maxFiles
    requires PastEnd(s.store.dir, run)
    ensures GoodStep(s, MergeJob) && Step(s, MergeJob) == Some(s')
    ensures Small(s') && s' == s.(store := s'.store, park := None)
    ensures s'.store.maxCount == s.store.maxCount && s'.store.maxFiles == s.store.maxFiles
    ensures |s'.store.dir| == |s.store.dir| + 1 && LastKey(run) == s'.store.dir[|s.store.dir|].end
    ensures Contents(s'.store) == Overlay(Contents(s.store), run)
  {
    hide Inv;
    hide Merge;
    hide Contents;
    hide Overlay;
    hide Mergeable;
    hide SoundMerge;
    hide FileRecs;
    hide ChunkOk;
    var st := MergeAppends(s.store, run);
    AppendIsMergeable(s.store, run);
    MergeableIsSound(s.store, run);
    MergeOverlays(s.store, run);
    s' := s.(store := st, park := None);
  }

  lemma {:induction false} OneChunkOk(r: Rec)
    requires r.opt == ADD && NoNul(r.key) && Representable(r.val)
    ensures ChunkOk([r]) && LastKey([r]) == r.key
  {
    hide Representable;
    hide NoNul;
    hide Lt;
    assert [r][..0] == [];
  }

  lemma {:induction false} SmallOffsets(v: nat)
    requires v < 0x8000_0000
    ensures Representable(v)
  {
  }

  // ---- a stale read ------------------------------------------------------------------------------

  /** A key is written, merged, and removed; its tombstone is then parked. */
  function StaleOps(k: Key, k2: Key, k3: Key, v: Value): seq<Op> {
    [Put(k, v), Put(k2, v), MergeJob, Op.Remove(k), MergeJob, Put(k3, v)]
  }

  function Empty(maxCount: nat, maxFiles: nat, islog: bool, filterSize: nat): Index {
    New(1, Store([], map[], [], [], maxCount, maxFiles), islog, filterSize)
  }

  lemma {:induction false} EmptyIsSmall(maxCount: nat, maxFiles: nat, islog: bool, filterSize: nat)
    requires maxCount > 0 && filterSize > 0
    ensures var s := Empty(maxCount, maxFiles, islog, filterSize);
            && Small(s) && s.list == [] && s.park == None && |s.db| == 4 && s.store.dir == []
            && s.store.maxFiles == maxFiles && s.logged == [] && s.trigger == None
            && Contents(s.store) == map[] && Reaches(s, [], s)
  {
    NewRepresents(1, maxCount, maxFiles, islog, filterSize);
  }

  lemma {:induction false} OverlayOne(m: map<Key, nat>, r: Rec)
    requires r.opt == ADD
    ensures Overlay(m, [r]) == m[r.key := r.val]
  {
    assert [r][..0] == [];
    assert Overlay(m, []) == m;
  }

  lemma {:induction false} FindOne(r: Rec, key: Key)
    ensures Find([r], key) == if r.key == key then Some(r) else None
  {
    LtIrreflexive(key);
  }

  /** Two adds and a merge: one file holds the first key, and the second is alone in the list. */
  lemma {:induction false} UpToMerge(maxCount: nat, maxFiles: nat, islog: bool, filterSize: nat, k: Key, k2: Key,
                                     v: Value)
    returns (s: Index)
    requires maxCount > 0 && maxFiles >= 2 && filterSize > 0 && NoNul(k)
    ensures Reaches(Empty(maxCount, maxFiles, islog, filterSize), [Put(k, v), Put(k2, v), MergeJob], s)
    ensures Small(s) && s.list == [Rec(k2, 8 + |v|, ADD)] && s.park == None && s.islog == islog
    ensures s.trigger == Some(Rec(k2, 8 + |v|, ADD)) && s.logged == [] && s.log == []
    ensures |s.store.dir| == 1 && s.store.dir[0].end == k && s.store.maxFiles == maxFiles
    ensures Contents(s.store) == map[k := 4] && HoldsValue(s.db, 4, v)
  {
    hide Lt;
    hide NoNul;
    hide Representable;
    hide Reaches;
    hide GoodStep;
    hide Step;
    hide Add;
    hide Contents;
    hide Inv;
    hide ChunkOk;
    hide Overlay;
    hide HoldsValue;
    hide Grows;
    var s0 := Empty(maxCount, maxFiles, islog, filterSize);
    EmptyIsSmall(maxCount, maxFiles, islog, filterSize);
    AddShape(s0, k, Some(v));
    var s1 := Add(s0, k, Some(v));
    OneMoreStep(s0, [], s0, Put(k, v), s1);
    AddShape(s1, k2, Some(v));
    var s2 := Add(s1, k2, Some(v));
    OneMoreStep(s0, [] + [Put(k, v)], s1, Put(k2, v), s2);
    SmallOffsets(4);
    OneChunkOk(Rec(k, 4, ADD));
    s := MergeShape(s2, s1.list);
    OverlayOne(map[], Rec(k, 4, ADD));
    OneMoreStep(s0, [] + [Put(k, v)] + [Put(k2, v)], s2, MergeJob, s);
    assert [] + [Put(k, v)] + [Put(k2, v)] + [MergeJob] == [Put(k, v), Put(k2, v), MergeJob];
    GrowsKeepsValue(s1, s2, 4, v);
  }

  /** Then the first key is removed: its tombstone is in the list, and the second list is parked. */
  lemma {:induction false} UpToRemove(maxCount: nat, maxFiles: nat, islog: bool, filterSize: nat, k: Key, k2: Key,
                                      v: Value)
    returns (s: Index)
    requires maxCount > 0 && maxFiles >= 2 && filterSize > 0 && NoNul(k)
    ensures Reaches(Empty(maxCount, maxFiles, islog, filterSize), [Put(k, v), Put(k2, v), MergeJob, Op.Remove(k)], s)
    ensures Small(s) && |s.list| == 1 && s.list[0].key == k && s.list[0].opt == DEL
    ensures s.park == Some([Rec(k2, 8 + |v|, ADD)])
    ensures |s.store.dir| == 1 && s.store.dir[0].end == k && s.store.maxFiles == maxFiles
    ensures Contents(s.store) == map[k := 4] && HoldsValue(s.db, 4, v)
  {
    hide Lt;
    hide NoNul;
    hide Reaches;
    hide GoodStep;
    hide Step;
    hide Add;
    hide Contents;
    hide Inv;
    hide HoldsValue;
    hide Grows;
    hide Empty;
    var s3 := UpToMerge(maxCount, maxFiles, islog, filterSize, k, k2, v);
    AddShape(s3, k, None);
    s := Add(s3, k, None);
    OneMoreStep(Empty(maxCount, maxFiles, islog, filterSize), [Put(k, v), Put(k2, v), MergeJob], s3, Op.Remove(k), s);
    assert [Put(k, v), Put(k2, v), MergeJob] + [Op.Remove(k)] == [Put(k, v), Put(k2, v), MergeJob, Op.Remove(k)];
    GrowsKeepsValue(s3, s, 4, v);
  }

  /** Stale reads happen: this run ends in one, and the answer is not the one a map would give. */
  lemma {:induction false} StaleReadHappens(maxCount: nat, maxFiles: nat, islog: bool, filterSize: nat,
                                            k: Key, k2: Key, k3: Key, v: Value) returns (s: Index)
    requires maxCount > 0 && maxFiles >= 3 && filterSize > 0
    requires NoNul(k) && NoNul(k2) && Lt(k, k2) && k3 != k && |v| < 0x1000_0000
    ensures Reaches(Empty(maxCount, maxFiles, islog, filterSize), StaleOps(k, k2, k3, v), s)
    ensures s.filterSize > 0 && StaleRead(s, k)
    ensures k !in ExpectAll(map[], StaleOps(k, k2, k3, v)) && Get(s, k) == Found(v)
  {
    hide Lt;
    hide NoNul;
    hide Representable;
    hide Reaches;
    hide GoodStep;
    hide Step;
    hide Add;
    hide Contents;
    hide Inv;
    hide ChunkOk;
    hide Overlay;
    hide Get;
    hide ExpectAll;
    hide Find;
    hide New;
    hide HoldsValue;
    hide Grows;
    var s0 := Empty(maxCount, maxFiles, islog, filterSize);
    var ops := [Put(k, v), Put(k2, v), MergeJob, Op.Remove(k)];
    var s4 := UpToRemove(maxCount, maxFiles, islog, filterSize, k, k2, v);
    var r := Rec(k2, 8 + |v|, ADD);
    SmallOffsets(r.val);
    OneChunkOk(r);
    BehindOne(s4.store, r);
    var s5 := MergeShape(s4, [r]);
    OverlayOne(Contents(s4.store), r);
    OneMoreStep(s0, ops, s4, MergeJob, s5);
    AddShape(s5, k3, Some(v));
    s := Add(s5, k3, Some(v));
    OneMoreStep(s0, ops + [MergeJob], s5, Put(k3, v), s);
    assert ops + [MergeJob] + [Put(k3, v)] == StaleOps(k, k2, k3, v);
    FindOne(s.list[0], k);
    FindOne(s4.list[0], k);
    assert s.list == [s.list[0]] && s4.list == [s4.list[0]];
    ReadsAnswerLikeOneMap(1, maxCount, maxFiles, islog, filterSize, StaleOps(k, k2, k3, v), s, k);
    LtAsymmetric(k, k2);
    RemovedIsNotExpected(k, k2, k3, v);
    GrowsKeepsValue(s5, s, 4, v);
    StaleValue(s, k, 4, v);
  }

  lemma {:induction false} RemovedIsNotExpected(k: Key, k2: Key, k3: Key, v: Value)
    requires k2 != k && k3 != k
    ensures k !in ExpectAll(map[], StaleOps(k, k2, k3, v))
  {
    var ops := StaleOps(k, k2, k3, v);
    assert ops[..5][..4] == ops[..4] && ops[..4][3] == Op.Remove(k);
    assert k !in ExpectAll(map[], ops[..4]);
    assert k !in ExpectAll(map[], ops[..5]);
  }

  /** What a stale read returns. */
  lemma {:induction false} StaleValue(s: Index, key: Key, off: nat, v: Value)
    requires s.filterSize > 0 && Inv(s.store) && StaleRead(s, key) && Get(s, key).Found?
    requires Contents(s.store)[key] == off && HoldsValue(s.db, off, v)
    ensures Get(s, key) == Found(v)
  {
    hide Contents;
    hide Inv;
    hide Find;
    hide HoldsValue;
    hide ReadValue;
    hide Stores.GetOff;
    hide MayHold;
    GetOffIsLookup(s.store, key);
    HeldValueReads(s.db, off, v);
  }

  lemma {:induction false} BehindOne(st: Store, r: Rec)
    requires |st.dir| == 1 && Lt(st.dir[0].end, r.key)
    ensures PastEnd(st.dir, [r])
  {
    hide Lt;
  }

  // ---- a log without its trigger --------------------------------------------------------------------

  /** One rotation, and the log no longer gives the list: the record that triggered it is missing. */
  lemma {:induction false} TriggerIsLost(maxCount: nat, maxFiles: nat, filterSize: nat, k: Key, k2: Key, v: Value)
    returns (s: Index)
    requires maxCount > 0 && filterSize > 0
    ensures Reaches(Empty(maxCount, maxFiles, true, filterSize), [Put(k, v), Put(k2, v)], s)
    ensures Loggable(s.logged) && s.trigger.Some? && !Mentions(s.logged, s.trigger.value.key)
    ensures s.log == [] && |s.list| == 1 && s.list[0].key == k2 && ReplayFrom([], 1, s.log) != Some(s.list)
  {
    hide Lt;
    hide Reaches;
    hide GoodStep;
    hide Step;
    hide Add;
    hide Contents;
    hide Inv;
    var s0 := Empty(maxCount, maxFiles, true, filterSize);
    EmptyIsSmall(maxCount, maxFiles, true, filterSize);
    AddShape(s0, k, Some(v));
    var s1 := Add(s0, k, Some(v));
    OneMoreStep(s0, [], s0, Put(k, v), s1);
    AddShape(s1, k2, Some(v));
    s := Add(s1, k2, Some(v));
    OneMoreStep(s0, [] + [Put(k, v)], s1, Put(k2, v), s);
    assert [] + [Put(k, v)] + [Put(k2, v)] == [Put(k, v), Put(k2, v)];
  }

  lemma {:induction false} OneName(st: Store)
    requires Inv(st) && |st.dir| == 1
    ensures Listing(st, [st.dir[0].name])
  {
    hide FileOk;
    hide EndsRise;
    hide LsnsOk;
    assert NameSet(st.dir) == {st.dir[0].name};
  }

  /** A crash behind that rotation, once the parked list is merged: the read of the lost record's key finds
      nothing behind the restart, although its value was written last. */
  lemma {:induction false} RestartForgetsKey(maxCount: nat, maxFiles: nat, filterSize: nat, k: Key, k2: Key, v: Value)
    returns (s: Index, order: seq<Name>)
    requires maxCount > 0 && maxFiles >= 2 && filterSize > 0 && NoNul(k) && k2 != k
    ensures var ops := [Put(k, v), Put(k2, v), MergeJob];
            && Reaches(Empty(maxCount, maxFiles, true, filterSize), ops, s)
            && s.park == None && Loggable(s.logged) && Listing(s.store, order) && s.log == [] && TriggerLost(s)
            && s.filterSize > 0 && s.store.maxCount > 0 && Reopen(s, order).Some?
            && var s' := Reopen(s, order).value;
               && k2 in ExpectAll(map[], ops) && s'.filterSize > 0
               && !Answers(Get(s', k2), ExpectAll(map[], ops), k2)
  {
    hide Lt;
    hide NoNul;
    hide Reaches;
    hide Contents;
    hide Inv;
    hide HoldsValue;
    hide Get;
    hide ReplayFrom;
    hide LoadDir;
    hide LoadBits;
    hide ReadValue;
    hide Layers;
    hide Answers;
    hide Merge;
    s := UpToMerge(maxCount, maxFiles, true, filterSize, k, k2, v);
    order := [s.store.dir[0].name];
    OneName(s.store);
    var ops := [Put(k, v), Put(k2, v), MergeJob];
    ReadsAfterRestart(1, maxCount, maxFiles, filterSize, ops, s, order, k2);
    assert ops[..2][..1] == ops[..1] && ops[..2][1] == Put(k2, v);
    assert k2 in ExpectAll(map[], ops[..2]);
    assert ops[..3 - 1] == ops[..2];
  }
}
