// The layered index refines one map.
module IndexLaws {
  import opened Keys
  import opened Records
  import opened Merging
  import Metas
  import opened Stores
  import opened StoreLaws
  import opened MergeLaws
  import opened MergeTheorem
  import opened LookupLaws
  import opened Logs
  import opened Hiraishins
  import opened Indexes

  function ParkedRecs(s: Index): seq<Rec> {
    if s.park.Some? then s.park.value else []
  }

  /** The layers as one map: files, overlaid with the parked list, overlaid with the list. */
  ghost function Layers(s: Index): map<Key, nat> {
    Overlay(Overlay(Contents(s.store), ParkedRecs(s)), s.list)
  }

  /** An offset some layer stores for a key: a value stands there, 0 is never used, and the
      filter lets the key through. */
  ghost predicate EntryOk(s: Index, key: Key, off: nat)
    requires s.filterSize > 0
  {
    off >= 4 && (exists v: Value :: HoldsValue(s.db, off, v)) && MayHold(s.bits, key, s.filterSize)
  }

  ghost predicate RunOk(s: Index, recs: seq<Rec>)
    requires s.filterSize > 0
  {
    forall i :: 0 <= i < |recs| && recs[i].opt == ADD ==> EntryOk(s, recs[i].key, recs[i].val)
  }

  ghost predicate MapOk(s: Index, m: map<Key, nat>)
    requires s.filterSize > 0
  {
    forall k :: k in m ==> EntryOk(s, k, m[k])
  }

  /** The list and the parked list are sorted and within capacity, the files keep their
      invariant, and every stored offset leads to a value. */
  ghost predicate IndexInv(s: Index) {
    && s.cap > 0 && s.filterSize > 0 && |s.db| >= 4
    && Sorted(s.list) && |s.list| <= s.cap && Sorted(ParkedRecs(s))
    && Inv(s.store)
    && RunOk(s, s.list) && RunOk(s, ParkedRecs(s)) && MapOk(s, Contents(s.store))
  }

  /** The layers hold exactly the keys of m, each with its value. */
  ghost predicate Represents(s: Index, m: map<Key, Value>) {
    && Layers(s).Keys == m.Keys
    && forall k :: k in m && k in Layers(s) ==> HoldsValue(s.db, Layers(s)[k], m[k])
  }

  // ---- growing ------------------------------------------------------------------------------

  /** Appends to the value file and more filter bits keep every entry. */
  ghost predicate Grows(s: Index, s': Index) {
    && s.filterSize == s'.filterSize > 0 && s.bits <= s'.bits
    && |s.db| <= |s'.db| && s'.db[..|s.db|] == s.db
  }

  lemma {:induction false} GrowsKeepsValue(s: Index, s': Index, off: nat, v: Value)
    requires Grows(s, s') && HoldsValue(s.db, off, v)
    ensures HoldsValue(s'.db, off, v)
  {
    AppendKeeps(s.db, s'.db[|s.db|..], off, v);
    assert s.db + s'.db[|s.db|..] == s'.db;
  }

  lemma {:induction false} GrowsKeeps(s: Index, s': Index, key: Key, off: nat)
    requires Grows(s, s') && EntryOk(s, key, off)
    ensures EntryOk(s', key, off)
  {
    hide HoldsValue;
    var v: Value :| HoldsValue(s.db, off, v);
    GrowsKeepsValue(s, s', off, v);
  }

  lemma {:induction false} GrowsKeepsAll(s: Index, s': Index, recs: seq<Rec>, m: map<Key, nat>)
    requires Grows(s, s') && RunOk(s, recs) && MapOk(s, m)
    ensures RunOk(s', recs) && MapOk(s', m)
  {
    hide EntryOk;
    forall i | 0 <= i < |recs| && recs[i].opt == ADD
      ensures EntryOk(s', recs[i].key, recs[i].val)
    {
      GrowsKeeps(s, s', recs[i].key, recs[i].val);
    }
    forall k | k in m
      ensures EntryOk(s', k, m[k])
    {
      GrowsKeeps(s, s', k, m[k]);
    }
  }

  lemma {:induction false} OverlayOk(s: Index, m: map<Key, nat>, recs: seq<Rec>)
    requires s.filterSize > 0 && MapOk(s, m) && RunOk(s, recs)
    ensures MapOk(s, Overlay(m, recs))
  {
    hide EntryOk;
    if recs != [] {
      OverlayOk(s, m, recs[..|recs| - 1]);
      assert recs[|recs| - 1].opt == ADD ==> EntryOk(s, recs[|recs| - 1].key, recs[|recs| - 1].val);
    }
  }

  // ---- adding and removing ---------------------------------------------------------------------

  lemma {:induction false} AddGrows(s: Index, key: Key, value: Option<Value>)
    requires s.filterSize > 0
    ensures Grows(s, Add(s, key, value))
    ensures value.Some? ==> HoldsValue(Add(s, key, value).db, |s.db|, value.value)
    ensures value.Some? ==> MayHold(Add(s, key, value).bits, key, s.filterSize)
  {
    hide ValueRecord;
    hide HoldsValue;
    hide Positions;
    if value.Some? {
      AppendHolds(s.db, value.value);
    }
  }

  /** The list that takes the new record: the old one, or an empty one after a rotation. */
  function Receiving(s: Index): seq<Rec> {
    if IsFull(s) then [] else s.list
  }

  lemma {:induction false} AddParts(s: Index, key: Key, value: Option<Value>)
    requires s.filterSize > 0 && s.cap > 0 && (IsFull(s) ==> s.park.None?)
    ensures var s' := Add(s, key, value);
            && s'.list == Upsert(Receiving(s), NewRec(s, key, value))
            && ParkedRecs(s') == (if IsFull(s) then s.list else ParkedRecs(s))
            && s'.store == s.store && s'.cap == s.cap && s'.filterSize == s.filterSize
  {
    hide Upsert;
  }

  lemma {:induction false} AddLayers(s: Index, key: Key, value: Option<Value>)
    requires IndexInv(s) && (IsFull(s) ==> s.park.None?)
    ensures Layers(Add(s, key, value)) == Apply(Layers(s), NewRec(s, key, value))
  {
    hide Upsert;
    hide Apply;
    hide Contents;
    hide Sorted;
    hide Add;
    hide Inv;
    AddParts(s, key, value);
    assert Sorted([]) by { EmptySorted(); }
    var base := if IsFull(s) then Overlay(Contents(s.store), s.list) else Overlay(Contents(s.store), ParkedRecs(s));
    OverlayUpsert(base, Receiving(s), NewRec(s, key, value));
  }

  lemma {:induction false} UpsertOk(s: Index, recs: seq<Rec>, r: Rec)
    requires s.filterSize > 0 && RunOk(s, recs) && (r.opt == ADD ==> EntryOk(s, r.key, r.val))
    ensures RunOk(s, Upsert(recs, r))
  {
    hide EntryOk;
    var u, p := Upsert(recs, r), Lower(recs, r.key);
    forall i | 0 <= i < |u| && u[i].opt == ADD
      ensures EntryOk(s, u[i].key, u[i].val)
    {
      assert u[i] == r || u[i] in recs;
    }
  }

  lemma {:induction false} AddKeepsInv(s: Index, key: Key, value: Option<Value>)
    requires IndexInv(s) && (IsFull(s) ==> s.park.None?)
    ensures IndexInv(Add(s, key, value))
  {
    hide Upsert;
    hide Contents;
    hide Sorted;
    hide Add;
    hide Inv;
    hide EntryOk;
    hide RunOk;
    hide MapOk;
    var s', r := Add(s, key, value), NewRec(s, key, value);
    AddGrows(s, key, value);
    AddParts(s, key, value);
    EmptySorted();
    assert RunOk(s, []) by { EmptyOk(s); }
    GrowsKeepsAll(s, s', Receiving(s), Contents(s.store));
    GrowsKeepsAll(s, s', ParkedRecs(s'), Contents(s.store));
    UpsertSorted(Receiving(s), r);
    NewEntryOk(s, key, value);
    UpsertOk(s', Receiving(s), r);
  }

  lemma {:induction false} EmptyOk(s: Index)
    requires s.filterSize > 0
    ensures RunOk(s, [])
  {
  }

  lemma {:induction false} NewEntryOk(s: Index, key: Key, value: Option<Value>)
    requires s.filterSize > 0 && |s.db| >= 4
    ensures value.Some? ==> EntryOk(Add(s, key, value), key, |s.db|)
  {
    hide Add;
    hide HoldsValue;
    AddGrows(s, key, value);
  }

  lemma {:induction false} AddRepresents(s: Index, key: Key, value: Option<Value>, m: map<Key, Value>)
    requires IndexInv(s) && (IsFull(s) ==> s.park.None?) && Represents(s, m)
    ensures Represents(Add(s, key, value), if value.Some? then m[key := value.value] else m - {key})
  {
    hide Layers;
    hide Add;
    hide IndexInv;
    hide HoldsValue;
    assert s.filterSize > 0 by { assert IndexInv(s); InvFilter(s); }
    var s' := Add(s, key, value);
    AddLayers(s, key, value);
    AddGrows(s, key, value);
    forall k | k in Layers(s) && k in m
      ensures HoldsValue(s'.db, Layers(s)[k], m[k])
    {
      GrowsKeepsValue(s, s', Layers(s)[k], m[k]);
    }
  }

  lemma {:induction false} InvFilter(s: Index)
    requires IndexInv(s)
    ensures s.filterSize > 0 && s.store.maxCount > 0
  {
  }

  // ---- merging -----------------------------------------------------------------------------------

  lemma {:induction false} MergeKeeps(s: Index, m: map<Key, Value>)
    requires IndexInv(s) && Represents(s, m)
    requires s.park.Some? && s.store.maxCount > 0 && SoundMerge(s.store, s.park.value)
    ensures s.filterSize > 0
    ensures Step(s, MergeJob).Some? ==>
              IndexInv(Step(s, MergeJob).value) && Represents(Step(s, MergeJob).value, m)
  {
    hide Inv;
    hide Merge;
    hide Contents;
    hide EntryOk;
    InvFilter(s);
    OverlayOk(s, Contents(s.store), s.park.value);
    if Step(s, MergeJob).Some? {
      var s' := Step(s, MergeJob).value;
      EmptySorted();
      SameEntries(s, s', s.list, Contents(s'.store));
      EmptyOk(s');
    }
  }

  lemma {:induction false} SameEntries(s: Index, s': Index, recs: seq<Rec>, m: map<Key, nat>)
    requires s.filterSize == s'.filterSize > 0 && s.db == s'.db && s.bits == s'.bits
    requires RunOk(s, recs) && MapOk(s, m)
    ensures RunOk(s', recs) && MapOk(s', m)
  {
    GrowsKeepsAll(s, s', recs, m);
  }

  // ---- reading -------------------------------------------------------------------------------------

  /** The name a read leaves behind means nothing to later steps. */
  lemma {:induction false} NameKeeps(s: Index, s': Index, m: map<Key, Value>)
    requires IndexInv(s) && Represents(s, m)
    requires s' == s.(store := s.store.(name := s'.store.name))
    ensures IndexInv(s') && Represents(s', m)
  {
    hide EntryOk;
    hide HoldsValue;
    hide Within;
    hide FileRecs;
    assert Contents(s'.store) == Contents(s.store);
    SameEntries(s, s', s.list, Contents(s.store));
    SameEntries(s, s', ParkedRecs(s), Contents(s.store));
    InvIgnoresRest(s.store, s'.store);
  }

  lemma {:induction false} ReadKeepsAllButName(s: Index, key: Key)
    requires s.filterSize > 0
    ensures var s' := AfterGet(s, key); s' == s.(store := s.store.(name := s'.store.name))
  {
    hide MayHold;
    hide Find;
    hide Metas.Search;
  }

  // ---- runs -------------------------------------------------------------------------------------------

  /** No merge of the run goes wrong: it stops the process, or it is right. */
  ghost predicate GoodStep(s: Index, op: Op) {
    op == MergeJob && s.park.Some? ==> s.store.maxCount > 0 && SoundMerge(s.store, s.park.value)
  }

  /** s' is reached from s by the operations, each taking its step. */
  ghost predicate Reaches(s: Index, ops: seq<Op>, s': Index)
    decreases |ops|
  {
    if ops == [] then s' == s else
      exists mid: Index ::
        && Reaches(s, ops[..|ops| - 1], mid)
        && mid.filterSize > 0 && mid.store.maxCount > 0
        && GoodStep(mid, ops[|ops| - 1])
        && Step(mid, ops[|ops| - 1]) == Some(s')
  }

  lemma {:induction false} StepKeeps(s: Index, op: Op, m: map<Key, Value>)
    requires IndexInv(s) && Represents(s, m) && GoodStep(s, op)
    requires s.filterSize > 0 && s.store.maxCount > 0
    ensures Step(s, op).Some? ==> IndexInv(Step(s, op).value) && Represents(Step(s, op).value, Expect(m, op))
  {
    hide IndexInv;
    hide Represents;
    hide Add;
    hide AfterGet;
    hide SoundMerge;
    match op
    case MergeJob =>
      if s.park.Some? {
        MergeKeeps(s, m);
      }
    case Put(key, value) =>
      if !(IsFull(s) && s.park.Some?) {
        AddKeepsInv(s, key, Some(value));
        AddRepresents(s, key, Some(value), m);
      }
    case Remove(key) =>
      if !(IsFull(s) && s.park.Some?) {
        AddKeepsInv(s, key, None);
        AddRepresents(s, key, None, m);
      }
    case Read(key) =>
      ReadKeepsAllButName(s, key);
      NameKeeps(s, AfterGet(s, key), m);
  }

  /** After any run the layers hold exactly what the operations wrote. */
  lemma {:induction false} RunRefinesMap(s: Index, ops: seq<Op>, s': Index, m: map<Key, Value>)
    requires IndexInv(s) && Represents(s, m) && Reaches(s, ops, s')
    ensures IndexInv(s') && Represents(s', ExpectAll(m, ops))
    decreases |ops|
  {
    hide IndexInv;
    hide Represents;
    hide GoodStep;
    hide Step;
    if ops != [] {
      var init, op := ops[..|ops| - 1], ops[|ops| - 1];
      var mid: Index :| Reaches(s, init, mid) && mid.filterSize > 0 && mid.store.maxCount > 0
                        && GoodStep(mid, op) && Step(mid, op) == Some(s');
      RunRefinesMap(s, init, mid, m);
      StepKeeps(mid, op, ExpectAll(m, init));
    }
  }

  // ---- answers -------------------------------------------------------------------------------------------

  /** The one case a read gets wrong: a parked tombstone over a key that is still on disk. */
  ghost predicate StaleRead(s: Index, key: Key) {
    && Find(s.list, key) == None
    && Find(ParkedRecs(s), key).Some? && Find(ParkedRecs(s), key).value.opt == DEL
    && key in Contents(s.store)
  }

  /** The answer for a key of m is its value, and for any other key that there is none. */
  ghost predicate Answers(r: GetResult, m: map<Key, Value>, key: Key) {
    if key in m then r == Found(m[key]) else r.Absent?
  }

  lemma {:induction false} FoundOk(s: Index, recs: seq<Rec>, key: Key)
    requires s.filterSize > 0 && RunOk(s, recs)
    ensures Find(recs, key).Some? && Find(recs, key).value.opt == ADD ==> EntryOk(s, key, Find(recs, key).value.val)
  {
    hide EntryOk;
  }

  /** Which layer decides a key, and with what. */
  lemma {:induction false} LayersAt(s: Index, key: Key)
    requires IndexInv(s)
    ensures Lookup(Layers(s), key) ==
            match Find(s.list, key)
            case Some(r) => (if r.opt == ADD then Some(r.val) else None)
            case None =>
              match Find(ParkedRecs(s), key)
              case Some(r) => (if r.opt == ADD then Some(r.val) else None)
              case None => Lookup(Contents(s.store), key)
  {
    hide Find;
    hide Contents;
    hide Overlay;
    OverlayAt(Overlay(Contents(s.store), ParkedRecs(s)), s.list, key);
    OverlayAt(Contents(s.store), ParkedRecs(s), key);
  }

  lemma {:induction false} ReadsEntry(s: Index, key: Key, off: nat)
    requires s.filterSize > 0 && EntryOk(s, key, off)
    ensures ReadValue(s.db, off).Some?
  {
    hide HoldsValue;
    hide ReadValue;
    var v: Value :| HoldsValue(s.db, off, v);
    HeldValueReads(s.db, off, v);
  }

  /** What the layers' offset leads to: the value of the key, if the layers have the key; a value
      from disk, if the read is stale; and nothing otherwise. */
  lemma {:induction false} OffsetCases(s: Index, key: Key)
    requires IndexInv(s)
    requires Find(s.list, key).Some? ==> Find(s.list, key).value.opt == ADD
    ensures key in Layers(s) ==> OffsetFor(s, key) == Layers(s)[key] && EntryOk(s, key, OffsetFor(s, key))
    ensures key in Layers(s) ==> !StaleRead(s, key)
    ensures key !in Layers(s) && StaleRead(s, key) ==> EntryOk(s, key, OffsetFor(s, key))
    ensures key !in Layers(s) && !StaleRead(s, key) ==> OffsetFor(s, key) == 0
  {
    hide Find;
    hide Contents;
    hide Layers;
    hide EntryOk;
    hide Inv;
    hide Stores.GetOff;
    LayersAt(s, key);
    GetOffIsLookup(s.store, key);
    FoundOk(s, s.list, key);
    FoundOk(s, ParkedRecs(s), key);
    assert forall off :: EntryOk(s, key, off) ==> off >= 4 by { EntryFromFour(s, key); }
    assert Find([], key) == None by { FindInNothing(key); }
  }

  lemma {:induction false} EntryFromFour(s: Index, key: Key)
    requires s.filterSize > 0
    ensures forall off :: EntryOk(s, key, off) ==> off >= 4
  {
  }

  lemma {:induction false} FindInNothing(key: Key)
    ensures Find([], key) == None
  {
  }

  /** A read gives the value the operations wrote, or none, exactly unless it is stale. */
  lemma {:induction false} GetExact(s: Index, m: map<Key, Value>, key: Key)
    requires IndexInv(s) && Represents(s, m)
    ensures s.filterSize > 0
    ensures Answers(Get(s, key), m, key) <==> !StaleRead(s, key)
  {
    hide Layers;
    hide StaleRead;
    hide ReadValue;
    hide OffsetFor;
    hide Inv;
    hide Find;
    hide Contents;
    LayersAt(s, key);
    var node := Find(s.list, key);
    if node.Some? && node.value.opt == DEL {
      ListDecides(s, key);
    } else {
      OffsetCases(s, key);
      var off := OffsetFor(s, key);
      if key in Layers(s) {
        HeldValueReads(s.db, off, m[key]);
      } else if StaleRead(s, key) {
        ReadsEntry(s, key, off);
      }
    }
  }

  lemma {:induction false} ListDecides(s: Index, key: Key)
    ensures Find(s.list, key).Some? ==> !StaleRead(s, key)
  {
  }

  lemma {:induction false} NewRepresents(cap: nat, maxCount: nat, maxFiles: nat, islog: bool, filterSize: nat)
    requires cap > 0 && maxCount > 0 && filterSize > 0
    ensures var s := New(cap, Store([], map[], [], [], maxCount, maxFiles), islog, filterSize);
            IndexInv(s) && Represents(s, map[])
  {
    EmptySorted();
    var s := New(cap, Store([], map[], [], [], maxCount, maxFiles), islog, filterSize);
    assert Flat(s.store.dir, s.store.files) == [];
  }

  /** The whole engine: after any run from an empty store, a read of any key answers what one
      map would, exactly unless the key is absent from the list, has a tombstone in the parked
      list and is still on disk. */
  lemma {:induction false} ReadsAnswerLikeOneMap(
      cap: nat, maxCount: nat, maxFiles: nat, islog: bool, filterSize: nat,
      ops: seq<Op>, s: Index, key: Key)
    requires cap > 0 && maxCount > 0 && filterSize > 0
    requires Reaches(New(cap, Store([], map[], [], [], maxCount, maxFiles), islog, filterSize), ops, s)
    ensures s.filterSize > 0
    ensures Answers(Get(s, key), ExpectAll(map[], ops), key) <==> !StaleRead(s, key)
  {
    hide IndexInv;
    hide Represents;
    hide Reaches;
    hide New;
    hide StaleRead;
    hide Get;
    NewRepresents(cap, maxCount, maxFiles, islog, filterSize);
    RunRefinesMap(New(cap, Store([], map[], [], [], maxCount, maxFiles), islog, filterSize), ops, s, map[]);
    GetExact(s, ExpectAll(map[], ops), key);
  }

  /** The filter never hides a key that has a value. */
  lemma {:induction false} FilterHidesNothing(s: Index, m: map<Key, Value>, key: Key)
    requires IndexInv(s) && Represents(s, m) && key in m
    ensures s.filterSize > 0 && MayHold(s.bits, key, s.filterSize)
  {
    hide Layers;
    hide HoldsValue;
    hide Inv;
    hide Contents;
    hide MayHold;
    hide Find;
    LayersAt(s, key);
    FoundOk(s, s.list, key);
    FoundOk(s, ParkedRecs(s), key);
  }
}
