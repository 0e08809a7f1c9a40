// Reopening a store: files, filter, and what the log still remembers.
module Recovery {
  import opened Keys
  import opened Records
  import opened Merging
  import opened Codec
  import opened Images
  import opened Metas
  import opened Stores
  import opened StoreLaws
  import opened MergeLaws
  import opened MergeTheorem
  import opened Reload
  import opened Hiraishins
  import opened Logs
  import opened Indexes
  import opened IndexLaws
  import opened LogLaws
  import opened Freshness

  /** The files after the scan. */
  function Reloaded(st: Store, order: seq<Name>): Store
    requires forall n :: n in order ==> n in st.files
  {
    Store(LoadDir(st.files, order), st.files, [], [], st.maxCount, st.maxFiles)
  }

  /** An index that has looked at its files and not yet at its log. */
  function Booted(cap: nat, maxCount: nat, maxFiles: nat, islog: bool, filterSize: nat,
                  files: map<Name, Image>, order: seq<Name>, file: Option<seq<Byte>>, log: seq<Byte>): Index
    requires filterSize > 0 && forall n :: n in order ==> n in files
  {
    Index([], cap, None, Store(LoadDir(files, order), files, [], [], maxCount, maxFiles),
          if file.Some? then file.value else DB_MAGIC,
          log, islog, LoadBits(files, order, filterSize), filterSize, None, [])
  }

  /** In an empty directory that is the initial state of the step machine. */
  lemma {:induction false} BootedOnNothing(cap: nat, maxCount: nat, maxFiles: nat, islog: bool, filterSize: nat)
    requires filterSize > 0
    ensures Booted(cap, maxCount, maxFiles, islog, filterSize, map[], [], None, []) ==
            New(cap, Store([], map[], [], [], maxCount, maxFiles), islog, filterSize)
  {
  }

  /** Opening the directory of a process that died with no merge pending: scan the files, replay
      the one log there is, merge what it gave, and start with an empty list. */
  function Reopen(s: Index, order: seq<Name>): Option<Index>
    requires s.filterSize > 0 && s.store.maxCount > 0
    requires forall n :: n in order ==> n in s.store.files
  {
    var st := Reloaded(s.store, order);
    var bits := LoadBits(s.store.files, order, s.filterSize);
    if !s.islog || s.log == [] then
      Some(s.(list := [], park := None, store := st, log := [], bits := bits, trigger := None, logged := []))
    else
      match ReplayFrom([], s.cap, s.log)
      case None => None
      case Some(list) =>
        var o := Merge(st, list);
        if o.Stopped? then None else
          Some(s.(list := [], park := None, store := o.store, log := [],
                  bits := bits + AddedBits(list, s.filterSize), trigger := None, logged := []))
  }

  /** A log that broke off inside a line keeps the store from being opened, whatever stands before. */
  lemma {:induction false} TornLogNeverReopens(s: Index, order: seq<Name>, rs: seq<Rec>, r: Rec, c: nat)
    requires s.filterSize > 0 && s.store.maxCount > 0 && forall n :: n in order ==> n in s.store.files
    requires forall i :: 0 <= i < |rs| ==> |rs[i].key| < TWO32
    requires |r.key| < TWO32 && 0 < c < |Line(r)| && s.islog && s.log == Lines(rs) + Line(r)[..c]
    ensures Reopen(s, order) == None
  {
    hide Parse;
    hide Line;
    hide Lines;
    hide ReplayFrom;
    hide LoadDir;
    hide LoadBits;
    hide Merge;
    TornLogStops(rs, r, c);
    ReplayIsInsertAll([], s.cap, s.log);
  }

  /** Closing with no merge pending: what the list holds is merged, and the log goes. */
  function Closed(s: Index): Option<Index>
    requires s.store.maxCount > 0
  {
    if s.list == [] then Some(s) else
      var o := Merge(s.store, s.list);
      if o.Stopped? then None else
        Some(s.(list := [], store := o.store, log := [], trigger := None, logged := []))
  }

  // ---- the files come back unchanged -------------------------------------------------------

  lemma {:induction false} ReloadedInv(st: Store, order: seq<Name>)
    requires Inv(st) && Listing(st, order)
    ensures Inv(Reloaded(st, order))
    ensures Flat(Reloaded(st, order).dir, st.files) == Flat(st.dir, st.files)
  {
    hide Lt;
    hide LoadDir;
    hide FileRecs;
    hide Within;
    hide Fit;
    hide Sorted;
    hide NumberedBelow;
    ReloadRestores(st, order);
    var st' := Reloaded(st, order);
    forall i | 0 <= i < |st.dir|
      ensures st'.dir[i].end == st.dir[i].end && st'.dir[i].name == st.dir[i].name
      ensures FileRecs(st'.files, st'.dir[i]) == FileRecs(st.files, st.dir[i])
    {
      assert Matches(st, st'.dir[i], i);
      SameNameSameRecs(st.files, st'.dir[i], st.dir[i]);
    }
    FlatSame(st'.dir, st.dir, st'.files, st.files);
    SameNames(st'.dir, st.dir);
    hide Flat;
    forall i | 0 <= i < |st.dir|
      ensures FileOk(st', i)
    {
      assert FileOk(st, i);
      SameRange(FileRecs(st.files, st.dir[i]), st'.dir, st.dir, i);
    }
  }

  lemma {:induction false} SameNameSameRecs(files: map<Name, Image>, a: MetaNode, b: MetaNode)
    requires a.name == b.name
    ensures FileRecs(files, a) == FileRecs(files, b)
  {
  }

  lemma {:induction false} SameNames(a: seq<MetaNode>, b: seq<MetaNode>)
    requires |a| == |b| && forall i :: 0 <= i < |a| ==> a[i].name == b[i].name
    ensures NameSet(a) == NameSet(b)
  {
  }

  lemma {:induction false} SameRange(s: seq<Rec>, a: seq<MetaNode>, b: seq<MetaNode>, i: nat)
    requires |a| == |b| && i < |a| && forall j :: 0 <= j < |a| ==> a[j].end == b[j].end
    requires Within(s, b, i, b[i].end)
    ensures Within(s, a, i, a[i].end)
  {
    hide Lt;
  }

  /** The rebuilt filter covers the files. */
  lemma {:induction false} ReloadedContentsOk(s: Index, order: seq<Name>, bits: set<nat>)
    requires IndexInv(s) && Listing(s.store, order)
    requires s.filterSize > 0 && LoadBits(s.store.files, order, s.filterSize) <= bits
    ensures MapOk(s.(bits := bits), Contents(s.store))
  {
    hide HoldsValue;
    hide LoadBits;
    hide Positions;
    hide Inv;
    hide Contents;
    var s' := s.(bits := bits);
    forall k | k in Contents(s.store)
      ensures EntryOk(s', k, Contents(s.store)[k])
    {
      assert EntryOk(s, k, Contents(s.store)[k]);
      ContentsComeFromFiles(s.store, k, order, s.filterSize);
    }
  }

  lemma {:induction false} ContentsComeFromFiles(st: Store, k: Key, order: seq<Name>, size: nat)
    requires Inv(st) && Listing(st, order) && size > 0 && k in Contents(st)
    ensures MayHold(LoadBits(st.files, order, size), k, size)
  {
    hide Inv;
    hide Flat;
    hide LoadBits;
    hide MayHold;
    hide ReadAll;
    hide FileRecs;
    FlatSorted(st);
    OverlayAt(map[], Flat(st.dir, st.files), k);
    FindIsMembership(Flat(st.dir, st.files), k);
    var r := Find(Flat(st.dir, st.files), k).value;
    assert st.dir[..|st.dir|] == st.dir;
    var i := FlatRecInFile(st, |st.dir|, r);
    FileOf(st, i);
    var name := st.dir[i].name;
    var j :| 0 <= j < |ReadAll(st.files[name])| && ReadAll(st.files[name])[j] == r;
    ReloadedFilterCovers(st.files, order, size, name, j);
  }

  // ---- the log comes back up to the trigger ----------------------------------------------------

  /** What the log still gives of the list. */
  function Replayed(s: Index): seq<Rec> {
    if s.islog && s.log != [] then
      match ReplayFrom([], s.cap, s.log) case Some(list) => list case None => []
    else []
  }

  lemma {:induction false} ReplayedIs(s: Index)
    requires LogInv(s) && s.islog && Loggable(s.logged)
    ensures s.log != [] ==> ReplayFrom([], s.cap, s.log) == Some(Replayed(s))
    ensures Replayed(s) == InsertAll([], s.cap, s.logged) && Sorted(Replayed(s))
    ensures Replayed(s) == s.list <==> s.trigger.None? || Mentions(s.logged, s.trigger.value.key)
  {
    hide NoneRefused;
    hide Parse;
    hide Loggable;
    LogRebuildsIff(s);
    ReplayRebuilds(s);
    ReplayIsInsertAll([], s.cap, s.log);
    InsertAllSorted(s.cap, s.logged);
  }

  lemma {:induction false} InsertAllSorted(cap: nat, rs: seq<Rec>)
    ensures Sorted(InsertAll([], cap, rs))
  {
    EmptySorted();
    if rs != [] {
      InsertAllSorted(cap, rs[..|rs| - 1]);
      UpsertSorted(InsertAll([], cap, rs[..|rs| - 1]), rs[|rs| - 1]);
    }
  }

  /** Every replayed record was in the list before. */
  lemma {:induction false} ReplayedWereThere(s: Index)
    requires LogInv(s) && s.islog && Loggable(s.logged)
    ensures forall r :: r in Replayed(s) ==> r in s.list
  {
    hide NoneRefused;
    hide Parse;
    hide Upsert;
    hide Loggable;
    hide InsertAll;
    LogRebuildsIff(s);
    ReplayedIs(s);
    if s.trigger.Some? && !Mentions(s.logged, s.trigger.value.key) {
      UpsertSorted(Replayed(s), s.trigger.value);
      ReplayedLacksTrigger(s);
    }
  }

  lemma {:induction false} ReplayedLacksTrigger(s: Index)
    requires LogInv(s) && s.islog && Loggable(s.logged)
    requires s.trigger.Some? && !Mentions(s.logged, s.trigger.value.key)
    ensures forall r :: r in Replayed(s) ==> r.key != s.trigger.value.key
  {
    hide Parse;
    ReplayedIs(s);
    EmptySorted();
    NoneRefusedWithout(s.cap, s.trigger.value, s.logged);
    NoneRefusedInsertsAll(s.cap, s.logged);
    UpsertAllSorted([], s.logged);
  }

  lemma {:induction false} AddedBitsCover(list: seq<Rec>, size: nat, i: nat)
    requires size > 0 && i < |list| && list[i].opt == ADD
    ensures MayHold(AddedBits(list, size), list[i].key, size)
  {
    hide Positions;
    if i < |list| - 1 {
      AddedBitsCover(list[..|list| - 1], size, i);
    }
  }

  lemma {:induction false} ReplayedOk(s: Index, bits: set<nat>)
    requires IndexInv(s) && LogInv(s) && s.islog && Loggable(s.logged)
    requires s.filterSize > 0 && AddedBits(Replayed(s), s.filterSize) <= bits
    ensures RunOk(s.(bits := bits), Replayed(s))
  {
    hide HoldsValue;
    hide AddedBits;
    hide Positions;
    hide Inv;
    hide LogInv;
    hide Loggable;
    hide Replayed;
    hide Contents;
    ReplayedWereThere(s);
    var s', list := s.(bits := bits), Replayed(s);
    forall i | 0 <= i < |list| && list[i].opt == ADD
      ensures EntryOk(s', list[i].key, list[i].val)
    {
      assert list[i] in list;
      var j :| 0 <= j < |s.list| && s.list[j] == list[i];
      assert EntryOk(s, s.list[j].key, s.list[j].val);
      AddedBitsCover(list, s.filterSize, i);
    }
  }

  /** An index with an empty list and nothing parked is as good as its files. */
  lemma {:induction false} RestingInv(s: Index)
    requires s.cap > 0 && s.filterSize > 0 && |s.db| >= 4 && s.list == [] && s.park == None
    requires Inv(s.store) && MapOk(s, Contents(s.store))
    ensures IndexInv(s) && Layers(s) == Contents(s.store)
  {
    hide Inv;
    hide Contents;
    hide EntryOk;
    EmptySorted();
    EmptyOk(s);
  }

  lemma {:induction false} ReopenWithoutLog(s: Index, order: seq<Name>)
    requires IndexInv(s) && s.log == [] && Listing(s.store, order)
    ensures s.filterSize > 0 && s.store.maxCount > 0
    ensures Reopen(s, order).Some?
    ensures var s' := Reopen(s, order).value;
            IndexInv(s') && LogInv(s') && s'.db == s.db && Layers(s') == Contents(s.store)
  {
    hide Inv;
    hide LoadBits;
    hide EntryOk;
    hide Flat;
    hide LogInv;
    hide Layers;
    hide LoadDir;
    hide Sorted;
    InvFilter(s);
    var s' := Reopen(s, order).value;
    ReloadedInv(s.store, order);
    ReloadedContentsOk(s, order, s'.bits);
    SameEntries(s.(bits := s'.bits), s', [], Contents(s.store));
    RestingInv(s');
    FreshLog(s');
  }

  lemma {:induction false} ReopenWithLog(s: Index, order: seq<Name>)
    requires IndexInv(s) && LogInv(s) && s.islog && s.log != [] && Loggable(s.logged)
    requires Listing(s.store, order) && SoundMerge(Reloaded(s.store, order), Replayed(s))
    ensures s.filterSize > 0 && s.store.maxCount > 0
    ensures Reopen(s, order).Some? <==> MergesRight(Reloaded(s.store, order), Replayed(s))
    ensures Reopen(s, order).Some? ==>
              var s' := Reopen(s, order).value;
              && IndexInv(s') && LogInv(s') && s'.db == s.db
              && Layers(s') == Overlay(Contents(s.store), Replayed(s))
  {
    hide Inv;
    hide LoadBits;
    hide AddedBits;
    hide EntryOk;
    hide Flat;
    hide LogInv;
    hide Layers;
    hide LoadDir;
    hide Sorted;
    hide Merge;
    hide Replayed;
    hide Loggable;
    hide Overlay;
    InvFilter(s);
    ReplayedIs(s);
    var st, list := Reloaded(s.store, order), Replayed(s);
    ReloadedInv(s.store, order);
    if Reopen(s, order).Some? {
      var s' := Reopen(s, order).value;
      var t := s.(bits := s'.bits);
      ReloadedContentsOk(s, order, s'.bits);
      ReplayedOk(s, s'.bits);
      OverlayOk(t, Contents(s.store), list);
      SameEntries(t, s', list, Contents(s'.store));
      RestingInv(s');
      FreshLog(s');
    }
  }

  // ---- what a restart forgets -------------------------------------------------------------------

  /** The last rotation's trigger was not written again after it: it is nowhere in the log. */
  ghost predicate TriggerLost(s: Index) {
    s.trigger.Some? && !Mentions(s.logged, s.trigger.value.key)
  }

  /** A trigger that is not missed: the tombstone of a key that no file holds. */
  ghost predicate IdleTrigger(s: Index) {
    s.trigger.Some? && s.trigger.value.opt == DEL && s.trigger.value.key !in Contents(s.store)
  }

  /** Without its trigger a list says the same, except about the trigger's key: that falls to the files. */
  lemma {:induction false} LayersWithoutTrigger(s: Index, key: Key)
    requires LogInv(s) && s.islog && s.park.None? && Loggable(s.logged)
    ensures var after := Overlay(Contents(s.store), Replayed(s));
            && (TriggerLost(s) ==> Layers(s) == Apply(after, s.trigger.value))
            && Lookup(after, key) ==
               if TriggerLost(s) && key == s.trigger.value.key then Lookup(Contents(s.store), key)
                 else Lookup(Layers(s), key)
  {
    hide LogInv;
    hide Loggable;
    hide Mentions;
    hide Contents;
    hide Replayed;
    hide Overlay;
    hide Find;
    ReplayedIs(s);
    NothingOverlaid(Contents(s.store));
    if TriggerLost(s) {
      ListWithTrigger(s);
      OverlayUpsert(Contents(s.store), Replayed(s), s.trigger.value);
      ReplayedLacksTrigger(s);
      if key == s.trigger.value.key {
        OverlayAt(Contents(s.store), Replayed(s), key);
        FindIsMembership(Replayed(s), key);
      }
    }
  }

  lemma {:induction false} NothingOverlaid(m: map<Key, nat>)
    ensures Overlay(m, []) == m
  {
  }

  lemma {:induction false} ListWithTrigger(s: Index)
    requires LogInv(s) && s.islog && Loggable(s.logged) && TriggerLost(s)
    ensures s.list == Upsert(Replayed(s), s.trigger.value)
  {
    hide LogInv;
    hide Loggable;
    hide Mentions;
    hide Upsert;
    hide ReplayFrom;
    hide InsertAll;
    ReplayedIs(s);
    LogRebuildsIff(s);
    if s.log == [] {
      NothingReplayed(s.cap);
    }
  }

  lemma {:induction false} NothingReplayed(cap: nat)
    ensures ReplayFrom([], cap, []) == Some([])
  {
  }

  /** The layers come back exactly if the trigger is in the log, or is idle. */
  lemma {:induction false} LayersComeBackIff(s: Index)
    requires LogInv(s) && s.islog && s.park.None? && Loggable(s.logged) && TriggerFresh(s)
    ensures Overlay(Contents(s.store), Replayed(s)) == Layers(s) <==> !TriggerLost(s) || IdleTrigger(s)
  {
    hide LogInv;
    hide Loggable;
    hide Mentions;
    hide Contents;
    hide Replayed;
    hide Layers;
    var after := Overlay(Contents(s.store), Replayed(s));
    hide Overlay;
    if TriggerLost(s) {
      var t := s.trigger.value;
      LayersWithoutTrigger(s, t.key);
    } else {
      forall k: Key
        ensures Lookup(after, k) == Lookup(Layers(s), k)
      {
        LayersWithoutTrigger(s, k);
      }
      SameLookups(after, Layers(s));
    }
  }

  /** There is nothing in the log, or what it gives merges right into the files. */
  ghost predicate Reopenable(s: Index, order: seq<Name>)
    requires s.store.maxCount > 0 && forall n :: n in order ==> n in s.store.files
  {
    s.log == [] || MergesRight(Reloaded(s.store, order), Replayed(s))
  }

  /** A process that dies with no merge pending can be reopened exactly if the merge of what its log gives
      is right or there is none: then the index invariant holds, the layers are the files overlaid with
      that, and it is all there was exactly if the trigger of the last rotation was written again, or was
      the tombstone of a key that no file holds. */
  lemma {:induction false} ReopenRecovers(s: Index, order: seq<Name>)
    requires IndexInv(s) && LogInv(s) && s.islog && s.park.None? && Loggable(s.logged)
    requires Listing(s.store, order) && TriggerFresh(s)
    requires s.log != [] ==> SoundMerge(Reloaded(s.store, order), Replayed(s))
    ensures s.filterSize > 0 && s.store.maxCount > 0
    ensures Reopen(s, order).Some? <==> Reopenable(s, order)
    ensures Reopen(s, order).Some? ==>
              var s' := Reopen(s, order).value;
              && IndexInv(s') && LogInv(s')
              && s'.db == s.db
              && Layers(s') == Overlay(Contents(s.store), Replayed(s))
              && (Layers(s') == Layers(s) <==> !TriggerLost(s) || IdleTrigger(s))
  {
    hide IndexInv;
    hide LogInv;
    hide Reopen;
    hide SoundMerge;
    hide Loggable;
    hide Contents;
    hide TriggerFresh;
    hide TriggerLost;
    hide IdleTrigger;
    ReplayedIs(s);
    LayersComeBackIff(s);
    if s.log == [] {
      ReopenWithoutLog(s, order);
    } else {
      ReopenWithLog(s, order);
    }
  }

  // ---- a whole life, a crash, and what a reader finds ---------------------------------------------

  lemma {:induction false} NothingParkedNothingStale(s: Index, key: Key)
    requires s.park.None?
    ensures !StaleRead(s, key)
  {
    hide Contents;
  }

  lemma {:induction false} ReopenParksNothing(s: Index, order: seq<Name>)
    requires s.filterSize > 0 && s.store.maxCount > 0 && forall n :: n in order ==> n in s.store.files
    ensures Reopen(s, order).Some? ==> Reopen(s, order).value.park.None?
  {
    hide LoadDir;
    hide LoadBits;
    hide AddedBits;
    hide ReplayFrom;
    hide Merge;
  }

  /** With nothing in memory a read returns what stands at the offset the files give, if they give one. */
  lemma {:induction false} RestingRead(s: Index, key: Key)
    requires IndexInv(s) && s.list == [] && s.park.None?
    ensures s.filterSize > 0
    ensures key in Layers(s) ==>
              ReadValue(s.db, Layers(s)[key]).Some? && Get(s, key) == Found(ReadValue(s.db, Layers(s)[key]).value)
    ensures key !in Layers(s) ==> Get(s, key).Absent?
  {
    hide Layers;
    hide StaleRead;
    hide ReadValue;
    hide OffsetFor;
    hide Inv;
    hide Find;
    hide Contents;
    FindInNothing(key);
    NothingParkedNothingStale(s, key);
    OffsetCases(s, key);
    if key in Layers(s) {
      ReadsEntry(s, key, OffsetFor(s, key));
    }
  }

  /** The trigger was lost, and what a read of its key finds on disk is still right: nothing where it
      was removed, the very bytes that were written where it was set. */
  ghost predicate DiskAgrees(s: Index, m: map<Key, Value>)
    requires s.trigger.Some?
  {
    var t := s.trigger.value;
    if t.opt == DEL then t.key !in Contents(s.store)
    else t.key in Contents(s.store) && t.key in m
         && ReadValue(s.db, Contents(s.store)[t.key]) == Some(m[t.key])
  }

  lemma {:induction false} TriggerExpected(s: Index, m: map<Key, Value>)
    requires Represents(s, m) && LogInv(s) && s.islog && s.park.None? && Loggable(s.logged) && TriggerLost(s)
    ensures s.trigger.value.key in m <==> s.trigger.value.opt == ADD
  {
    hide LogInv;
    hide Loggable;
    hide Mentions;
    hide Contents;
    hide Replayed;
    hide Overlay;
    hide Layers;
    hide HoldsValue;
    LayersWithoutTrigger(s, s.trigger.value.key);
  }

  lemma {:induction false} ReopenEmpties(s: Index, order: seq<Name>)
    requires s.filterSize > 0 && s.store.maxCount > 0 && forall n :: n in order ==> n in s.store.files
    ensures Reopen(s, order).Some? ==> Reopen(s, order).value.list == []
  {
    hide LoadDir;
    hide LoadBits;
    hide AddedBits;
    hide ReplayFrom;
    hide Merge;
  }

  /** A read behind a restart, key by key. */
  lemma {:induction false} ReadAfterReopenIff(s: Index, order: seq<Name>, m: map<Key, Value>, key: Key)
    requires IndexInv(s) && LogInv(s) && s.islog && s.park.None? && Loggable(s.logged) && Represents(s, m)
    requires Listing(s.store, order) && TriggerFresh(s)
    requires s.log != [] ==> SoundMerge(Reloaded(s.store, order), Replayed(s))
    ensures s.filterSize > 0 && s.store.maxCount > 0
    ensures Reopen(s, order).Some? <==> Reopenable(s, order)
    ensures Reopen(s, order).Some? ==>
              var s' := Reopen(s, order).value;
              && s'.filterSize > 0
              && (Answers(Get(s', key), m, key) <==>
                    !TriggerLost(s) || key != s.trigger.value.key || DiskAgrees(s, m))
  {
    hide IndexInv;
    hide LogInv;
    hide Reopen;
    hide SoundMerge;
    hide Reopenable;
    hide Loggable;
    hide Mentions;
    hide Contents;
    hide Layers;
    hide Overlay;
    hide Replayed;
    hide Get;
    hide ReadValue;
    hide HoldsValue;
    hide TriggerFresh;
    InvFilter(s);
    ReopenRecovers(s, order);
    if Reopen(s, order).Some? {
      var s' := Reopen(s, order).value;
      ReopenParksNothing(s, order);
      ReopenEmpties(s, order);
      RestingRead(s', key);
      LayersWithoutTrigger(s, key);
      if key in m {
        HeldValueReads(s.db, Layers(s)[key], m[key]);
      }
      if TriggerLost(s) && key == s.trigger.value.key {
        TriggerExpected(s, m);
      }
    }
  }

  /** Any run from an empty store, a crash with no merge pending, and a restart: it goes through exactly if
      the log is empty or merges right, and then a read of any key answers what one map would, exactly unless
      it reads the trigger of the last rotation, that was not written again, and the files say something else
      about it. */
  lemma {:induction false} ReadsAfterRestart(
      cap: nat, maxCount: nat, maxFiles: nat, filterSize: nat,
      ops: seq<Op>, s: Index, order: seq<Name>, key: Key)
    requires cap > 0 && maxCount > 0 && filterSize > 0
    requires Reaches(New(cap, Store([], map[], [], [], maxCount, maxFiles), true, filterSize), ops, s)
    requires s.park.None? && Loggable(s.logged) && Listing(s.store, order)
    requires s.log != [] ==> SoundMerge(Reloaded(s.store, order), Replayed(s))
    ensures s.filterSize > 0 && s.store.maxCount > 0
    ensures Reopen(s, order).Some? <==> Reopenable(s, order)
    ensures Reopen(s, order).Some? ==>
              var s' := Reopen(s, order).value;
              && s'.filterSize > 0
              && (Layers(s') == Layers(s) <==> !TriggerLost(s) || IdleTrigger(s))
              && (Answers(Get(s', key), ExpectAll(map[], ops), key) <==>
                    !TriggerLost(s) || key != s.trigger.value.key || DiskAgrees(s, ExpectAll(map[], ops)))
  {
    hide IndexInv;
    hide LogInv;
    hide Represents;
    hide Reaches;
    hide Reopen;
    hide SoundMerge;
    hide Reopenable;
    hide Loggable;
    hide Mentions;
    hide Contents;
    hide Layers;
    hide Overlay;
    hide Replayed;
    hide Get;
    hide TriggerLost;
    hide IdleTrigger;
    hide DiskAgrees;
    var s0 := New(cap, Store([], map[], [], [], maxCount, maxFiles), true, filterSize);
    NewRepresents(cap, maxCount, maxFiles, true, filterSize);
    RunRefinesMap(s0, ops, s, map[]);
    NewLog(cap, maxCount, maxFiles, true, filterSize);
    RunKeepsLog(s0, ops, s);
    RunKeepsFresh(s0, ops, s, map[]);
    InvFilter(s);
    ReopenRecovers(s, order);
    ReadAfterReopenIff(s, order, ExpectAll(map[], ops), key);
  }
}
