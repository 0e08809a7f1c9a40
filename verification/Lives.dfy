// Many lives of one store: each is opened on what the one before left, runs, and ends in a crash or is closed.
module Lives {
  import opened Keys
  import opened Records
  import opened Merging
  import opened Images
  import opened Metas
  import opened Stores
  import opened StoreLaws
  import opened MergeLaws
  import opened MergeTheorem
  import opened Reload
  import opened Logs
  import opened Indexes
  import opened IndexLaws
  import opened LogLaws
  import opened Freshness
  import opened Recovery

  // ---- what every step of a life keeps ----------------------------------------------------------

  /** The index is sound, its log gives its list, and it holds what the map says. */
  ghost predicate Alive(s: Index, m: map<Key, Value>) {
    IndexInv(s) && LogInv(s) && TriggerFresh(s) && s.islog && Represents(s, m)
  }

  lemma {:induction false} RunStaysAlive(s: Index, ops: seq<Op>, s': Index, m: map<Key, Value>)
    requires Alive(s, m) && Reaches(s, ops, s')
    ensures Alive(s', ExpectAll(m, ops))
  {
    hide LogInv;
    hide TriggerFresh;
    hide Represents;
    hide Reaches;
    hide ExpectAll;
    RunRefinesMap(s, ops, s', m);
    AliveCap(s, m);
    hide IndexInv;
    RunKeepsLog(s, ops, s');
    RunKeepsFresh(s, ops, s', m);
  }

  lemma {:induction false} AliveCap(s: Index, m: map<Key, Value>)
    requires Alive(s, m)
    ensures s.cap > 0 && s.filterSize > 0 && s.store.maxCount > 0
  {
    hide LogInv;
    hide TriggerFresh;
    hide Represents;
    InvFilter(s);
  }

  /** A close loses nothing: what was only in the list, the last trigger too, is in the files. */
  lemma {:induction false} CloseStaysAlive(s: Index, m: map<Key, Value>)
    requires Alive(s, m) && s.park.None?
    ensures s.store.maxCount > 0
    ensures (s.list != [] ==> SoundMerge(s.store, s.list)) && Closed(s).Some? ==>
              Alive(Closed(s).value, m) && Closed(s).value.list == [] && Closed(s).value.park.None?
              && (s.list != [] ==> Closed(s).value.log == [] && Closed(s).value.logged == [])
  {
    hide Inv;
    hide LogInv;
    hide Merge;
    hide Contents;
    hide EntryOk;
    hide HoldsValue;
    hide Sorted;
    hide Overlay;
    AliveCap(s, m);
    NothingOverlaid(Contents(s.store));
    if (s.list != [] ==> SoundMerge(s.store, s.list)) && Closed(s).Some? && s.list != [] {
      var s' := Closed(s).value;
      NothingOverlaid(Contents(s'.store));
      EmptySorted();
      OverlayOk(s, Contents(s.store), s.list);
      SameEntries(s, s', s.list, Contents(s'.store));
      EmptyOk(s');
      FreshLog(s');
    }
  }

  /** A close goes through exactly if there is nothing to merge, or it merges right. */
  lemma {:induction false} CloseGoesThroughIff(s: Index)
    requires s.store.maxCount > 0 && (s.list != [] ==> SoundMerge(s.store, s.list))
    ensures Closed(s).Some? <==> s.list == [] || MergesRight(s.store, s.list)
  {
    hide Inv;
    hide Merge;
    hide Contents;
    hide Overlay;
  }

  // ---- what a crash leaves of the map -------------------------------------------------------------

  /** The value that stands at an offset. */
  ghost function ValueAt(db: seq<Byte>, off: nat): Value {
    if v: Value :| HoldsValue(db, off, v) then v else []
  }

  lemma {:induction false} ValueStands(db: seq<Byte>, off: nat)
    requires exists v: Value :: HoldsValue(db, off, v)
    ensures HoldsValue(db, off, ValueAt(db, off))
  {
    hide HoldsValue;
  }

  /** What is left of the map after a crash: the key of a lost trigger falls back to what is on disk. */
  ghost function Kept(s: Index, m: map<Key, Value>): map<Key, Value> {
    if !TriggerLost(s) then m else
      var k := s.trigger.value.key;
      if k in Contents(s.store) then m[k := ValueAt(s.db, Contents(s.store)[k])] else m - {k}
  }

  /** No trigger is lost, or a tombstone that nothing needs: then the map is kept whole. */
  lemma {:induction false} KeptWhole(s: Index, m: map<Key, Value>)
    requires Alive(s, m) && s.park.None? && Loggable(s.logged)
    requires !TriggerLost(s) || IdleTrigger(s)
    ensures Kept(s, m) == m
  {
    hide IndexInv;
    hide LogInv;
    hide Represents;
    hide Loggable;
    hide Mentions;
    hide Contents;
    hide TriggerFresh;
    if TriggerLost(s) {
      TriggerExpected(s, m);
    }
  }

  /** A crash with no merge pending, and the restart: the files in the order they are listed. */
  ghost predicate CrashOk(s: Index, order: seq<Name>)
    requires s.store.maxCount > 0
  {
    && s.park.None? && Loggable(s.logged) && Listing(s.store, order)
    && (s.log != [] ==> SoundMerge(Reloaded(s.store, order), Replayed(s)))
  }

  lemma {:induction false} ListingIn(st: Store, order: seq<Name>)
    requires Listing(st, order)
    ensures forall n :: n in order ==> n in st.files
  {
  }

  lemma {:induction false} DiskHolds(s: Index, k: Key)
    requires IndexInv(s) && k in Contents(s.store)
    ensures HoldsValue(s.db, Contents(s.store)[k], ValueAt(s.db, Contents(s.store)[k]))
  {
    hide Inv;
    hide Contents;
    hide HoldsValue;
    hide ValueAt;
    assert EntryOk(s, k, Contents(s.store)[k]);
    ValueStands(s.db, Contents(s.store)[k]);
  }

  lemma {:induction false} CrashKeeps(s: Index, s': Index, m: map<Key, Value>)
    requires IndexInv(s) && LogInv(s) && s.islog && s.park.None? && Loggable(s.logged) && Represents(s, m)
    requires s'.db == s.db && Layers(s') == Overlay(Contents(s.store), Replayed(s))
    ensures Represents(s', Kept(s, m))
  {
    hide IndexInv;
    hide LogInv;
    hide Loggable;
    hide Mentions;
    hide Contents;
    hide Replayed;
    hide Overlay;
    hide Layers;
    hide HoldsValue;
    hide ValueAt;
    var after, kept := Layers(s'), Kept(s, m);
    forall k: Key
      ensures k in after <==> k in kept
      ensures k in kept && k in after ==> HoldsValue(s'.db, after[k], kept[k])
    {
      LayersWithoutTrigger(s, k);
      if TriggerLost(s) && k == s.trigger.value.key {
        if k in Contents(s.store) {
          DiskHolds(s, k);
        }
      }
    }
  }

  lemma {:induction false} ReopenResets(s: Index, order: seq<Name>)
    requires s.filterSize > 0 && s.store.maxCount > 0 && forall n :: n in order ==> n in s.store.files
    ensures Reopen(s, order).Some? ==>
              var s' := Reopen(s, order).value;
              s'.list == [] && s'.park.None? && s'.trigger.None? && s'.islog == s.islog
  {
    hide LoadDir;
    hide LoadBits;
    hide AddedBits;
    hide ReplayFrom;
    hide Merge;
  }

  /** A restart behind a crash: the index is sound again, and holds what is left of the map. */
  lemma {:induction false} CrashStaysAlive(s: Index, order: seq<Name>, m: map<Key, Value>)
    requires Alive(s, m) && s.store.maxCount > 0 && CrashOk(s, order)
    ensures s.filterSize > 0 && forall n :: n in order ==> n in s.store.files
    ensures Reopen(s, order).Some? <==> Reopenable(s, order)
    ensures Reopen(s, order).Some? ==> Alive(Reopen(s, order).value, Kept(s, m))
  {
    hide IndexInv;
    hide LogInv;
    hide Represents;
    hide Loggable;
    hide Mentions;
    hide Contents;
    hide Replayed;
    hide Reopen;
    hide Kept;
    hide Overlay;
    hide Layers;
    hide TriggerLost;
    hide IdleTrigger;
    hide SoundMerge;
    hide Reopenable;
    ListingIn(s.store, order);
    AliveCap(s, m);
    ReopenRecovers(s, order);
    ReopenResets(s, order);
    if Reopen(s, order).Some? {
      CrashKeeps(s, Reopen(s, order).value, m);
    }
  }

  // ---- any number of lives ----------------------------------------------------------------------------

  datatype Life = Life(ops: seq<Op>, closed: bool, order: seq<Name>)

  /** The state at the end of a life, and what is expected of it: as it crashed, or closed. */
  ghost predicate Ends(s: Index, m: map<Key, Value>, closed: bool, e: Index) {
    if !closed then e == s else
      && s.store.maxCount > 0 && s.park.None? && (s.list != [] ==> SoundMerge(s.store, s.list))
      && Closed(s) == Some(e)
  }

  /** Nothing is forgotten over a close. */
  lemma {:induction false} CloseForgetsNothing(s: Index, m: map<Key, Value>, e: Index)
    requires Alive(s, m) && Ends(s, m, true, e)
    ensures Kept(e, m) == m && e.trigger.None?
  {
    hide IndexInv;
    hide TriggerFresh;
    hide Represents;
    hide Merge;
    hide SoundMerge;
    hide NoneRefused;
    hide UpsertAll;
    if s.list == [] {
      var rs := TriggerRecs(s) + s.logged;
      NoneRefusedInsertsAll(s.cap, rs);
      hide InsertAll;
      EmptySorted();
      if rs != [] {
        UpsertAllHolds([], rs);
      }
    }
  }

  /** s is what is there after the lives, opened again, and m what is left of all that they wrote. */
  ghost predicate Lived(s0: Index, lives: seq<Life>, s: Index, m: map<Key, Value>)
    decreases |lives|
  {
    if lives == [] then s == s0 && m == map[] else
      var life := lives[|lives| - 1];
      exists s1: Index, m1: map<Key, Value>, s2: Index, e: Index ::
        && Lived(s0, lives[..|lives| - 1], s1, m1) && Reaches(s1, life.ops, s2)
        && Ends(s2, ExpectAll(m1, life.ops), life.closed, e)
        && e.filterSize > 0 && e.store.maxCount > 0 && CrashOk(e, life.order)
        && (forall n :: n in life.order ==> n in e.store.files) && Reopen(e, life.order) == Some(s)
        && m == Kept(e, ExpectAll(m1, life.ops))
  }

  lemma {:induction false} EndStaysAlive(s: Index, m: map<Key, Value>, closed: bool, e: Index)
    requires Alive(s, m) && Ends(s, m, closed, e)
    ensures Alive(e, m)
  {
    hide Alive;
    hide Closed;
    hide SoundMerge;
    if closed {
      CloseStaysAlive(s, m);
    }
  }

  lemma {:induction false} LivesStayAlive(s0: Index, lives: seq<Life>, s: Index, m: map<Key, Value>)
    requires Alive(s0, map[]) && Lived(s0, lives, s, m)
    ensures Alive(s, m)
    decreases |lives|
  {
    hide Alive;
    hide Ends;
    hide CrashOk;
    hide Reopen;
    hide Kept;
    hide Reaches;
    hide ExpectAll;
    if lives != [] {
      var life := lives[|lives| - 1];
      var s1: Index, m1: map<Key, Value>, s2: Index, e: Index :|
        && Lived(s0, lives[..|lives| - 1], s1, m1) && Reaches(s1, life.ops, s2)
        && Ends(s2, ExpectAll(m1, life.ops), life.closed, e)
        && e.filterSize > 0 && e.store.maxCount > 0 && CrashOk(e, life.order)
        && (forall n :: n in life.order ==> n in e.store.files) && Reopen(e, life.order) == Some(s)
        && m == Kept(e, ExpectAll(m1, life.ops));
      LivesStayAlive(s0, lives[..|lives| - 1], s1, m1);
      RunStaysAlive(s1, life.ops, s2, m1);
      EndStaysAlive(s2, ExpectAll(m1, life.ops), life.closed, e);
      CrashStaysAlive(e, life.order, ExpectAll(m1, life.ops));
    }
  }

  /** A life is followed by another: whatever the run was, and whether it crashed or was closed, the store
      opens again exactly if what the log gives merges right or there is none. */
  lemma {:induction false} LifeGoesOnIff(s0: Index, lives: seq<Life>, s1: Index, m1: map<Key, Value>, life: Life,
                                         s2: Index, e: Index)
    requires Alive(s0, map[]) && Lived(s0, lives, s1, m1) && Reaches(s1, life.ops, s2)
    requires Ends(s2, ExpectAll(m1, life.ops), life.closed, e)
    requires e.store.maxCount > 0 && CrashOk(e, life.order)
    ensures e.filterSize > 0 && forall n :: n in life.order ==> n in e.store.files
    ensures Reopen(e, life.order).Some? <==> Reopenable(e, life.order)
    ensures Reopenable(e, life.order) ==>
              Lived(s0, lives + [life], Reopen(e, life.order).value, Kept(e, ExpectAll(m1, life.ops)))
  {
    hide Alive;
    hide Ends;
    hide CrashOk;
    hide Reopen;
    hide Reopenable;
    hide Kept;
    hide Reaches;
    hide ExpectAll;
    LivesStayAlive(s0, lives, s1, m1);
    RunStaysAlive(s1, life.ops, s2, m1);
    EndStaysAlive(s2, ExpectAll(m1, life.ops), life.closed, e);
    AliveCap(e, ExpectAll(m1, life.ops));
    CrashStaysAlive(e, life.order, ExpectAll(m1, life.ops));
    var all := lives + [life];
    assert all[..|all| - 1] == lives && all[|all| - 1] == life;
  }

  lemma {:induction false} BornAlive(cap: nat, maxCount: nat, maxFiles: nat, filterSize: nat)
    requires cap > 0 && maxCount > 0 && filterSize > 0
    ensures Alive(Booted(cap, maxCount, maxFiles, true, filterSize, map[], [], None, []), map[])
  {
    hide IndexInv;
    hide LogInv;
    hide Represents;
    hide Booted;
    BootedOnNothing(cap, maxCount, maxFiles, true, filterSize);
    NewRepresents(cap, maxCount, maxFiles, true, filterSize);
    NewLog(cap, maxCount, maxFiles, true, filterSize);
  }

  /** Any number of lives, opened first on an empty directory, and one more run: a read answers what one
      map would, exactly unless it is stale. Of the map, a crash forgets what it forgets of the key of a
      lost trigger; a close forgets nothing. */
  lemma {:induction false} ReadsOverLives(
      cap: nat, maxCount: nat, maxFiles: nat, filterSize: nat,
      lives: seq<Life>, s1: Index, m: map<Key, Value>, ops: seq<Op>, s: Index, key: Key)
    requires cap > 0 && maxCount > 0 && filterSize > 0
    requires Lived(Booted(cap, maxCount, maxFiles, true, filterSize, map[], [], None, []), lives, s1, m)
    requires Reaches(s1, ops, s)
    ensures s.filterSize > 0
    ensures Answers(Get(s, key), ExpectAll(m, ops), key) <==> !StaleRead(s, key)
  {
    hide IndexInv;
    hide LogInv;
    hide TriggerFresh;
    hide Represents;
    hide Lived;
    hide Reaches;
    hide Booted;
    hide ExpectAll;
    hide Get;
    hide StaleRead;
    BornAlive(cap, maxCount, maxFiles, filterSize);
    LivesStayAlive(Booted(cap, maxCount, maxFiles, true, filterSize, map[], [], None, []), lives, s1, m);
    RunStaysAlive(s1, ops, s, m);
    GetExact(s, ExpectAll(m, ops), key);
  }
}
