// What the index never refuses: adds, merges and reads that go through.
module Liveness {
  import opened Keys
  import opened Records
  import opened Stores
  import opened StoreLaws
  import opened MergeLaws
  import opened MergeTheorem
  import opened Logs
  import opened Indexes
  import opened IndexLaws
  import opened AnyLists

  /** The list is full and the one before is still parked: an add has to wait. */
  predicate Blocked(s: Index) {
    |s.list| >= s.cap && s.park.Some?
  }

  /** A merge of the parked list stops the process. */
  ghost predicate MergeWouldStop(s: Index)
    requires s.store.maxCount > 0
  {
    s.park.Some? && Merge(s.store, s.park.value).Stopped?
  }

  /** A step is refused in three cases only: an add to a full list with one parked, a merge with
      nothing parked, and a merge that stops. */
  lemma {:induction false} RefusedIff(s: Index, op: Op)
    requires s.filterSize > 0 && s.store.maxCount > 0
    ensures Step(s, op).None? <==>
              || ((op.Put? || op.Remove?) && Blocked(s))
              || (op.MergeJob? && (s.park.None? || MergeWouldStop(s)))
  {
    hide Merge;
    hide Add;
    hide AfterGet;
  }

  /** What the background merge does when it goes through: the parked list is in the files, its slot is
      free, and nothing else has changed. */
  ghost predicate Merged(s: Index, s': Index) {
    && s.park.Some? && s'.park.None? && s' == s.(park := None, store := s'.store)
    && Inv(s'.store) && Contents(s'.store) == Overlay(Contents(s.store), s.park.value)
  }

  /** A parked list that merges right is merged. */
  lemma {:induction false} RightMergeGoesThrough(s: Index)
    requires s.filterSize > 0 && s.store.maxCount > 0 && s.park.Some? && MergesRight(s.store, s.park.value)
    ensures Step(s, MergeJob).Some? && Merged(s, Step(s, MergeJob).value)
  {
    hide Merge;
    hide Inv;
    hide Contents;
    hide Overlay;
  }

  /** Of a parked list that routes uniformly and cuts at most the last file it touches, the merge goes
      through exactly if every chunk it writes keeps a record, however long the list is. */
  lemma {:induction false} MergeGoesThroughIff(s: Index)
    requires IndexInv(s) && s.park.Some? && Mergeable(s.store, s.park.value)
    ensures s.filterSize > 0 && s.store.maxCount > 0
    ensures Step(s, MergeJob).Some? <==> EveryChunkHasAdds(s.store, s.park.value)
    ensures Step(s, MergeJob).Some? ==> Merged(s, Step(s, MergeJob).value)
  {
    hide Inv;
    hide Merge;
    hide Mergeable;
    hide Contents;
    hide Overlay;
    hide EntryOk;
    hide EveryChunkHasAdds;
    hide MergedInto;
    hide Sorted;
    InvFilter(s);
    MergeCorrect(s.store, s.park.value);
    MergeableIsSound(s.store, s.park.value);
  }

  /** Every parked list that is right for the store is merged. */
  lemma {:induction false} RightListGoesThrough(s: Index)
    requires IndexInv(s) && s.park.Some? && s.park.value != [] && s.store.maxCount > 1
    requires MergeFits(s.store, s.park.value) && RightAtAll(s.store, s.park.value)
    ensures s.filterSize > 0 && Step(s, MergeJob).Some? && Merged(s, Step(s, MergeJob).value)
  {
    hide Inv;
    hide Merge;
    hide MergesRight;
    hide MergeFits;
    hide RightAtAll;
    hide Contents;
    hide EntryOk;
    hide Sorted;
    InvFilter(s);
    ParkedIsSorted(s);
    MergesRightExactly(s.store, s.park.value);
    RightMergeGoesThrough(s);
  }

  lemma {:induction false} ParkedIsSorted(s: Index)
    requires IndexInv(s) && s.park.Some?
    ensures Inv(s.store) && Sorted(s.park.value)
  {
    hide Inv;
    hide Contents;
    hide EntryOk;
    hide Sorted;
  }

  /** An add that has to wait goes through once the parked list is merged. */
  lemma {:induction false} MergeUnblocks(s: Index, op: Op)
    requires s.filterSize > 0 && s.store.maxCount > 0 && s.park.Some? && MergesRight(s.store, s.park.value)
    requires op.Put? || op.Remove?
    ensures Step(s, MergeJob).Some?
    ensures var s' := Step(s, MergeJob).value;
            s'.filterSize > 0 && s'.store.maxCount > 0 && Step(s', op).Some?
  {
    hide Merge;
    hide MergesRight;
    hide Add;
    hide Inv;
    hide Contents;
    hide Overlay;
    RightMergeGoesThrough(s);
    var s' := Step(s, MergeJob).value;
    PositiveStays(s, s');
    RefusedIff(s', op);
  }

  lemma {:induction false} PositiveStays(s: Index, s': Index)
    requires Merged(s, s')
    ensures s'.store.maxCount > 0 && s'.filterSize == s.filterSize && s'.park.None?
  {
    hide Contents;
    hide Overlay;
  }

  // ---- whole runs ----------------------------------------------------------------------------------------

  /** In this state the operation does not have to wait, and if it is a merge, that is right. */
  ghost predicate Enabled(s: Index, op: Op) {
    match op
    case MergeJob => s.park.Some? && s.store.maxCount > 0 && MergesRight(s.store, s.park.value)
    case Put(_, _) => !Blocked(s)
    case Remove(_) => !Blocked(s)
    case Read(_) => true
  }

  /** A run each of whose operations is enabled in turn comes to its end. */
  lemma {:induction false} EnabledRunsGoOn(s0: Index, ops: seq<Op>, m: map<Key, Value>) returns (s: Index)
    requires IndexInv(s0) && Represents(s0, m)
    requires forall i, mid: Index :: 0 <= i < |ops| && Reaches(s0, ops[..i], mid) ==> Enabled(mid, ops[i])
    ensures Reaches(s0, ops, s) && IndexInv(s) && Represents(s, ExpectAll(m, ops))
    decreases |ops|
  {
    hide IndexInv;
    hide Represents;
    hide Enabled;
    if ops == [] {
      s := s0;
    } else {
      var n := |ops| - 1;
      var init, op := ops[..n], ops[n];
      forall i, mid: Index | 0 <= i < |init| && Reaches(s0, init[..i], mid)
        ensures Enabled(mid, init[i])
      {
        assert init[..i] == ops[..i];
      }
      var mid := EnabledRunsGoOn(s0, init, m);
      InvFilter(mid);
      EnabledIsTaken(mid, op);
      s := Step(mid, op).value;
      RunRefinesMap(s0, ops, s, m);
    }
  }

  lemma {:induction false} EnabledIsTaken(s: Index, op: Op)
    requires s.filterSize > 0 && s.store.maxCount > 0 && Enabled(s, op)
    ensures Step(s, op).Some? && GoodStep(s, op)
  {
    hide Merge;
    hide Inv;
    hide Contents;
    hide Overlay;
    hide Add;
    hide AfterGet;
    RefusedIff(s, op);
  }
}
