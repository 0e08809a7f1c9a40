// The record that triggered a rotation is newer than all that is on disk or on its way there.
module Freshness {
  import opened Keys
  import opened Records
  import opened Stores
  import opened StoreLaws
  import opened MergeTheorem
  import opened Hiraishins
  import opened Logs
  import opened Indexes
  import opened IndexLaws

  ghost predicate OffsetsBelow(m: map<Key, nat>, n: nat) {
    forall k :: k in m ==> m[k] < n
  }

  ghost predicate AddsBelow(recs: seq<Rec>, n: nat) {
    forall i :: 0 <= i < |recs| && recs[i].opt == ADD ==> recs[i].val < n
  }

  /** No file and no parked record refers to the offset of the last trigger or one behind it. */
  ghost predicate TriggerFresh(s: Index) {
    s.trigger.Some? ==>
      OffsetsBelow(Contents(s.store), s.trigger.value.val) && AddsBelow(ParkedRecs(s), s.trigger.value.val)
  }

  lemma {:induction false} OverlayBelow(m: map<Key, nat>, recs: seq<Rec>, n: nat)
    requires OffsetsBelow(m, n) && AddsBelow(recs, n)
    ensures OffsetsBelow(Overlay(m, recs), n)
  {
    if recs != [] {
      OverlayBelow(m, recs[..|recs| - 1], n);
    }
  }

  /** All offsets an index refers to lie inside its value file. */
  lemma {:induction false} EntriesInside(s: Index)
    requires IndexInv(s)
    ensures OffsetsBelow(Contents(s.store), |s.db|) && AddsBelow(s.list, |s.db|)
  {
    hide Inv;
    hide Contents;
    hide MayHold;
    hide ValueRecord;
    forall k | k in Contents(s.store)
      ensures Contents(s.store)[k] < |s.db|
    {
      assert EntryOk(s, k, Contents(s.store)[k]);
    }
    forall i | 0 <= i < |s.list| && s.list[i].opt == ADD
      ensures s.list[i].val < |s.db|
    {
      assert EntryOk(s, s.list[i].key, s.list[i].val);
    }
  }

  lemma {:induction false} AddKeepsFresh(s: Index, key: Key, value: Option<Value>)
    requires IndexInv(s) && TriggerFresh(s) && (IsFull(s) ==> s.park.None?)
    ensures s.filterSize > 0 && TriggerFresh(Add(s, key, value))
  {
    hide Inv;
    hide Contents;
    hide EntryOk;
    hide Line;
    hide ValueRecord;
    hide InsertCap;
    hide Positions;
    if IsFull(s) {
      EntriesInside(s);
    }
  }

  lemma {:induction false} StepKeepsFresh(s: Index, op: Op)
    requires IndexInv(s) && TriggerFresh(s) && GoodStep(s, op) && s.filterSize > 0 && s.store.maxCount > 0
    ensures Step(s, op).Some? ==> TriggerFresh(Step(s, op).value)
  {
    hide IndexInv;
    hide Add;
    hide AfterGet;
    hide Merge;
    hide Contents;
    hide Overlay;
    hide Inv;
    match op
    case MergeJob =>
      if Step(s, op).Some? {
        assert Contents(Step(s, op).value.store) == Overlay(Contents(s.store), s.park.value);
        if s.trigger.Some? {
          OverlayBelow(Contents(s.store), s.park.value, s.trigger.value.val);
        }
      }
    case Put(key, value) =>
      if !(IsFull(s) && s.park.Some?) {
        AddKeepsFresh(s, key, Some(value));
      }
    case Remove(key) =>
      if !(IsFull(s) && s.park.Some?) {
        AddKeepsFresh(s, key, None);
      }
    case Read(key) =>
      ReadKeepsAllButName(s, key);
      ContentsIgnoreName(s.store, AfterGet(s, key).store);
  }

  lemma {:induction false} ContentsIgnoreName(st: Store, st': Store)
    requires st' == st.(name := st'.name)
    ensures Contents(st') == Contents(st)
  {
  }

  lemma {:induction false} RunKeepsFresh(s: Index, ops: seq<Op>, s': Index, m: map<Key, Value>)
    requires IndexInv(s) && Represents(s, m) && TriggerFresh(s) && Reaches(s, ops, s')
    ensures TriggerFresh(s')
    decreases |ops|
  {
    hide IndexInv;
    hide Represents;
    hide TriggerFresh;
    hide GoodStep;
    hide Step;
    if ops != [] {
      var init, op := ops[..|ops| - 1], ops[|ops| - 1];
      var mid: Index :| Reaches(s, init, mid) && mid.filterSize > 0 && mid.store.maxCount > 0
                        && GoodStep(mid, op) && Step(mid, op) == Some(s');
      RunKeepsFresh(s, init, mid, m);
      RunRefinesMap(s, init, mid, m);
      StepKeepsFresh(mid, op);
    }
  }
}
