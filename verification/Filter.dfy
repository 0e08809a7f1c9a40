// The filter bit by bit, what a read without a value answers, and when a list is parked.
module Filters {
  import opened Keys
  import opened Records
  import opened Images
  import opened Metas
  import opened Stores
  import opened StoreLaws
  import opened MergeTheorem
  import opened LookupLaws
  import opened Reload
  import opened Logs
  import opened Hiraishins
  import opened Indexes
  import opened IndexLaws
  import opened Recovery

  // ---- which bits are set ----------------------------------------------------------------

  /** One of the records has a key with bit i. */
  ghost predicate SetsBit(recs: seq<Rec>, size: nat, i: nat)
    requires size > 0
  {
    exists j :: 0 <= j < |recs| && i in Positions(recs[j].key, size)
  }

  lemma {:induction false} BitsOfIff(recs: seq<Rec>, size: nat, i: nat)
    requires size > 0
    ensures i in BitsOf(recs, size) <==> SetsBit(recs, size, i)
  {
    hide Positions;
    if recs != [] {
      var init := recs[..|recs| - 1];
      BitsOfIff(init, size, i);
      assert forall j :: 0 <= j < |init| ==> init[j] == recs[j];
    }
  }

  /** The scan of a directory sets the bits of the keys in the listed files, and no others. */
  lemma {:induction false} LoadBitsIff(files: map<Name, Image>, order: seq<Name>, size: nat, i: nat)
    requires size > 0 && forall n :: n in order ==> n in files
    ensures i in LoadBits(files, order, size) <==>
              exists name :: name in order && SetsBit(ReadAll(files[name]), size, i)
  {
    hide Positions;
    hide BitsOf;
    hide SetsBit;
    hide ReadAll;
    if order != [] {
      var init, last := order[..|order| - 1], order[|order| - 1];
      LoadBitsIff(files, init, size, i);
      BitsOfIff(ReadAll(files[last]), size, i);
      assert order == init + [last];
    }
  }

  /** The merge of a replayed log sets the bits of the keys it adds, and no others. */
  lemma {:induction false} AddedBitsIff(list: seq<Rec>, size: nat, i: nat)
    requires size > 0
    ensures i in AddedBits(list, size) <==>
              exists j :: 0 <= j < |list| && list[j].opt == ADD && i in Positions(list[j].key, size)
  {
    hide Positions;
    if list != [] {
      var init := list[..|list| - 1];
      AddedBitsIff(init, size, i);
      assert forall j :: 0 <= j < |init| ==> init[j] == list[j];
    }
  }

  lemma {:induction false} StepBits(s: Index, op: Op)
    requires s.filterSize > 0 && s.store.maxCount > 0 && Step(s, op).Some?
    ensures var s' := Step(s, op).value;
            s'.filterSize == s.filterSize &&
            s'.bits == if op.Put? then s.bits + Positions(op.key, s.filterSize) else s.bits
  {
    hide Positions;
    hide Merge;
    hide ValueRecord;
    hide Line;
    if op.Read? {
      ReadKeepsAllButName(s, op.key);
    }
  }

  /** A run sets the bits of the keys that are put, and no others: no removal, no read and no merge sets or
      clears one. */
  lemma {:induction false} RunBitsIff(s0: Index, ops: seq<Op>, s: Index, i: nat)
    requires s0.filterSize > 0 && Reaches(s0, ops, s)
    ensures s.filterSize == s0.filterSize
    ensures i in s.bits <==>
              i in s0.bits || exists j :: 0 <= j < |ops| && ops[j].Put? && i in Positions(ops[j].key, s0.filterSize)
    decreases |ops|
  {
    hide Positions;
    hide Step;
    hide GoodStep;
    if ops != [] {
      var n := |ops| - 1;
      var init, op := ops[..n], ops[n];
      var mid: Index :| Reaches(s0, init, mid) && mid.filterSize > 0 && mid.store.maxCount > 0
                        && GoodStep(mid, op) && Step(mid, op) == Some(s);
      RunBitsIff(s0, init, mid, i);
      StepBits(mid, op);
      assert forall j :: 0 <= j < n ==> init[j] == ops[j];
    }
  }

  /** After a restart the bits are those of the keys in the files and of the keys that the log adds. */
  lemma {:induction false} ReopenBitsIff(s: Index, order: seq<Name>, i: nat)
    requires s.filterSize > 0 && s.store.maxCount > 0 && forall n :: n in order ==> n in s.store.files
    ensures Reopen(s, order).Some? ==>
              (i in Reopen(s, order).value.bits <==>
               || (exists name :: name in order && SetsBit(ReadAll(s.store.files[name]), s.filterSize, i))
               || (var list := Replayed(s);
                   exists j :: 0 <= j < |list| && list[j].opt == ADD && i in Positions(list[j].key, s.filterSize)))
  {
    hide Positions;
    hide Merge;
    hide LoadBits;
    hide LoadDir;
    hide AddedBits;
    hide SetsBit;
    hide ReadAll;
    hide ReplayFrom;
    LoadBitsIff(s.store.files, order, s.filterSize, i);
    AddedBitsIff(Replayed(s), s.filterSize, i);
  }

  // ---- what an absent value is answered with ------------------------------------------------

  /** A read without a value answers -1 exactly if the list holds a tombstone of the key that the filter lets
      through, and 0 otherwise: no offset ever leads behind the value file. */
  lemma {:induction false} AbsentCodes(s: Index, key: Key)
    requires IndexInv(s) && Get(s, key).Absent?
    ensures Get(s, key).code == -1 <==>
              && MayHold(s.bits, key, s.filterSize)
              && exists j :: 0 <= j < |s.list| && s.list[j].key == key && s.list[j].opt == DEL
    ensures Get(s, key).code == -1 || Get(s, key).code == 0
  {
    hide MayHold;
    hide OffsetFor;
    hide ReadValue;
    hide StaleRead;
    hide Layers;
    hide EntryOk;
    hide Inv;
    hide Find;
    hide Lt;
    hide Contents;
    FindIsMembership(s.list, key);
    var node := Find(s.list, key);
    if !(node.Some? && node.value.opt == DEL) {
      OffsetCases(s, key);
      if OffsetFor(s, key) != 0 {
        ReadsEntry(s, key, OffsetFor(s, key));
      }
    }
  }

  // ---- when a list is parked -------------------------------------------------------------------

  /** A write parks the list exactly if it holds as many records as it can: then the new record starts the
      next list and the log starts empty; otherwise the record goes into the list and the log goes on. */
  lemma {:induction false} ParksIff(s: Index, op: Op)
    requires IndexInv(s) && (op.Put? || op.Remove?)
    ensures s.filterSize > 0 && s.store.maxCount > 0
    ensures Step(s, op).Some? ==>
              var s', r := Step(s, op).value, Rec(op.key, |s.db|, if op.Put? then ADD else DEL);
              if |s.list| == s.cap then
                s.park.None? && s'.park == Some(s.list) && s'.list == [r] && s'.log == []
              else
                && s'.park == s.park && s'.list == Upsert(s.list, r)
                && s'.log == s.log + if s.islog then Line(r) else []
  {
    hide Positions;
    hide ValueRecord;
    hide Line;
    hide Inv;
    hide EntryOk;
    hide Contents;
    hide Upsert;
    InvFilter(s);
    OneRecord(NewRec(s, op.key, if op.Put? then Some(op.value) else None));
  }

  lemma {:induction false} OneRecord(r: Rec)
    ensures Upsert([], r) == [r]
  {
  }
}
