// The log rebuilds the list in memory, up to the record that triggered the last rotation.
module LogLaws {
  import opened Keys
  import opened Records
  import opened Merging
  import opened Stores
  import opened Logs
  import opened Hiraishins
  import opened Indexes
  import opened IndexLaws

  function TriggerRecs(s: Index): seq<Rec> {
    if s.trigger.Some? then [s.trigger.value] else []
  }

  /** The log file holds the lines of the logged records, and the list is what inserting the
      trigger and then the logged records gives, with none of them refused. */
  ghost predicate LogInv(s: Index) {
    && (s.islog ==> s.log == Lines(s.logged))
    && s.list == InsertAll([], s.cap, TriggerRecs(s) + s.logged)
    && NoneRefused(s.cap, TriggerRecs(s) + s.logged)
  }

  /** Each record of the sequence finds the list below capacity. */
  ghost predicate NoneRefused(cap: nat, rs: seq<Rec>) {
    forall i :: 0 <= i < |rs| ==> HasSpace(cap, rs[..i])
  }

  ghost predicate HasSpace(cap: nat, rs: seq<Rec>) {
    |UpsertAll([], rs)| < cap
  }

  lemma {:induction false} NoneRefusedInsertsAll(cap: nat, rs: seq<Rec>)
    requires NoneRefused(cap, rs)
    ensures InsertAll([], cap, rs) == UpsertAll([], rs)
  {
    if rs != [] {
      var init := rs[..|rs| - 1];
      assert forall i :: 0 <= i < |init| ==> init[..i] == rs[..i];
      NoneRefusedInsertsAll(cap, init);
      assert HasSpace(cap, rs[..|rs| - 1]);
    }
  }

  lemma {:induction false} LogOneMore(cap: nat, rs: seq<Rec>, r: Rec)
    requires NoneRefused(cap, rs) && |InsertAll([], cap, rs)| < cap
    ensures NoneRefused(cap, rs + [r])
    ensures InsertAll([], cap, rs + [r]) == InsertCap(InsertAll([], cap, rs), cap, r)
  {
    hide InsertCap;
    NoneRefusedInsertsAll(cap, rs);
    var t := rs + [r];
    assert t[..|rs|] == rs;
    forall i | 0 <= i < |t|
      ensures HasSpace(cap, t[..i])
    {
      if i < |rs| {
        assert t[..i] == rs[..i];
      }
    }
  }

  lemma {:induction false} LinesOneMore(rs: seq<Rec>, r: Rec)
    ensures Lines(rs + [r]) == Lines(rs) + Line(r)
  {
    hide Line;
    assert (rs + [r])[..|rs|] == rs;
  }

  lemma {:induction false} AddKeepsLog(s: Index, key: Key, value: Option<Value>)
    requires LogInv(s) && s.filterSize > 0 && s.cap > 0
    ensures LogInv(Add(s, key, value))
  {
    hide Line;
    hide Lines;
    hide InsertCap;
    hide InsertAll;
    hide NoneRefused;
    hide Positions;
    hide ValueRecord;
    var r := NewRec(s, key, value);
    if IsFull(s) {
      FirstRecord(s.cap, r);
      assert [r] + [] == [r];
      NoLines();
    } else {
      var rs := TriggerRecs(s) + s.logged;
      LogOneMore(s.cap, rs, r);
      LinesOneMore(s.logged, r);
      assert rs + [r] == TriggerRecs(s) + (s.logged + [r]);
    }
  }

  lemma {:induction false} NoLines()
    ensures Lines([]) == []
  {
  }

  lemma {:induction false} FirstRecord(cap: nat, r: Rec)
    requires cap > 0
    ensures NoneRefused(cap, [r]) && InsertAll([], cap, [r]) == InsertCap([], cap, r)
  {
    assert [r][..0] == [];
    assert UpsertAll([], []) == [] && InsertAll([], cap, []) == [];
    assert forall i :: 0 <= i < 1 ==> [r][..i] == [];
  }

  lemma {:induction false} StepKeepsLog(s: Index, op: Op)
    requires LogInv(s) && s.filterSize > 0 && s.store.maxCount > 0 && s.cap > 0
    ensures Step(s, op).Some? ==> LogInv(Step(s, op).value)
    ensures Step(s, op).Some? ==> Step(s, op).value.cap == s.cap && Step(s, op).value.islog == s.islog
  {
    hide Add;
    hide AfterGet;
    hide LogInv;
    hide Merge;
    match op
    case MergeJob =>
      if Step(s, op).Some? {
        SameLog(s, Step(s, op).value);
      }
    case Put(key, value) =>
      AddKeepsLog(s, key, Some(value));
      AddKeepsCap(s, key, Some(value));
    case Remove(key) =>
      AddKeepsLog(s, key, None);
      AddKeepsCap(s, key, None);
    case Read(key) =>
      ReadKeepsAllButName(s, key);
      SameLog(s, AfterGet(s, key));
  }

  lemma {:induction false} AddKeepsCap(s: Index, key: Key, value: Option<Value>)
    requires s.filterSize > 0
    ensures Add(s, key, value).cap == s.cap && Add(s, key, value).islog == s.islog
  {
  }

  lemma {:induction false} SameLog(s: Index, s': Index)
    requires LogInv(s) && s' == s.(store := s'.store, park := s'.park)
    ensures LogInv(s')
  {
  }

  lemma {:induction false} RunKeepsLog(s: Index, ops: seq<Op>, s': Index)
    requires LogInv(s) && s.cap > 0 && Reaches(s, ops, s')
    ensures LogInv(s') && s'.cap == s.cap && s'.islog == s.islog
    decreases |ops|
  {
    hide LogInv;
    hide Step;
    hide GoodStep;
    if ops != [] {
      var init, op := ops[..|ops| - 1], ops[|ops| - 1];
      var mid: Index :| Reaches(s, init, mid) && mid.filterSize > 0 && mid.store.maxCount > 0
                        && GoodStep(mid, op) && Step(mid, op) == Some(s');
      RunKeepsLog(s, init, mid);
      StepKeepsLog(mid, op);
    }
  }

  /** Replaying the current log rebuilds the list before the first rotation; after one, the
      trigger has to be inserted first. */
  lemma {:induction false} ReplayRebuilds(s: Index)
    requires LogInv(s) && s.islog && Loggable(s.logged)
    ensures Parse(s.log) == Some(s.logged)
    ensures s.trigger.None? ==> ReplayFrom([], s.cap, s.log) == Some(s.list)
    ensures s.trigger.Some? ==> ReplayFrom(InsertCap([], s.cap, s.trigger.value), s.cap, s.log) == Some(s.list)
  {
    hide Parse;
    hide ReplayFrom;
    hide NoneRefused;
    hide InsertCap;
    ParseUndoesLines(s.logged);
    if s.trigger.Some? {
      ReplayIsInsertAll(InsertCap([], s.cap, s.trigger.value), s.cap, s.log);
      InsertAllFront([], s.cap, s.trigger.value, s.logged);
    } else {
      ReplayIsInsertAll([], s.cap, s.log);
      assert [] + s.logged == s.logged;
    }
  }

  // ---- exactly when the trigger is missed ----------------------------------------------------

  ghost predicate Mentions(rs: seq<Rec>, key: Key) {
    exists i :: 0 <= i < |rs| && rs[i].key == key
  }

  lemma {:induction false} UpsertSameKey(s: seq<Rec>, t: Rec, r: Rec)
    requires Sorted(s) && t.key == r.key
    ensures Upsert(Upsert(s, t), r) == Upsert(s, r)
  {
    hide Upsert;
    UpsertSorted(s, t);
    UpsertSorted(s, r);
    UpsertSorted(Upsert(s, t), r);
    SortedSameElements(Upsert(Upsert(s, t), r), Upsert(s, r));
  }

  lemma {:induction false} UpsertCommutes(s: seq<Rec>, t: Rec, r: Rec)
    requires Sorted(s) && t.key != r.key
    ensures Upsert(Upsert(s, t), r) == Upsert(Upsert(s, r), t)
  {
    hide Upsert;
    UpsertSorted(s, t);
    UpsertSorted(s, r);
    UpsertSorted(Upsert(s, t), r);
    UpsertSorted(Upsert(s, r), t);
    SortedSameElements(Upsert(Upsert(s, t), r), Upsert(Upsert(s, r), t));
  }

  /** A first record matters only if no later one has its key. */
  lemma {:induction false} WithoutFirst(t: Rec, rs: seq<Rec>)
    ensures UpsertAll([], [t] + rs) ==
            if Mentions(rs, t.key) then UpsertAll([], rs) else Upsert(UpsertAll([], rs), t)
  {
    hide Upsert;
    if rs == [] {
      assert [t] + rs == [t] && [t][..0] == [];
      assert UpsertAll([], []) == [];
    } else {
      var init, last := rs[..|rs| - 1], rs[|rs| - 1];
      assert ([t] + rs)[..|rs|] == [t] + init;
      WithoutFirst(t, init);
      MentionsSplit(rs, t.key);
      EmptySorted();
      UpsertAllSorted([], init);
      if !Mentions(init, t.key) {
        if last.key == t.key {
          UpsertSameKey(UpsertAll([], init), t, last);
        } else {
          UpsertCommutes(UpsertAll([], init), t, last);
        }
      }
    }
  }

  lemma {:induction false} MentionsSplit(rs: seq<Rec>, key: Key)
    requires rs != []
    ensures Mentions(rs, key) <==> Mentions(rs[..|rs| - 1], key) || rs[|rs| - 1].key == key
  {
    var init := rs[..|rs| - 1];
    if Mentions(init, key) {
      var i :| 0 <= i < |init| && init[i].key == key;
      assert rs[i].key == key;
    }
    if Mentions(rs, key) {
      var i :| 0 <= i < |rs| && rs[i].key == key;
      assert i < |init| ==> init[i].key == key;
    }
  }

  lemma {:induction false} UnmentionedAbsent(rs: seq<Rec>, t: Rec)
    requires !Mentions(rs, t.key)
    ensures t !in UpsertAll([], rs)
  {
    EmptySorted();
    UpsertAllSorted([], rs);
  }

  /** Without the trigger no insertion is refused either. */
  lemma {:induction false} NoneRefusedWithout(cap: nat, t: Rec, rs: seq<Rec>)
    requires NoneRefused(cap, [t] + rs)
    ensures NoneRefused(cap, rs)
  {
    hide UpsertAll;
    hide Upsert;
    forall i | 0 <= i < |rs|
      ensures HasSpace(cap, rs[..i])
    {
      assert ([t] + rs)[..i + 1] == [t] + rs[..i];
      assert HasSpace(cap, ([t] + rs)[..i + 1]);
      WithoutFirst(t, rs[..i]);
      EmptySorted();
      UpsertAllSorted([], rs[..i]);
      UpsertSorted(UpsertAll([], rs[..i]), t);
    }
  }

  /** The current log alone rebuilds the list exactly when there was no rotation yet or a
      later record has the trigger's key; otherwise the trigger is what is missing. */
  lemma {:induction false} LogRebuildsIff(s: Index)
    requires LogInv(s) && s.islog && Loggable(s.logged)
    ensures ReplayFrom([], s.cap, s.log) == Some(s.list) <==>
              s.trigger.None? || Mentions(s.logged, s.trigger.value.key)
    ensures s.trigger.Some? && !Mentions(s.logged, s.trigger.value.key) ==>
              ReplayFrom([], s.cap, s.log).Some?
              && s.list == Upsert(ReplayFrom([], s.cap, s.log).value, s.trigger.value)
              && s.trigger.value !in ReplayFrom([], s.cap, s.log).value
  {
    hide Parse;
    hide ReplayFrom;
    hide Upsert;
    hide Loggable;
    hide NoneRefused;
    hide Lines;
    ReplayRebuilds(s);
    ReplayIsInsertAll([], s.cap, s.log);
    if s.trigger.Some? {
      var t := s.trigger.value;
      NoneRefusedWithout(s.cap, t, s.logged);
      NoneRefusedInsertsAll(s.cap, s.logged);
      NoneRefusedInsertsAll(s.cap, [t] + s.logged);
      hide InsertAll;
      WithoutFirst(t, s.logged);
      if !Mentions(s.logged, t.key) {
        UnmentionedAbsent(s.logged, t);
        EmptySorted();
        UpsertAllSorted([], s.logged);
        UpsertSorted(UpsertAll([], s.logged), t);
      }
    }
  }

  lemma {:induction false} FreshLog(s: Index)
    requires s.list == [] && s.log == [] && s.trigger == None && s.logged == []
    ensures LogInv(s)
  {
    assert [] + s.logged == [];
    assert InsertAll([], s.cap, []) == [];
  }

  lemma {:induction false} NewLog(cap: nat, maxCount: nat, maxFiles: nat, islog: bool, filterSize: nat)
    ensures var s := New(cap, Store([], map[], [], [], maxCount, maxFiles), islog, filterSize);
            LogInv(s) && s.cap == cap && s.islog == islog
  {
    FreshLog(New(cap, Store([], map[], [], [], maxCount, maxFiles), islog, filterSize));
  }

  /** After any run from an empty store the bytes of the current log rebuild the list, exactly if no
      rotation happened yet or the record that triggered the last one was written again after it. */
  lemma {:induction false} LogOfRunRebuildsIff(cap: nat, maxCount: nat, maxFiles: nat, filterSize: nat,
                                               ops: seq<Op>, s: Index)
    requires cap > 0
    requires Reaches(New(cap, Store([], map[], [], [], maxCount, maxFiles), true, filterSize), ops, s)
    requires Loggable(s.logged)
    ensures ReplayFrom([], cap, s.log) == Some(s.list) <==>
              s.trigger.None? || Mentions(s.logged, s.trigger.value.key)
    ensures s.trigger.Some? ==> ReplayFrom(InsertCap([], cap, s.trigger.value), cap, s.log) == Some(s.list)
  {
    hide LogInv;
    hide Reaches;
    hide New;
    hide ReplayFrom;
    hide Mentions;
    hide Loggable;
    NewLog(cap, maxCount, maxFiles, true, filterSize);
    RunKeepsLog(New(cap, Store([], map[], [], [], maxCount, maxFiles), true, filterSize), ops, s);
    LogRebuildsIff(s);
    ReplayRebuilds(s);
  }

  // ---- the value file over whole runs ------------------------------------------------------------

  lemma {:induction false} GrowsOn(a: Index, b: Index, c: Index)
    requires Grows(a, b) && Grows(b, c)
    ensures Grows(a, c)
  {
    assert c.db[..|a.db|] == c.db[..|b.db|][..|a.db|];
  }

  lemma {:induction false} StepGrows(s: Index, op: Op)
    requires s.filterSize > 0 && s.store.maxCount > 0
    ensures Step(s, op).Some? ==> Grows(s, Step(s, op).value)
  {
    hide Merge;
    hide Add;
    hide AfterGet;
    match op
    case MergeJob =>
    case Put(key, value) => AddGrows(s, key, Some(value));
    case Remove(key) => AddGrows(s, key, None);
    case Read(key) => ReadKeepsAllButName(s, key);
  }

  lemma {:induction false} RunGrows(s: Index, ops: seq<Op>, s': Index)
    requires s.filterSize > 0 && Reaches(s, ops, s')
    ensures Grows(s, s')
    decreases |ops|
  {
    hide Step;
    hide GoodStep;
    if ops != [] {
      var init, op := ops[..|ops| - 1], ops[|ops| - 1];
      var mid: Index :| Reaches(s, init, mid) && mid.filterSize > 0 && mid.store.maxCount > 0
                        && GoodStep(mid, op) && Step(mid, op) == Some(s');
      RunGrows(s, init, mid);
      StepGrows(mid, op);
      GrowsOn(s, mid, s');
    }
  }

  /** The offset an add hands out leads to its value after any later run, whatever happens to the
      lists and files that refer to it; and it lies behind every record written before. */
  lemma {:induction false} ValueStaysReadable(s: Index, key: Key, value: Value, ops: seq<Op>, s': Index)
    requires s.filterSize > 0 && Reaches(Add(s, key, Some(value)), ops, s')
    ensures ReadValue(s'.db, NewRec(s, key, Some(value)).val) == Some(value)
    ensures forall off: nat, v: Value :: HoldsValue(s.db, off, v) ==>
              off + 4 + |v| <= NewRec(s, key, Some(value)).val && ReadValue(s'.db, off) == Some(v)
  {
    hide ReadValue;
    hide Reaches;
    hide ValueRecord;
    AddGrows(s, key, Some(value));
    var t := Add(s, key, Some(value));
    AddKeepsSize(s, key, Some(value));
    RunGrows(t, ops, s');
    GrowsKeepsValue(t, s', |s.db|, value);
    HeldValueReads(s'.db, |s.db|, value);
    GrowsOn(s, t, s');
    forall off: nat, v: Value | HoldsValue(s.db, off, v)
      ensures ReadValue(s'.db, off) == Some(v)
    {
      GrowsKeepsValue(s, s', off, v);
      HeldValueReads(s'.db, off, v);
    }
  }

  lemma {:induction false} AddKeepsSize(s: Index, key: Key, value: Option<Value>)
    requires s.filterSize > 0
    ensures Add(s, key, value).filterSize == s.filterSize
  {
  }
}
