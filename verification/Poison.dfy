// A run of the database that leaves a removed value in the cache.
module Poisons {
  import opened Keys
  import opened Records
  import opened Images
  import opened StoreLaws
  import opened MergeTheorem
  import opened Logs
  import opened Indexes
  import opened IndexLaws
  import opened Caches
  import opened Databases
  import opened Witnesses

  /** The commands that run the operations without touching the cache. */
  function CommandOf(op: Op): Command {
    match op
    case Put(key, value) => Insert(key, value)
    case Remove(key) => Delete(key)
    case Read(key) => Exists(key)
    case MergeJob => Compact
  }

  function CommandsOf(ops: seq<Op>): seq<Command> {
    if ops == [] then [] else CommandsOf(ops[..|ops| - 1]) + [CommandOf(ops[|ops| - 1])]
  }

  lemma {:induction false} StepWithEmptyCache(mid: Index, op: Op, s: Index, on: bool, oldAllow: nat, newAllow: nat)
    requires mid.filterSize > 0 && mid.store.maxCount > 0 && GoodStep(mid, op) && Indexes.Step(mid, op) == Some(s)
    ensures var d := Opened(mid, on, oldAllow, newAllow);
            && Fair(d, CommandOf(op))
            && Databases.Step(d, CommandOf(op)) == Some(Opened(s, on, oldAllow, newAllow))
  {
    hide Indexes.Step;
    hide SoundMerge;
    hide StaleRead;
    var none: map<Key, Entry> := map[];
    assert forall k: Key :: none - {k} == none;
  }

  lemma {:induction false} OneMoreCommand(d0: Database, cs: seq<Command>, mid: Database, c: Command, d: Database)
    requires Runs(d0, cs, mid) && mid.index.filterSize > 0 && mid.index.store.maxCount > 0
    requires Fair(mid, c) && Databases.Step(mid, c) == Some(d)
    ensures Runs(d0, cs + [c], d)
  {
    hide Databases.Step;
    hide Fair;
    assert (cs + [c])[..|cs|] == cs;
  }

  lemma {:induction false} ExpectOneMore(cs: seq<Command>, ops: seq<Op>, op: Op)
    requires ExpectRun(map[], cs) == ExpectAll(map[], ops)
    ensures ExpectRun(map[], cs + [CommandOf(op)]) == ExpectAll(map[], ops + [op])
  {
    hide Expect;
    assert (cs + [CommandOf(op)])[..|cs|] == cs && (ops + [op])[..|ops|] == ops;
    assert IndexOp(CommandOf(op)) == op;
  }

  /** Every run of the index is one of the database, with nothing cached. */
  lemma {:induction false} RunsWithEmptyCache(s0: Index, ops: seq<Op>, s: Index, on: bool, oldAllow: nat, newAllow: nat)
    requires Reaches(s0, ops, s)
    ensures Runs(Opened(s0, on, oldAllow, newAllow), CommandsOf(ops), Opened(s, on, oldAllow, newAllow))
    ensures ExpectRun(map[], CommandsOf(ops)) == ExpectAll(map[], ops)
    decreases |ops|
  {
    hide Indexes.Step;
    hide Databases.Step;
    hide GoodStep;
    hide Fair;
    hide CommandOf;
    if ops == [] {
      NothingRuns(Opened(s0, on, oldAllow, newAllow));
    } else {
      hide Runs;
      hide ExpectRun;
      hide ExpectAll;
      var init, op := ops[..|ops| - 1], ops[|ops| - 1];
      var mid: Index :| Reaches(s0, init, mid) && mid.filterSize > 0 && mid.store.maxCount > 0
                        && GoodStep(mid, op) && Indexes.Step(mid, op) == Some(s);
      RunsWithEmptyCache(s0, init, mid, on, oldAllow, newAllow);
      StepWithEmptyCache(mid, op, s, on, oldAllow, newAllow);
      OneMoreCommand(Opened(s0, on, oldAllow, newAllow), CommandsOf(init), Opened(mid, on, oldAllow, newAllow),
                     CommandOf(op), Opened(s, on, oldAllow, newAllow));
      ExpectOneMore(CommandsOf(init), init, op);
      assert init + [op] == ops;
    }
  }

  lemma {:induction false} NothingRuns(d: Database)
    ensures Runs(d, [], d) && ExpectRun(map[], []) == ExpectAll(map[], [])
  {
  }

  lemma {:induction false} FirstIsCached(c: Cache, key: Key, value: seq<Byte>)
    requires c.on && c.entries == map[] && |key| + |value| < c.oldAllow
    ensures Caches.Set(c, key, value).Some?
  {
    var e := Entry(value, 1);
    AccountNewKey(map[], key, e, false);
  }

  /** Caches are poisoned: after this run a fetch of a key that was removed caches a value for it. */
  lemma {:induction false} CacheIsPoisoned(maxCount: nat, maxFiles: nat, islog: bool, filterSize: nat,
                                           oldAllow: nat, newAllow: nat, k: Key, k2: Key, k3: Key, v: Value)
    returns (d: Database)
    requires maxCount > 0 && maxFiles >= 3 && filterSize > 0
    requires NoNul(k) && NoNul(k2) && Lt(k, k2) && k3 != k && |v| < 0x1000_0000 && |k| + |v| < oldAllow
    ensures var cs := CommandsOf(StaleOps(k, k2, k3, v));
            && Runs(Opened(Empty(maxCount, maxFiles, islog, filterSize), true, oldAllow, newAllow), cs, d)
            && d.index.filterSize > 0 && k !in ExpectRun(map[], cs)
            && Fetched(d, k).Some? && Reply(d, k) == Found(v)
            && Hit(Fetched(d, k).value, k) && !Coherent(Fetched(d, k).value, ExpectRun(map[], cs))
  {
    hide Lt;
    hide NoNul;
    hide Reaches;
    hide Runs;
    hide Contents;
    hide StaleRead;
    hide StaleOps;
    hide Indexes.Get;
    hide AfterGet;
    hide ExpectAll;
    hide ExpectRun;
    hide Account;
    hide Empty;
    var s := StaleReadHappens(maxCount, maxFiles, islog, filterSize, k, k2, k3, v);
    RunsWithEmptyCache(Empty(maxCount, maxFiles, islog, filterSize), StaleOps(k, k2, k3, v), s,
                       true, oldAllow, newAllow);
    d := Opened(s, true, oldAllow, newAllow);
    FirstIsCached(d.cache, k, v);
    SetKeepsValues(d.cache, k, v);
  }
}
