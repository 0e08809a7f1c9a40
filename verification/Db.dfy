// The database: the index with the value cache in front of it.
module Databases {
  import opened Keys
  import opened Records
  import opened Stores
  import opened StoreLaws
  import opened MergeTheorem
  import opened Logs
  import opened Indexes
  import opened IndexLaws
  import opened Caches

  datatype Database = Database(index: Index, cache: Cache, cached: nat, missing: nat)

  datatype Command = Insert(key: Key, value: Value) | Delete(key: Key) | Fetch(key: Key) | Exists(key: Key) | Compact

  function Opened(index: Index, on: bool, oldAllow: nat, newAllow: nat): Database {
    Database(index, Cache(map[], on, oldAllow, newAllow), 0, 0)
  }

  /** The operation of the index behind a command. */
  function IndexOp(c: Command): Op {
    match c
    case Insert(key, value) => Put(key, value)
    case Delete(key) => Op.Remove(key)
    case Fetch(key) => Read(key)
    case Exists(key) => Read(key)
    case Compact => MergeJob
  }

  predicate Hit(d: Database, key: Key) {
    d.cache.on && key in d.cache.entries
  }

  /** What a fetch returns. */
  function Reply(d: Database, key: Key): GetResult
    requires d.index.filterSize > 0
  {
    if Hit(d, key) then Found(d.cache.entries[key].value) else Indexes.Get(d.index, key)
  }

  /** What a fetch leaves behind: a hit uses the entry, and only a value of the index is cached. */
  ghost function Fetched(d: Database, key: Key): Option<Database>
    requires d.index.filterSize > 0
  {
    if Hit(d, key) then
      match Caches.Get(d.cache, key)
      case None => None
      case Some(c) => Some(d.(cache := c, cached := d.cached + 1))
    else
      var r := Indexes.Get(d.index, key);
      var d' := d.(index := AfterGet(d.index, key), missing := d.missing + 1);
      if r.Absent? then Some(d') else
        match Set(d.cache, key, r.value)
        case None => None
        case Some(c) => Some(d'.(cache := c))
  }

  /** One command; None when it has to wait, or stops the process. */
  ghost function Step(d: Database, c: Command): Option<Database>
    requires d.index.filterSize > 0 && d.index.store.maxCount > 0
  {
    if c.Fetch? then Fetched(d, c.key) else
      match Indexes.Step(d.index, IndexOp(c))
      case None => None
      case Some(i) =>
        if c.Insert? || c.Delete? then Some(d.(index := i, cache := Caches.Remove(d.cache, c.key)))
        else Some(d.(index := i))
  }

  // ---- coherence ------------------------------------------------------------------------

  /** Every cached value is the one the operations last wrote. */
  ghost predicate Coherent(d: Database, m: map<Key, Value>) {
    forall k :: k in d.cache.entries ==> k in m && m[k] == d.cache.entries[k].value
  }

  ghost predicate DbInv(d: Database, m: map<Key, Value>) {
    IndexInv(d.index) && Represents(d.index, m) && Coherent(d, m)
  }

  /** A fetch that has to go to the index does not meet a parked tombstone over a key on disk;
      a merge takes a list the walk handles. */
  ghost predicate Fair(d: Database, c: Command) {
    && (c.Fetch? && !Hit(d, c.key) ==> !StaleRead(d.index, c.key))
    && GoodStep(d.index, IndexOp(c))
  }

  lemma {:induction false} TouchKeepsValues(c: Cache, key: Key)
    requires key in c.entries
    ensures Touch(c, key).Some? ==>
              var c' := Touch(c, key).value;
              && c'.entries.Keys == c.entries.Keys
              && forall k :: k in c.entries ==> c'.entries[k].value == c.entries[k].value
  {
    hide Account;
  }

  lemma {:induction false} SetKeepsValues(c: Cache, key: Key, value: seq<Byte>)
    requires key !in c.entries
    ensures Set(c, key, value).Some? ==>
              var c' := Set(c, key, value).value;
              && c'.entries.Keys == (if c.on then c.entries.Keys + {key} else c.entries.Keys)
              && (c.on ==> c'.entries[key].value == value)
              && forall k :: k in c.entries ==> c'.entries[k].value == c.entries[k].value
  {
    hide Touch;
    if c.on {
      TouchKeepsValues(c.(entries := c.entries[key := Entry(value, 1)]), key);
    }
  }

  /** Exactly the stale reads poison the cache. */
  lemma {:induction false} MissKeepsCoherentIff(d: Database, m: map<Key, Value>, key: Key)
    requires DbInv(d, m) && d.cache.on && !Hit(d, key)
    ensures d.index.filterSize > 0
    ensures Fetched(d, key).Some? ==> (Coherent(Fetched(d, key).value, m) <==> !StaleRead(d.index, key))
  {
    hide IndexInv;
    hide Represents;
    hide Indexes.Get;
    hide AfterGet;
    hide StaleRead;
    hide Set;
    GetExact(d.index, m, key);
    if StaleRead(d.index, key) {
      StaleIsAbsent(d.index, m, key);
    }
    var r := Indexes.Get(d.index, key);
    if r.Found? {
      SetKeepsValues(d.cache, key, r.value);
      assert Set(d.cache, key, r.value).Some? ==> key in Set(d.cache, key, r.value).value.entries;
    }
  }

  lemma {:induction false} StaleIsAbsent(s: Index, m: map<Key, Value>, key: Key)
    requires IndexInv(s) && Represents(s, m) && StaleRead(s, key)
    ensures key !in m
  {
    hide Contents;
    hide Inv;
    hide Find;
    LayersAt(s, key);
    hide Layers;
  }

  lemma {:induction false} OffCacheStays(c: Cache, key: Key, value: seq<Byte>)
    requires !c.on
    ensures Set(c, key, value) == Some(c)
  {
  }

  // ---- runs ------------------------------------------------------------------------------

  lemma {:induction false} FetchKeeps(d: Database, m: map<Key, Value>, key: Key)
    requires DbInv(d, m) && Fair(d, Fetch(key))
    ensures d.index.filterSize > 0
    ensures Fetched(d, key).Some? ==> DbInv(Fetched(d, key).value, m)
  {
    hide IndexInv;
    hide Represents;
    hide Indexes.Get;
    hide AfterGet;
    hide StaleRead;
    hide Set;
    hide Touch;
    InvFilter(d.index);
    if Hit(d, key) {
      TouchKeepsValues(d.cache, key);
    } else {
      GetExact(d.index, m, key);
      ReadKeepsAllButName(d.index, key);
      NameKeeps(d.index, AfterGet(d.index, key), m);
      var r := Indexes.Get(d.index, key);
      if r.Found? {
        if d.cache.on {
          SetKeepsValues(d.cache, key, r.value);
        } else {
          OffCacheStays(d.cache, key, r.value);
        }
      }
    }
  }

  lemma {:induction false} CommandKeeps(d: Database, c: Command, m: map<Key, Value>)
    requires DbInv(d, m) && Fair(d, c) && (d.cache.on || d.cache.entries == map[])
    requires d.index.filterSize > 0 && d.index.store.maxCount > 0
    ensures Step(d, c).Some? ==> DbInv(Step(d, c).value, Expect(m, IndexOp(c)))
  {
    hide IndexInv;
    hide Represents;
    hide Indexes.Step;
    hide Fetched;
    hide StaleRead;
    hide GoodStep;
    if c.Fetch? {
      FetchKeeps(d, m, c.key);
    } else {
      StepKeeps(d.index, IndexOp(c), m);
    }
  }

  lemma {:induction false} CacheStaysOff(d: Database, c: Command)
    requires d.index.filterSize > 0 && d.index.store.maxCount > 0
    ensures Step(d, c).Some? ==> Step(d, c).value.cache.on == d.cache.on
    ensures Step(d, c).Some? && !d.cache.on ==> Step(d, c).value.cache == d.cache
  {
    hide Indexes.Step;
    hide Indexes.Get;
    hide AfterGet;
    hide Account;
  }

  ghost predicate Runs(d: Database, cs: seq<Command>, d': Database)
    decreases |cs|
  {
    if cs == [] then d' == d else
      exists mid: Database ::
        && Runs(d, cs[..|cs| - 1], mid)
        && mid.index.filterSize > 0 && mid.index.store.maxCount > 0
        && Fair(mid, cs[|cs| - 1])
        && Step(mid, cs[|cs| - 1]) == Some(d')
  }

  function ExpectRun(m: map<Key, Value>, cs: seq<Command>): map<Key, Value> {
    if cs == [] then m else Expect(ExpectRun(m, cs[..|cs| - 1]), IndexOp(cs[|cs| - 1]))
  }

  lemma {:induction false} RunKeeps(d: Database, cs: seq<Command>, d': Database, m: map<Key, Value>)
    requires DbInv(d, m) && (d.cache.on || d.cache.entries == map[]) && Runs(d, cs, d')
    ensures DbInv(d', ExpectRun(m, cs)) && (d'.cache.on || d'.cache.entries == map[])
    decreases |cs|
  {
    hide DbInv;
    hide Step;
    hide Fair;
    if cs != [] {
      var init, c := cs[..|cs| - 1], cs[|cs| - 1];
      var mid: Database :| Runs(d, init, mid) && mid.index.filterSize > 0 && mid.index.store.maxCount > 0
                           && Fair(mid, c) && Step(mid, c) == Some(d');
      RunKeeps(d, init, mid, m);
      CommandKeeps(mid, c, ExpectRun(m, init));
      CacheStaysOff(mid, c);
    }
  }

  lemma {:induction false} KnownKeyIsNotStale(s: Index, m: map<Key, Value>, key: Key)
    requires IndexInv(s) && Represents(s, m) && key in m
    ensures !StaleRead(s, key)
  {
    if StaleRead(s, key) {
      StaleIsAbsent(s, m, key);
      assert false;
    }
  }

  /** The database over whole runs from an empty store: every cached value is what the index
      itself would return, and a fetch answers what one map would, unless it goes to the index
      and the index read is stale. */
  lemma {:induction false} CacheNeverDisagrees(
      cap: nat, maxCount: nat, maxFiles: nat, islog: bool, filterSize: nat,
      on: bool, oldAllow: nat, newAllow: nat, cs: seq<Command>, d: Database, key: Key)
    requires cap > 0 && maxCount > 0 && filterSize > 0
    requires Runs(Opened(New(cap, Store([], map[], [], [], maxCount, maxFiles), islog, filterSize),
                         on, oldAllow, newAllow),
                  cs, d)
    ensures d.index.filterSize > 0
    ensures key in d.cache.entries ==> Indexes.Get(d.index, key) == Found(d.cache.entries[key].value)
    ensures Answers(Reply(d, key), ExpectRun(map[], cs), key) <==> Hit(d, key) || !StaleRead(d.index, key)
  {
    hide IndexInv;
    hide Represents;
    hide Runs;
    hide New;
    hide StaleRead;
    hide Indexes.Get;
    NewRepresents(cap, maxCount, maxFiles, islog, filterSize);
    var s := New(cap, Store([], map[], [], [], maxCount, maxFiles), islog, filterSize);
    var m := ExpectRun(map[], cs);
    RunKeeps(Opened(s, on, oldAllow, newAllow), cs, d, map[]);
    GetExact(d.index, m, key);
    if key in m {
      KnownKeyIsNotStale(d.index, m, key);
    }
  }
}
