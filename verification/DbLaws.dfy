// What the database never refuses, and what it counts.
module DatabaseLaws {
  import opened Keys
  import opened Records
  import opened Stores
  import opened StoreLaws
  import opened MergeTheorem
  import opened Logs
  import opened Indexes
  import opened IndexLaws
  import opened Liveness
  import opened Caches
  import opened Databases

  /** A fetch stops in the cache: a hit on a level that has reached its own allowance, or a value of the
      index that brings the old level up to its own. */
  ghost predicate CacheStops(d: Database, key: Key)
    requires d.index.filterSize > 0
  {
    d.cache.on &&
    var r := Indexes.Get(d.index, key);
    if key in d.cache.entries then
      if d.cache.entries[key].hits == -1 then Account(d.cache.entries, true).size >= d.cache.newAllow
      else Account(d.cache.entries, false).size >= d.cache.oldAllow
    else r.Found? && Account(d.cache.entries, false).size + |key| + |r.value| >= d.cache.oldAllow
  }

  lemma {:induction false} FetchStopsIff(d: Database, key: Key)
    requires d.index.filterSize > 0
    ensures Fetched(d, key).None? <==> CacheStops(d, key)
  {
    hide Account;
    hide Indexes.Get;
    hide AfterGet;
    hide Touch;
    hide Caches.Get;
    hide Set;
    var r := Indexes.Get(d.index, key);
    if !d.cache.on {
      OffNeverStops(d.cache, key, if r.Found? then r.value else []);
    } else if key in d.cache.entries {
      UseStopsIff(d.cache, key, []);
    } else if r.Found? {
      EnterStopsIff(d.cache, key, r.value);
    }
  }

  /** A command is refused in these cases only: a write while the list is full and one is parked, a merge
      with nothing parked or one that stops, and a fetch that stops in the cache. */
  lemma {:induction false} RefusedIff(d: Database, c: Command)
    requires d.index.filterSize > 0 && d.index.store.maxCount > 0
    ensures Databases.Step(d, c).None? <==>
              match c
              case Insert(_, _) => Blocked(d.index)
              case Delete(_) => Blocked(d.index)
              case Compact => d.index.park.None? || MergeWouldStop(d.index)
              case Fetch(key) => CacheStops(d, key)
              case Exists(_) => false
  {
    hide Indexes.Step;
    hide Fetched;
    hide CacheStops;
    hide MergeWouldStop;
    hide Blocked;
    if c.Fetch? {
      FetchStopsIff(d, c.key);
    } else {
      Liveness.RefusedIff(d.index, IndexOp(c));
    }
  }

  /** The command does not have to wait, and finds both levels below their own allowances, with room on
      the old one for a value that it brings in. */
  ghost predicate Enabled(d: Database, c: Command)
    requires d.index.filterSize > 0
  {
    match c
    case Fetch(key) =>
      && (d.cache.on ==> Below(d.cache))
      && var r := Indexes.Get(d.index, key);
         (d.cache.on && key !in d.cache.entries && r.Found? ==>
            Account(d.cache.entries, false).size + |key| + |r.value| < d.cache.oldAllow)
    case _ => Liveness.Enabled(d.index, IndexOp(c))
  }

  lemma {:induction false} EnabledIsTaken(d: Database, c: Command)
    requires d.index.filterSize > 0 && d.index.store.maxCount > 0 && Enabled(d, c)
    ensures Databases.Step(d, c).Some? && GoodStep(d.index, IndexOp(c))
  {
    hide Account;
    hide Indexes.Get;
    hide Indexes.Step;
    hide Fetched;
    hide Stores.Merge;
    hide MergesRight;
    if c.Fetch? {
      FetchStopsIff(d, c.key);
    } else {
      Liveness.EnabledIsTaken(d.index, IndexOp(c));
    }
  }

  /** A run whose levels stay below their own allowances is never stopped by the cache: with no write that
      has to wait, no merge that goes wrong and no stale fetch in it, it comes to its end. */
  lemma {:induction false} EnabledRunsGoOn(d0: Database, cs: seq<Command>, m: map<Key, Value>) returns (d: Database)
    requires DbInv(d0, m) && (d0.cache.on || d0.cache.entries == map[])
    requires forall i, mid: Database :: 0 <= i < |cs| && Runs(d0, cs[..i], mid) && mid.index.filterSize > 0 ==>
               && Enabled(mid, cs[i])
               && (cs[i].Fetch? && !Hit(mid, cs[i].key) ==> !StaleRead(mid.index, cs[i].key))
    ensures Runs(d0, cs, d) && DbInv(d, ExpectRun(m, cs))
    decreases |cs|
  {
    hide DbInv;
    hide Enabled;
    hide Databases.Step;
    hide StaleRead;
    hide Hit;
    if cs == [] {
      d := d0;
    } else {
      var n := |cs| - 1;
      var init, c := cs[..n], cs[n];
      forall i, mid: Database | 0 <= i < |init| && Runs(d0, init[..i], mid) && mid.index.filterSize > 0
        ensures Enabled(mid, init[i])
        ensures init[i].Fetch? && !Hit(mid, init[i].key) ==> !StaleRead(mid.index, init[i].key)
      {
        assert init[..i] == cs[..i];
      }
      var mid := EnabledRunsGoOn(d0, init, m);
      DbPositive(mid, ExpectRun(m, init));
      EnabledIsTaken(mid, c);
      d := Databases.Step(mid, c).value;
      assert Fair(mid, c);
      RunKeeps(d0, cs, d, m);
    }
  }

  lemma {:induction false} DbPositive(d: Database, m: map<Key, Value>)
    requires DbInv(d, m)
    ensures d.index.filterSize > 0 && d.index.store.maxCount > 0
  {
    hide IndexInv;
    hide Represents;
    InvFilter(d.index);
  }

  // ---- the counters ----------------------------------------------------------------------------------------

  function Fetches(cs: seq<Command>): nat {
    if cs == [] then 0 else Fetches(cs[..|cs| - 1]) + if cs[|cs| - 1].Fetch? then 1 else 0
  }

  /** A fetch counts once, as a hit exactly if the key is cached; no other command counts. */
  lemma {:induction false} StepCounts(d: Database, c: Command)
    requires d.index.filterSize > 0 && d.index.store.maxCount > 0 && Databases.Step(d, c).Some?
    ensures var d' := Databases.Step(d, c).value;
            && d'.cached == d.cached + (if c.Fetch? && d.cache.on && c.key in d.cache.entries then 1 else 0)
            && d'.missing == d.missing + (if c.Fetch? && !(d.cache.on && c.key in d.cache.entries) then 1 else 0)
  {
    hide Indexes.Step;
    hide Indexes.Get;
    hide AfterGet;
    hide Set;
    hide Touch;
  }

  /** Over a run the two counters together count the fetches. */
  lemma {:induction false} RunCounts(d0: Database, cs: seq<Command>, d: Database)
    requires Runs(d0, cs, d)
    ensures d.cached + d.missing == d0.cached + d0.missing + Fetches(cs)
    decreases |cs|
  {
    hide Databases.Step;
    hide Fair;
    if cs != [] {
      var init, c := cs[..|cs| - 1], cs[|cs| - 1];
      var mid: Database :| Runs(d0, init, mid) && mid.index.filterSize > 0 && mid.index.store.maxCount > 0
                           && Fair(mid, c) && Databases.Step(mid, c) == Some(d);
      RunCounts(d0, init, mid);
      StepCounts(mid, c);
    }
  }

  /** A fetch that hits leaves the index alone, and one that misses changes no list and no file; both
      leave all other entries of the cache as they are. */
  lemma {:induction false} FetchTouchesOne(d: Database, key: Key, other: Key)
    requires d.index.filterSize > 0 && Fetched(d, key).Some? && other != key
    ensures var d' := Fetched(d, key).value;
            && d'.index == d.index.(store := d.index.store.(name := d'.index.store.name))
            && (d.cache.on && key in d.cache.entries ==> d'.index == d.index)
            && (other in d'.cache.entries <==> other in d.cache.entries)
            && (other in d.cache.entries ==> d'.cache.entries[other] == d.cache.entries[other])
  {
    hide Account;
    hide Indexes.Get;
    hide AfterGet;
    ReadKeepsAllButName(d.index, key);
  }

  /** A write forgets its key in the cache and no other entry; a test for existence and a merge leave the cache
      alone, and the test leaves lists and files alone too. */
  lemma {:induction false} CommandTouches(d: Database, c: Command, other: Key)
    requires d.index.filterSize > 0 && d.index.store.maxCount > 0 && !c.Fetch? && Databases.Step(d, c).Some?
    ensures var d' := Databases.Step(d, c).value;
            && d'.cache == d.cache.(entries := d'.cache.entries)
            && (c.Exists? || c.Compact? ==> d'.cache == d.cache)
            && (c.Exists? ==> d'.index == d.index.(store := d.index.store.(name := d'.index.store.name)))
            && (c.Insert? || c.Delete? ==>
                  && (d.cache.on ==> c.key !in d'.cache.entries)
                  && (other != c.key ==> (other in d'.cache.entries <==> other in d.cache.entries))
                  && (other != c.key && other in d.cache.entries ==>
                        d'.cache.entries[other] == d.cache.entries[other]))
  {
    hide Caches.Remove;
    hide AfterGet;
    hide Add;
    hide Stores.Merge;
    if c.Insert? || c.Delete? {
      RemoveForgetsOne(d.cache, c.key, other);
      RemoveKeepsRest(d.cache, c.key);
    } else if c.Exists? {
      ReadKeepsAllButName(d.index, c.key);
    }
  }

  lemma {:induction false} RemoveKeepsRest(c: Cache, key: Key)
    ensures Caches.Remove(c, key) == c.(entries := Caches.Remove(c, key).entries)
  {
  }
}
