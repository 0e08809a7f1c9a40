// The database as the program runs it.
module LiveDatabases {
  import opened Keys
  import opened Records
  import opened Metas
  import opened Images
  import opened Stores
  import opened Logs
  import opened Indexes
  import opened Recovery
  import opened LiveIndexes
  import opened Caches
  import opened Shikis
  import opened Databases

  class LiveDatabase {
    const lru: Shiki
    const indx: LiveIndex
    var lruCached: nat
    var lruMissing: nat

    ghost predicate Valid()
      reads this, indx, indx.list, indx.park, indx.log, indx.silopit, indx.silopit.meta
      reads lru, lru.ht, lru.ht.nodes, lru.levelOld, lru.levelNew, lru.pool
    {
      && indx.Valid() && lru.Valid()
      && lru.ht.nodes as object != indx.silopit.meta.nodes && lru.ht.nodes as object != indx.silopit.filter.bitset
    }

    ghost function State(): Database
      requires Valid()
      reads this, indx, indx.list, indx.park, indx.log, indx.silopit, indx.silopit.meta
      reads indx.silopit.meta.nodes, indx.silopit.filter.bitset
      reads lru, lru.ht, lru.ht.nodes, lru.levelOld, lru.levelNew, lru.pool
    {
      Database(indx.State(), lru.View(), lruCached, lruMissing)
    }

    constructor (cap: nat, maxCount: nat, maxFiles: nat, islog: bool, filterSize: nat,
                 files: map<Name, Image>, order: seq<Name>, file: Option<seq<Byte>>, oldLog: seq<Byte>,
                 buffer: bool, slots: nat, oldAllow: nat, newAllow: nat)
      requires maxCount > 0 && filterSize > 0 && slots > 0
      requires forall n :: n in order ==> n in files
      requires order != [] ==> |order| + 1 < maxFiles
      ensures Valid()
      ensures State() == Opened(Booted(cap, maxCount, maxFiles, islog, filterSize, files, order, file, oldLog),
                                buffer, oldAllow, newAllow)
    {
      hide LiveIndex.Valid;
      hide LiveIndex.State;
      hide Shiki.Valid;
      hide Shiki.View;
      hide Booted;
      lru := new Shiki(buffer, slots, oldAllow, newAllow);
      indx := new LiveIndex(cap, maxCount, maxFiles, islog, filterSize, files, order, file, oldLog);
      lruCached, lruMissing := 0, 0;
    }

    /** Invalidate, then add a value or a tombstone. */
    method Add(key: Key, value: Option<Value>)
      requires Valid() && (indx.list.NotFull() || indx.park == null)
      modifies indx, indx.list, indx.log, indx.silopit.filter`count, indx.silopit.filter.bitset
      modifies lru, lru.ht, lru.ht.nodes, lru.levelOld, lru.levelNew, lru.pool
      ensures Valid()
      ensures State() == old(State()).(index := Indexes.Add(old(State()).index, key, value),
                                       cache := Caches.Remove(old(State()).cache, key))
    {
      hide LiveIndex.Valid;
      hide LiveIndex.State;
      hide Shiki.Valid;
      hide Shiki.View;
      lru.Remove(key);
      indx.Add(key, value);
    }

    /** Look into the cache, then into the index, and cache what the index has. ok is false when
        the process stops in the cache. */
    method Get(key: Key) returns (ok: bool, r: GetResult)
      requires Valid()
      modifies this, indx.silopit`name, lru, lru.ht, lru.ht.nodes, lru.levelOld, lru.levelNew, lru.pool
      ensures Valid()
      ensures ok ==> r == Reply(old(State()), key) && Fetched(old(State()), key) == Some(State())
      ensures !ok ==> Fetched(old(State()), key) == None
    {
      hide LiveIndex.Valid;
      hide LiveIndex.State;
      hide Shiki.Valid;
      hide Shiki.View;
      hide Indexes.Get;
      hide Indexes.AfterGet;
      hide Touch;
      hide Caches.Set;
      var value;
      ok, value := lru.Get(key);
      r := Absent(0);
      if !ok {
        return;
      }
      if value.Some? {
        lruCached := lruCached + 1;
        r := Found(value.value);
      } else {
        lruMissing := lruMissing + 1;
        r := indx.Get(key);
        if r.Found? {
          ok := lru.Set(key, r.value);
        }
      }
    }

    /** Whether the index has a value; the cache is not asked. */
    method Exists(key: Key) returns (found: bool)
      requires Valid()
      modifies indx.silopit`name
      ensures Valid()
      ensures found == Indexes.Get(old(State()).index, key).Found?
      ensures State() == old(State()).(index := AfterGet(old(State()).index, key))
    {
      hide LiveIndex.Valid;
      hide LiveIndex.State;
      hide Shiki.Valid;
      hide Shiki.View;
      hide Indexes.Get;
      hide Indexes.AfterGet;
      var r := indx.Get(key);
      found := r.Found?;
    }
  }
}
