// The index as the program runs it.
module LiveIndexes {
  import opened Keys
  import opened Records
  import opened Codec
  import opened Jikukans
  import opened Metas
  import opened Images
  import opened Stores
  import opened Silopits
  import opened Logs
  import opened Hiraishins
  import opened Reload
  import opened Indexes
  import opened Recovery

  ghost function ParkOf(park: Jikukan?): Option<seq<Rec>>
    requires park != null ==> park.Valid()
    reads park
  {
    if park == null then None else Some(park.Recs())
  }

  /** What a new process has of a dead one before it looks at the log. */
  ghost function Started(dead: Index, order: seq<Name>): Index
    requires dead.filterSize > 0 && forall n :: n in order ==> n in dead.store.files
  {
    Booted(dead.cap, dead.store.maxCount, dead.store.maxFiles, dead.islog, dead.filterSize,
           dead.store.files, order, Some(dead.db), dead.log)
  }

  class LiveIndex {
    var list: Jikukan
    var park: Jikukan?
    const silopit: Silopit
    const log: Log
    const cap: nat
    ghost var trigger: Option<Rec>
    ghost var logged: seq<Rec>

    ghost predicate Valid()
      reads this, list, park, silopit, silopit.meta, log
    {
      && list.Valid() && list.size == cap
      && (park != null ==> park.Valid() && park != list)
      && silopit.Valid() && log.Valid()
    }

    ghost function State(): Index
      requires Valid()
      reads this, list, park, silopit, silopit.meta, silopit.meta.nodes, silopit.filter.bitset, log
    {
      Index(list.Recs(), cap, ParkOf(park), silopit.State(), log.db, log.log, log.islog,
            silopit.filter.Bits(), silopit.filter.size, trigger, logged)
    }

    /** Open a directory: its files in the order they are listed, its value file, its log. */
    constructor (cap: nat, maxCount: nat, maxFiles: nat, islog: bool, filterSize: nat,
                 files: map<Name, Image>, order: seq<Name>, file: Option<seq<Byte>>, oldLog: seq<Byte>)
      requires maxCount > 0 && filterSize > 0
      requires forall n :: n in order ==> n in files
      requires order != [] ==> |order| + 1 < maxFiles
      ensures Valid() && fresh(list) && park == null && fresh(silopit) && fresh(log)
      ensures fresh(silopit.meta) && fresh(silopit.meta.nodes) && fresh(silopit.filter) && fresh(silopit.filter.bitset)
      ensures State() == Booted(cap, maxCount, maxFiles, islog, filterSize, files, order, file, oldLog)
    {
      hide Linked;
      hide Chain;
      hide TestBit;
      hide LoadDir;
      hide LoadBits;
      hide PutInt;
      hide PutLong;
      var l := new Jikukan(cap);
      list, park, this.cap := l, null, cap;
      silopit := new Silopit(maxCount, maxFiles, filterSize, files, order);
      log := new Log(islog, file, oldLog);
      trigger, logged := None, [];
    }

    /** Park the full list for the merger and go on with an empty one and a new log file. */
    method Rotate(ghost r: Rec)
      requires Valid()
      modifies this`list, this`park, this`trigger, this`logged, log`log
      ensures Valid() && fresh(list)
      ensures State() == Rotated(old(State()), r)
    {
      hide Linked;
      hide Chain;
      hide TestBit;
      park := list;
      list := new Jikukan(cap);
      log.Next();
      trigger, logged := Some(r), [];
    }

    /** Add a value, or a tombstone; the caller waits while the list is full and a merge is pending. */
    method Add(key: Key, value: Option<Value>)
      requires Valid() && (list.NotFull() || park == null)
      modifies this, list, log, silopit.filter`count, silopit.filter.bitset
      ensures Valid()
      ensures State() == Indexes.Add(old(State()), key, value)
    {
      hide Linked;
      hide Chain;
      hide Upsert;
      hide TestBit;
      hide Positions;
      hide PutInt;
      hide PutLong;
      ghost var s := State();
      var off := log.Append(key, value);
      ghost var r := NewRec(s, key, value);
      logged := logged + [r];
      assert State() == Logged(s, key, value);
      if !list.NotFull() {
        Rotate(r);
      }
      Enter(key, off, if value.Some? then ADD else DEL);
    }

    /** Enter a record into the list, and its key into the filter. */
    method Enter(key: Key, off: nat, opt: Opt)
      requires Valid()
      modifies list, silopit.filter`count, silopit.filter.bitset
      ensures Valid() && list == old(list)
      ensures State() == Inserted(old(State()), Rec(key, off, opt))
    {
      hide Linked;
      hide Chain;
      hide Upsert;
      hide TestBit;
      hide Positions;
      var ok := list.Insert(key, off, opt);
      if opt == ADD {
        silopit.filter.Add(key);
      }
    }

    /** The background merge, as one step. */
    method MergeJob() returns (fault: Option<Fault>)
      requires Valid() && park != null
      modifies this`park, silopit`name, silopit`files, silopit`buf, silopit.meta`size, silopit.meta.nodes
      modifies silopit.filter`count, silopit.filter.bitset
      ensures Valid()
      ensures Step(old(State()), Op.MergeJob) == if fault == None then Some(State()) else None
    {
      hide Linked;
      hide Chain;
      hide TestBit;
      hide Stores.Merge;
      fault := silopit.Merge(park, false);
      assert silopit.filter.Bits() == old(silopit.filter.Bits());
      if fault == None {
        park := null;
      }
    }

    /** Read a key: filter, list, parked list, files, value file. */
    method Get(key: Key) returns (r: GetResult)
      requires Valid()
      modifies silopit`name
      ensures Valid()
      ensures r == Indexes.Get(old(State()), key)
      ensures State() == AfterGet(old(State()), key)
    {
      hide Linked;
      hide Chain;
      hide TestBit;
      hide Find;
      hide Stores.GetOff;
      hide Metas.Search;
      hide ReadValue;
      hide Positions;
      var found := silopit.filter.Get(key);
      if !found {
        return Absent(0);
      }
      var off: nat := 0;
      var x, at := list.Lookup(key);
      if x != 0 {
        if list.pool[x].opt == DEL {
          return Absent(-1);
        }
        off := list.pool[x].val;
      } else if park != null {
        var y, at' := park.Lookup(key);
        if y != 0 && park.pool[y].opt == ADD {
          off := park.pool[y].val;
        }
      }
      if off == 0 {
        off := silopit.GetOff(key);
      }
      if off == 0 {
        return Absent(0);
      }
      match ReadValue(log.db, off)
      case Some(v) => r := Found(v);
      case None => r := Absent(1);
    }

    /** The rest of opening the directory a dead process left: replay its log, merge what the log
        gave, and go on with an empty list and a new log file. */
    method Recover(order: seq<Name>, ghost dead: Index) returns (ok: bool)
      requires Valid() && dead.filterSize > 0 && dead.store.maxCount > 0
      requires forall n :: n in order ==> n in dead.store.files
      requires State() == Started(dead, order)
      modifies this`list, list, log`log, silopit`name, silopit`files, silopit`buf
      modifies silopit.meta`size, silopit.meta.nodes, silopit.filter`count, silopit.filter.bitset
      ensures Valid()
      ensures Reopen(dead, order) == if ok then Some(State()) else None
    {
      hide Linked;
      hide Chain;
      hide TestBit;
      hide LoadDir;
      hide LoadBits;
      hide AddedBits;
      hide Stores.Merge;
      hide Parse;
      hide ReplayFrom;
      hide InsertAll;
      var oldLog := log.log;
      ReplayIsInsertAll([], cap, oldLog);
      if log.islog && oldLog != [] {
        ok := LogRead(oldLog, list);
        if !ok {
          return;
        }
        var fault := silopit.Merge(list, true);
        if fault != None {
          return false;
        }
        list := new Jikukan(cap);
      }
      log.Next();
      ok := true;
    }

    /** Closing, once no merge is pending: merge what the list holds, and remove its log. */
    method Close() returns (ok: bool)
      requires Valid() && park == null
      modifies this`list, this`trigger, this`logged, log`log, silopit`name, silopit`files, silopit`buf
      modifies silopit.meta`size, silopit.meta.nodes, silopit.filter`count, silopit.filter.bitset
      ensures Valid()
      ensures Closed(old(State())) == if ok then Some(State()) else None
    {
      hide Linked;
      hide Chain;
      hide TestBit;
      hide Stores.Merge;
      if list.count > 0 {
        var fault := silopit.Merge(list, false);
        assert silopit.filter.Bits() == old(silopit.filter.Bits());
        if fault != None {
          return false;
        }
        list := new Jikukan(cap);
        log.Remove();
        trigger, logged := None, [];
      }
      ok := true;
    }
  }
}
