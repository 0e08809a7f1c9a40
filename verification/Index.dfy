// The index as a step machine: a list in memory, a full list parked for merging, the
// files, and the two logs. A background merge is one atomic step, and a rotation waits
// until no merge is pending.
module Indexes {
  import opened Keys
  import opened Records
  import opened Stores
  import opened Logs
  import opened Hiraishins

  /** The last two fields are history, not state of the program: the record whose insertion
      made the list full and was logged before the switch, and the records in the current log. */
  datatype Index = Index(list: seq<Rec>, cap: nat, park: Option<seq<Rec>>, store: Store,
                         db: seq<Byte>, log: seq<Byte>, islog: bool, bits: set<nat>, filterSize: nat,
                         trigger: Option<Rec>, logged: seq<Rec>)

  function New(cap: nat, store: Store, islog: bool, filterSize: nat): Index {
    Index([], cap, None, store, DB_MAGIC, [], islog, {}, filterSize, None, [])
  }

  predicate IsFull(s: Index) {
    |s.list| >= s.cap
  }

  // ---- adding and removing ---------------------------------------------------------------

  function NewRec(s: Index, key: Key, value: Option<Value>): Rec {
    Rec(key, |s.db|, if value.Some? then ADD else DEL)
  }

  /** The log comes first, so the record that finds the list full lands in the old log. */
  function Logged(s: Index, key: Key, value: Option<Value>): Index {
    var r := NewRec(s, key, value);
    s.(db := if value.Some? then s.db + ValueRecord(value.value) else s.db,
       log := if s.islog then s.log + Line(r) else s.log,
       logged := s.logged + [r])
  }

  function Rotated(s: Index, r: Rec): Index {
    s.(park := Some(s.list), list := [], log := [], trigger := Some(r), logged := [])
  }

  function Inserted(s: Index, r: Rec): Index
    requires s.filterSize > 0
  {
    s.(list := InsertCap(s.list, s.cap, r),
       bits := if r.opt == ADD then s.bits + Positions(r.key, s.filterSize) else s.bits)
  }

  function Add(s: Index, key: Key, value: Option<Value>): Index
    requires s.filterSize > 0
  {
    var r := NewRec(s, key, value);
    var logged := Logged(s, key, value);
    Inserted(if IsFull(s) then Rotated(logged, r) else logged, r)
  }

  // ---- looking up ----------------------------------------------------------------------------

  /** A value; or a return code without one. */
  datatype GetResult = Found(value: seq<Byte>) | Absent(code: int)

  /** The offset the two lists give, 0 for none. A tombstone in the parked list is not looked at. */
  function ListOffset(s: Index, key: Key): nat {
    match Find(s.list, key)
    case Some(r) => r.val
    case None =>
      match s.park
      case None => 0
      case Some(p) =>
        match Find(p, key)
        case Some(r) => if r.opt == ADD then r.val else 0
        case None => 0
  }

  function OffsetFor(s: Index, key: Key): nat {
    if ListOffset(s, key) == 0 then GetOff(s.store, key) else ListOffset(s, key)
  }

  function Get(s: Index, key: Key): GetResult
    requires s.filterSize > 0
  {
    if !MayHold(s.bits, key, s.filterSize) then Absent(0) else
      var node := Find(s.list, key);
      if node.Some? && node.value.opt == DEL then Absent(-1) else
        var off := OffsetFor(s, key);
        if off == 0 then Absent(0) else
          match ReadValue(s.db, off)
          case Some(v) => Found(v)
          case None => Absent(1)
  }

  /** A read that gets as far as the files leaves the name of a file behind. */
  function AfterGet(s: Index, key: Key): Index
    requires s.filterSize > 0
  {
    var node := Find(s.list, key);
    if !MayHold(s.bits, key, s.filterSize) || (node.Some? && node.value.opt == DEL) || ListOffset(s, key) != 0 then s
    else s.(store := AfterGetOff(s.store, key))
  }

  // ---- runs -------------------------------------------------------------------------------------

  datatype Op = Put(key: Key, value: Value) | Remove(key: Key) | Read(key: Key) | MergeJob

  /** One step; None when the step has to wait, or stops the process. */
  function Step(s: Index, op: Op): Option<Index>
    requires s.filterSize > 0 && s.store.maxCount > 0
  {
    match op
    case MergeJob =>
      (match s.park
       case None => None
       case Some(p) =>
         var o := Merge(s.store, p);
         if o.Done? then Some(s.(store := o.store, park := None)) else None)
    case Put(key, value) => if IsFull(s) && s.park.Some? then None else Some(Add(s, key, Some(value)))
    case Remove(key) => if IsFull(s) && s.park.Some? then None else Some(Add(s, key, None))
    case Read(key) => Some(AfterGet(s, key))
  }

  /** What a client expects: the store as one map. */
  function Expect(m: map<Key, Value>, op: Op): map<Key, Value> {
    match op
    case Put(key, value) => m[key := value]
    case Remove(key) => m - {key}
    case Read(key) => m
    case MergeJob => m
  }

  function ExpectAll(m: map<Key, Value>, ops: seq<Op>): map<Key, Value> {
    if ops == [] then m else Expect(ExpectAll(m, ops[..|ops| - 1]), ops[|ops| - 1])
  }
}
