// The value file and the operation log, and the replay of the log.
module Logs {
  import opened Keys
  import opened Texts
  import opened Records
  import opened Codec
  import opened Jikukans

  /** Lengths are C ints. */
  type Value = v: seq<Byte> | |v| < 0x8000_0000

  // ---- the value file ---------------------------------------------------------------

  /** What a fresh value file starts with: the magic number 2013, in the machine's byte order. */
  const DB_MAGIC: seq<Byte> := [221, 7, 0, 0]

  function ValueRecord(v: Value): seq<Byte> {
    PutInt(|v|) + v
  }

  /** The bytes from position p on, zeros beyond the end: what read() leaves in a calloc'ed buffer. */
  function Window(file: seq<Byte>, p: nat, n: nat): (b: seq<Byte>)
    ensures |b| == n
  {
    seq(n, i requires 0 <= i < n => if p + i < |file| then file[p + i] else 0)
  }

  /** The value at an offset; None when not even its length can be read. */
  function ReadValue(db: seq<Byte>, off: nat): Option<seq<Byte>> {
    if off + 4 > |db| then None else
      Some(Window(db, off + 4, U32FromBig(db[off..])))
  }

  /** A record of the value file starts at off and holds v. */
  ghost predicate HoldsValue(db: seq<Byte>, off: nat, v: Value) {
    off + 4 + |v| <= |db| && db[off..off + 4 + |v|] == ValueRecord(v)
  }

  /** An appended record is found at the old length ... */
  lemma {:induction false} AppendHolds(db: seq<Byte>, v: Value)
    ensures HoldsValue(db + ValueRecord(v), |db|, v)
  {
    var d := db + ValueRecord(v);
    assert d[|db|..|d|] == ValueRecord(v);
  }

  /** ... no append disturbs a record ... */
  lemma {:induction false} AppendKeeps(db: seq<Byte>, more: seq<Byte>, off: nat, v: Value)
    requires HoldsValue(db, off, v)
    ensures HoldsValue(db + more, off, v)
  {
    var e := off + 4 + |v|;
    assert (db + more)[off..e] == db[off..e];
  }

  /** ... and a record reads back as its value. */
  lemma {:induction false} HeldValueReads(db: seq<Byte>, off: nat, v: Value)
    requires HoldsValue(db, off, v)
    ensures ReadValue(db, off) == Some(v)
  {
    hide U32FromBig;
    hide PutInt;
    var e := off + 4 + |v|;
    var r := db[off..e];
    assert forall i :: 0 <= i < |r| ==> db[off + i] == r[i];
    assert db[off..][..4] == r[..4] == PutInt(|v|);
    U32OfPrefix(db[off..], PutInt(|v|));
    U32UndoesPutInt(|v|);
    assert |v| % TWO32 == |v|;
    forall i | 0 <= i < |v|
      ensures db[off + 4 + i] == v[i]
    {
      assert r[4 + i] == v[i];
    }
    assert Window(db, off + 4, |v|) == v;
  }

  lemma {:induction false} U32OfPrefix(b: seq<Byte>, p: seq<Byte>)
    requires |p| == 4 <= |b| && b[..4] == p
    ensures U32FromBig(b) == U32FromBig(p)
  {
    assert b[0] == b[..4][0] && b[1] == b[..4][1] && b[2] == b[..4][2] && b[3] == b[..4][3];
  }

  // ---- the operation log -----------------------------------------------------------------

  const OP_ADD: Byte := 65
  const OP_DEL: Byte := 68

  function Line(r: Rec): seq<Byte> {
    PutInt(|r.key|) + r.key + PutLong(r.val) + [if r.opt == ADD then OP_ADD else OP_DEL]
  }

  function Lines(rs: seq<Rec>): seq<Byte> {
    if rs == [] then [] else Lines(rs[..|rs| - 1]) + Line(rs[|rs| - 1])
  }

  /** The record at the front of the log; None when a read would come up short or the key and its
      NUL would overrun the reader's buffer. */
  function ParseLine(b: seq<Byte>): Option<(Rec, nat)> {
    if |b| < 4 then None else
      var klen := U32FromBig(b);
      if klen >= MAX_KEY_SIZE || |b| < 4 + klen + 9 then None else
        var key := CutAtNul(b[4..4 + klen]);
        var off := U64FromBig(b[4 + klen..]);
        var opt := if b[4 + klen + 8] == OP_ADD then ADD else DEL;
        Some((Rec(key, off, opt), 4 + klen + 9))
  }

  /** All records of the log, read until nothing remains. */
  function Parse(b: seq<Byte>): Option<seq<Rec>>
    decreases |b|
  {
    if b == [] then Some([]) else
      match ParseLine(b)
      case None => None
      case Some((r, n)) =>
        match Parse(b[n..])
        case None => None
        case Some(rs) => Some([r] + rs)
  }

  /** A list of the given capacity after it was offered the records in turn. */
  function InsertAll(s: seq<Rec>, cap: nat, rs: seq<Rec>): seq<Rec> {
    if rs == [] then s else InsertCap(InsertAll(s, cap, rs[..|rs| - 1]), cap, rs[|rs| - 1])
  }

  function InsertCap(s: seq<Rec>, cap: nat, r: Rec): seq<Rec> {
    if |s| < cap then Upsert(s, r) else s
  }

  /** Records whose lines can be read back. */
  ghost predicate Loggable(rs: seq<Rec>) {
    forall i :: 0 <= i < |rs| ==> IsCString(rs[i].key) && Representable(rs[i].val)
  }

  lemma {:induction false} CutKeeps(k: Key)
    requires forall i :: 0 <= i < |k| ==> k[i] != 0
    ensures CutAtNul(k) == k
  {
    if k != [] {
      CutKeeps(k[1..]);
    }
  }

  lemma {:induction false} ParseLineUndoes(r: Rec, rest: seq<Byte>)
    requires IsCString(r.key) && Representable(r.val)
    ensures ParseLine(Line(r) + rest) == Some((r, |Line(r)|))
  {
    hide U32FromBig;
    hide U64FromBig;
    hide PutInt;
    hide PutLong;
    hide Representable;
    var b, n := Line(r) + rest, |r.key|;
    assert b[..4] == PutInt(n);
    U32OfPrefix(b, PutInt(n));
    U32UndoesPutInt(n);
    assert n % TWO32 == n;
    assert b[4..4 + n] == r.key;
    CutKeeps(r.key);
    var tail := [if r.opt == ADD then OP_ADD else OP_DEL] + rest;
    assert b[4 + n..] == PutLong(r.val) + tail;
    U64OfFront(PutLong(r.val), tail);
    U64UndoesPutLongIff(r.val);
    assert b[4 + n + 8] == tail[0];
  }

  lemma {:induction false} LinesBack(rs: seq<Rec>)
    requires rs != []
    ensures Lines(rs) == Lines(rs[..|rs| - 1]) + Line(rs[|rs| - 1])
  {
    hide Line;
  }

  lemma {:induction false} LinesFront(rs: seq<Rec>)
    requires rs != []
    ensures Lines(rs) == Line(rs[0]) + Lines(rs[1..])
  {
    hide Line;
    LinesBack(rs);
    if |rs| > 1 {
      var init, last := rs[..|rs| - 1], rs[|rs| - 1];
      LinesFront(init);
      LinesBack(rs[1..]);
      hide Lines;
      assert init[1..] == rs[1..][..|rs| - 2];
      Associates(Line(rs[0]), Lines(init[1..]), Line(last));
    } else {
      assert Lines([]) == [];
    }
  }

  /** Reading the log undoes writing it. */
  lemma {:induction false} ParseUndoesLines(rs: seq<Rec>)
    requires Loggable(rs)
    ensures Parse(Lines(rs)) == Some(rs)
  {
    hide Line;
    hide ParseLine;
    if rs != [] {
      var rest := Lines(rs[1..]);
      LinesFront(rs);
      ParseLineUndoes(rs[0], rest);
      ParseUndoesLines(rs[1..]);
      assert (Line(rs[0]) + rest)[|Line(rs[0])|..] == rest;
      assert |Line(rs[0])| > 0 by { LineLength(rs[0]); }
      assert [rs[0]] + rs[1..] == rs;
    }
  }

  lemma {:induction false} LineLength(r: Rec)
    ensures |Line(r)| == |r.key| + 13
  {
  }

  // ---- what lies where in the two files -----------------------------------------------------

  /** A fresh value file reads, on a little-endian machine, as the number 2013. */
  lemma {:induction false} MagicNumber()
    ensures |DB_MAGIC| == 4
    ensures U32FromBig([DB_MAGIC[3], DB_MAGIC[2], DB_MAGIC[1], DB_MAGIC[0]]) == 2013
  {
  }

  /** A value record is its length, big end first, and then the bytes. */
  lemma {:induction false} ValueFields(v: Value)
    ensures var b := ValueRecord(v);
            |b| == 4 + |v| && U32FromBig(b) == |v| && b[4..] == v
  {
    hide PutInt;
    hide U32FromBig;
    U32OfPrefix(ValueRecord(v), PutInt(|v|));
    U32UndoesPutInt(|v|);
  }

  /** A line is the length of the key, the key, eight bytes of offset and a letter. */
  lemma {:induction false} LineFields(r: Rec)
    requires |r.key| < TWO32
    ensures var b, n := Line(r), |r.key|;
            |b| == n + 13 && U32FromBig(b) == n && b[4..n + 4] == r.key && b[n + 4..n + 12] == PutLong(r.val) &&
            b[n + 12..] == Ascii(if r.opt == ADD then "A" else "D")
  {
    hide PutInt;
    hide PutLong;
    hide U32FromBig;
    U32OfPrefix(Line(r), PutInt(|r.key|));
    U32UndoesPutInt(|r.key|);
    assert "A" == ['A'] && "D" == ['D'];
  }

  /** A line can be read back exactly if its key has at most 31 bytes. */
  lemma {:induction false} LineReadsIff(r: Rec, rest: seq<Byte>)
    requires |r.key| < TWO32
    ensures ParseLine(Line(r) + rest).Some? <==> |r.key| <= 31
    ensures |r.key| <= 31 ==> ParseLine(Line(r) + rest).value.1 == |Line(r)|
  {
    hide PutInt;
    hide PutLong;
    hide U32FromBig;
    hide U64FromBig;
    hide CutAtNul;
    var b := Line(r) + rest;
    assert b[..4] == PutInt(|r.key|);
    U32OfPrefix(b, PutInt(|r.key|));
    U32UndoesPutInt(|r.key|);
  }

  /** A log can be replayed exactly if every key in it has at most 31 bytes. */
  lemma {:induction false} LogReadsIff(rs: seq<Rec>)
    requires forall i :: 0 <= i < |rs| ==> |rs[i].key| < TWO32
    ensures Parse(Lines(rs)).Some? <==> forall i :: 0 <= i < |rs| ==> |rs[i].key| <= 31
  {
    hide Line;
    hide ParseLine;
    if rs != [] {
      var rest := Lines(rs[1..]);
      LinesFront(rs);
      LineReadsIff(rs[0], rest);
      LogReadsIff(rs[1..]);
      assert (Line(rs[0]) + rest)[|Line(rs[0])|..] == rest;
      LineLength(rs[0]);
      assert forall i :: 1 <= i < |rs| ==> rs[i] == rs[1..][i - 1];
      assert (forall i :: 0 <= i < |rs| ==> |rs[i].key| <= 31) <==>
             |rs[0].key| <= 31 && forall i :: 0 <= i < |rs[1..]| ==> |rs[1..][i].key| <= 31;
    }
  }

  /** Whatever a line holds, the key is cut at a NUL, and every letter but an A makes a tombstone. */
  lemma {:induction false} LineParsesAs(key: Key, off: nat, letter: Byte, rest: seq<Byte>)
    requires |key| <= 31
    ensures ParseLine(PutInt(|key|) + key + PutLong(off) + [letter] + rest) ==
            Some((Rec(CutAtNul(key), U64FromBig(PutLong(off)), if letter == 'A' as int then ADD else DEL), |key| + 13))
  {
    hide U32FromBig;
    hide U64FromBig;
    hide PutInt;
    hide PutLong;
    hide CutAtNul;
    var n := |key|;
    var b := PutInt(n) + key + PutLong(off) + [letter] + rest;
    assert b[..4] == PutInt(n);
    U32OfPrefix(b, PutInt(n));
    U32UndoesPutInt(n);
    assert b[4..4 + n] == key;
    assert b[4 + n..] == PutLong(off) + ([letter] + rest);
    U64OfFront(PutLong(off), [letter] + rest);
  }

  /** A value whose record broke off behind its length reads as what is there of it, and zeros up to that length;
      one that broke off before is no value. */
  lemma {:induction false} TornValueReads(db: seq<Byte>, v: Value, c: nat)
    requires c <= 4 + |v|
    ensures ReadValue(db + ValueRecord(v)[..c], |db|) ==
            if c < 4 then None else Some(v[..c - 4] + seq(|v| + 4 - c, _ => 0))
  {
    hide U32FromBig;
    hide PutInt;
    var d := db + ValueRecord(v)[..c];
    if c >= 4 {
      assert d[|db|..] == ValueRecord(v)[..c] && ValueRecord(v)[..c][..4] == PutInt(|v|);
      U32OfPrefix(d[|db|..], PutInt(|v|));
      U32UndoesPutInt(|v|);
      forall i | 0 <= i < c - 4
        ensures d[|db| + 4 + i] == v[i]
      {
        assert d[|db| + 4 + i] == ValueRecord(v)[4 + i];
      }
      assert |v| % TWO32 == |v|;
      assert Window(d, |db| + 4, |v|) == v[..c - 4] + seq(|v| + 4 - c, _ => 0);
    }
  }

  lemma {:induction false} TornLineStops(r: Rec, c: nat)
    requires |r.key| < TWO32 && c < |Line(r)|
    ensures ParseLine(Line(r)[..c]) == None
  {
    hide PutInt;
    hide PutLong;
    hide U32FromBig;
    hide U64FromBig;
    hide CutAtNul;
    var b := Line(r)[..c];
    if c >= 4 {
      assert b[..4] == PutInt(|r.key|);
      U32OfPrefix(b, PutInt(|r.key|));
      U32UndoesPutInt(|r.key|);
    }
  }

  /** A log whose last line was not written to its end cannot be replayed at all, wherever the line broke off. */
  lemma {:induction false} TornLogStops(rs: seq<Rec>, r: Rec, c: nat)
    requires forall i :: 0 <= i < |rs| ==> |rs[i].key| < TWO32
    requires |r.key| < TWO32 && 0 < c < |Line(r)|
    ensures Parse(Lines(rs) + Line(r)[..c]) == None
    decreases |rs|
  {
    hide Line;
    hide ParseLine;
    var torn := Line(r)[..c];
    if rs == [] {
      assert Lines([]) + torn == torn;
      TornLineStops(r, c);
    } else {
      var rest := Lines(rs[1..]) + torn;
      LinesFront(rs);
      Associates(Line(rs[0]), Lines(rs[1..]), torn);
      LineReadsIff(rs[0], rest);
      assert (Line(rs[0]) + rest)[|Line(rs[0])|..] == rest;
      LineLength(rs[0]);
      TornLogStops(rs[1..], r, c);
    }
  }

  // ---- the log as the program runs it -------------------------------------------------------

  class Log {
    var db: seq<Byte>
    var dbAlloc: nat
    var log: seq<Byte>
    const islog: bool

    /** The allocation mark is the length of the value file. */
    ghost predicate Valid()
      reads this
    {
      dbAlloc == |db|
    }

    /** Open the value file, or start one; the log is what a process before left of it. */
    constructor (islog: bool, file: Option<seq<Byte>>, log: seq<Byte>)
      ensures Valid() && this.log == log && this.islog == islog
      ensures db == if file.Some? then file.value else DB_MAGIC
    {
      var bytes := if file.Some? then file.value else DB_MAGIC;
      db, dbAlloc, this.log := bytes, |bytes|, log;
      this.islog := islog;
    }

    /** Append the value, if there is one, and the operation; the offset is where the value went. */
    method Append(key: Key, value: Option<Value>) returns (off: nat)
      requires Valid()
      modifies this
      ensures Valid()
      ensures off == |old(db)|
      ensures db == if value.Some? then old(db) + ValueRecord(value.value) else old(db)
      ensures log == if islog then old(log) + Line(Rec(key, off, if value.Some? then ADD else DEL)) else old(log)
    {
      off := dbAlloc;
      if value.Some? {
        var line := PutInt(|value.value|) + value.value;
        db := db + line;
        dbAlloc := dbAlloc + |line|;
      }
      if islog {
        log := log + (PutInt(|key|) + key + PutLong(off) + [if value.Some? then OP_ADD else OP_DEL]);
      }
    }

    /** Remove the current log file. */
    method Remove()
      modifies this`log
      ensures log == []
    {
      log := [];
    }

    /** Switch to a new log file, empty. */
    method Next()
      modifies this`log
      ensures log == []
    {
      log := [];
    }
  }

  /** The replay loop: parse a line, offer it to the list, go on behind it. */
  function ReplayFrom(s: seq<Rec>, cap: nat, b: seq<Byte>): Option<seq<Rec>>
    decreases |b|
  {
    if b == [] then Some(s) else
      match ParseLine(b)
      case None => None
      case Some((r, n)) => ReplayFrom(InsertCap(s, cap, r), cap, b[n..])
  }

  lemma {:induction false} InsertAllFront(s: seq<Rec>, cap: nat, r: Rec, rs: seq<Rec>)
    ensures InsertAll(s, cap, [r] + rs) == InsertAll(InsertCap(s, cap, r), cap, rs)
  {
    hide InsertCap;
    if rs == [] {
      assert [r] + rs == [r] && [r][..0] == [];
      assert InsertAll(s, cap, []) == s;
    } else {
      assert ([r] + rs)[..|rs|] == [r] + rs[..|rs| - 1];
      InsertAllFront(s, cap, r, rs[..|rs| - 1]);
    }
  }

  /** Replaying a log is parsing it and inserting its records. */
  lemma {:induction false} ReplayIsInsertAll(s: seq<Rec>, cap: nat, b: seq<Byte>)
    ensures ReplayFrom(s, cap, b) ==
            match Parse(b) case Some(rs) => Some(InsertAll(s, cap, rs)) case None => None
    decreases |b|
  {
    hide ParseLine;
    hide InsertCap;
    if b != [] && ParseLine(b).Some? {
      var (r, n) := ParseLine(b).value;
      ParseLineBounds(b);
      ReplayIsInsertAll(InsertCap(s, cap, r), cap, b[n..]);
      if Parse(b[n..]).Some? {
        InsertAllFront(s, cap, r, Parse(b[n..]).value);
      }
    }
  }

  lemma {:induction false} ParseLineBounds(b: seq<Byte>)
    ensures ParseLine(b).Some? ==> 0 < ParseLine(b).value.1 <= |b|
  {
    hide CutAtNul;
    hide U32FromBig;
    hide U64FromBig;
  }

  /** Replay a log into a list; false when the program would stop on a short read. */
  method LogRead(log: seq<Byte>, list: Jikukan) returns (ok: bool)
    requires list.Valid()
    modifies list
    ensures list.Valid()
    ensures ok == Parse(log).Some?
    ensures ok ==> list.Recs() == InsertAll(old(list.Recs()), list.size, Parse(log).value)
  {
    hide ParseLine;
    hide Linked;
    hide Chain;
    hide Upsert;
    hide Parse;
    hide InsertAll;
    var pos := 0;
    ghost var all := ReplayFrom(list.Recs(), list.size, log);
    ReplayIsInsertAll(list.Recs(), list.size, log);
    assert log[0..] == log;
    while pos < |log|
      invariant pos <= |log| && list.Valid()
      invariant ReplayFrom(list.Recs(), list.size, log[pos..]) == all
    {
      var line := ParseLine(log[pos..]);
      if line == None {
        return false;
      }
      var (r, n) := line.value;
      ParseLineBounds(log[pos..]);
      assert log[pos..][n..] == log[pos + n..];
      var inserted := list.Insert(r.key, r.val, r.opt);
      assert r == Rec(r.key, r.val, r.opt);
      pos := pos + n;
    }
    ok := true;
  }
}
