// A .silopit file: records laid out back to back, then a footer.
module Images {
  import opened Keys
  import opened Records
  import opened Codec

  const F_CRC := 2011

  /** maxLen is the width of a record's key field, NUL included. */
  datatype Footer = Footer(key: Key, count: nat, crc: nat, size: nat, maxLen: nat)

  datatype RawImage = Image(blocks: seq<Byte>, footer: Footer)

  const EMPTY_IMAGE := Image([], Footer([], 0, F_CRC, 0, 1))

  /** What the footer says about the mapped part holds of it. */
  ghost predicate WellSized(f: RawImage) {
    |f.blocks| == f.footer.size == f.footer.count * (f.footer.maxLen + 8)
  }

  type Image = f: RawImage | WellSized(f) witness EMPTY_IMAGE

  // ---- writing ------------------------------------------------------------------

  /** One more than the longest key among the records that will be written. */
  function MaxLen(adds: seq<Rec>): (n: nat)
    ensures n > 0
    ensures forall i :: 0 <= i < |adds| ==> |adds[i].key| < n
  {
    if adds == [] then 1 else
      var m := MaxLen(adds[..|adds| - 1]);
      if |adds[|adds| - 1].key| >= m then |adds[|adds| - 1].key| + 1 else m
  }

  /** No longer than the longest key calls for. */
  lemma {:induction false} MaxLenIsLongest(adds: seq<Rec>)
    ensures adds == [] ==> MaxLen(adds) == 1
    ensures adds != [] ==> exists i :: 0 <= i < |adds| && |adds[i].key| + 1 == MaxLen(adds)
  {
    if adds != [] {
      var init := adds[..|adds| - 1];
      MaxLenIsLongest(init);
      if |adds[|adds| - 1].key| >= MaxLen(init) || init == [] {
        assert |adds[|adds| - 1].key| + 1 == MaxLen(adds);
      } else {
        var i :| 0 <= i < |init| && |init[i].key| + 1 == MaxLen(init);
        assert adds[i] == init[i];
      }
    }
  }

  function RecBytes(r: Rec): seq<Byte> {
    r.key + [0] + PutLong(r.val)
  }

  /** What the buffer holds after the loop that appends each record. */
  function Data(adds: seq<Rec>): seq<Byte> {
    if adds == [] then [] else Data(adds[..|adds| - 1]) + RecBytes(adds[|adds| - 1])
  }

  /** The first n bytes of the buffer. The records overwrite the front of what earlier flushes
      left in it; beyond its end the model reads zeros. */
  function Take(data: seq<Byte>, stale: seq<Byte>, n: nat): (b: seq<Byte>)
    ensures |b| == n
    ensures n == |data| ==> b == data
  {
    seq(n, i requires 0 <= i < n =>
          if i < |data| then data[i] else if i < |stale| then stale[i] else 0)
  }

  function LastKey(chunk: seq<Rec>): Key
    requires chunk != []
  {
    chunk[|chunk| - 1].key
  }

  /** The file for a chunk: its ADD records, under the key of its last node, tombstone or not. */
  function WriteImage(chunk: seq<Rec>, stale: seq<Byte>): (f: Image)
    requires chunk != []
  {
    var adds := Adds(chunk);
    var w := MaxLen(adds);
    var size := At(|adds|, w + 8);
    Image(Take(Data(adds), stale, size), Footer(LastKey(chunk), |adds|, F_CRC, size, w))
  }

  // ---- reading ------------------------------------------------------------------

  /** Where record i starts when every record is w bytes wide. */
  function At(i: nat, w: nat): nat {
    i * w
  }

  lemma {:induction false} BlockInside(n: nat, i: nat, w: nat)
    requires i < n
    ensures At(i, w) + w <= n * w
  {
    assert n * w == i * w + w + (n - i - 1) * w;
  }

  function ReadRec(f: Image, i: nat): Rec
    requires i < f.footer.count
  {
    var w := f.footer.maxLen + 8;
    BlockInside(f.footer.count, i, w);
    var block := f.blocks[At(i, w)..];
    Rec(CutAtNul(block), U64FromBig(block[f.footer.maxLen..]), ADD)
  }

  function ReadAll(f: Image): (s: seq<Rec>)
    ensures |s| == f.footer.count && AllAdds(s)
  {
    seq(f.footer.count, i requires 0 <= i < f.footer.count => ReadRec(f, i))
  }

  // ---- the layout law -------------------------------------------------------------

  predicate SameLengths(adds: seq<Rec>, len: nat) {
    forall i :: 0 <= i < |adds| ==> |adds[i].key| == len
  }

  predicate OneWidth(adds: seq<Rec>) {
    forall i, j :: 0 <= i < j < |adds| ==> |adds[i].key| == |adds[j].key|
  }

  ghost predicate Storable(adds: seq<Rec>) {
    forall i :: 0 <= i < |adds| ==> NoNul(adds[i].key) && Representable(adds[i].val)
  }

  predicate NoNul(k: Key) {
    forall i :: 0 <= i < |k| ==> k[i] != 0
  }

  lemma {:induction false} CStringAt(k: Key, rest: seq<Byte>)
    requires NoNul(k)
    ensures CutAtNul(k + [0] + rest) == k
  {
    if k != [] {
      assert (k + [0] + rest)[1..] == k[1..] + [0] + rest;
      CStringAt(k[1..], rest);
    }
  }

  /** With keys of one length, record i sits at i times the record width. */
  lemma {:induction false} RecordAt(adds: seq<Rec>, len: nat, i: nat, at: nat)
    requires SameLengths(adds, len) && i < |adds| && at == At(i, len + 9)
    ensures at + len + 9 <= |Data(adds)|
    ensures Data(adds)[at..at + len + 9] == RecBytes(adds[i])
  {
    var n := |adds| - 1;
    DataLength(adds[..n], len);
    if i < n {
      RecordAt(adds[..n], len, i, at);
    }
  }

  lemma {:induction false} DataLength(adds: seq<Rec>, len: nat)
    requires SameLengths(adds, len)
    ensures |Data(adds)| == |adds| * (len + 9)
  {
    if adds != [] {
      DataLength(adds[..|adds| - 1], len);
      assert |adds| * (len + 9) == (|adds| - 1) * (len + 9) + (len + 9);
    }
  }

  lemma {:induction false} MaxLenOfSame(adds: seq<Rec>, len: nat)
    requires SameLengths(adds, len) && adds != []
    ensures MaxLen(adds) == len + 1
  {
    if |adds| > 1 {
      MaxLenOfSame(adds[..|adds| - 1], len);
    }
  }

  /** In a file of keys of one length, each record is its key, a NUL and eight bytes of offset, and the
      records follow each other without a gap. */
  lemma {:induction false} RecordBytes(chunk: seq<Rec>, stale: seq<Byte>, len: nat, i: nat, at: nat)
    requires chunk != [] && SameLengths(Adds(chunk), len) && i < |Adds(chunk)| && at == i * (len + 9)
    ensures var b := WriteImage(chunk, stale).blocks;
            |b| == |Adds(chunk)| * (len + 9) && at + len + 9 <= |b| && b[at..at + len] == Adds(chunk)[i].key &&
            b[at + len] == 0 && b[at + len + 1..at + len + 9] == PutLong(Adds(chunk)[i].val)
    ensures var n := |Adds(chunk)|;
            WriteImage(chunk, stale).footer == Footer(chunk[|chunk| - 1].key, n, 2011, n * (len + 9), len + 1)
  {
    hide PutLong;
    hide Data;
    hide MaxLen;
    var adds := Adds(chunk);
    MaxLenOfSame(adds, len);
    DataLength(adds, len);
    RecordAt(adds, len, i, at);
    var d, r := Data(adds), RecBytes(adds[i]);
    assert WriteImage(chunk, stale).blocks == d;
    assert forall j :: 0 <= j < |r| ==> d[at + j] == d[at..at + len + 9][j] == r[j];
    assert r[..len] == adds[i].key && r[len] == 0 && r[len + 1..] == PutLong(adds[i].val);
    assert d[at..at + len] == r[..len] && d[at + len + 1..at + len + 9] == r[len + 1..];
  }

  lemma {:induction false} SameAsFirst(adds: seq<Rec>)
    requires OneWidth(adds) && adds != []
    ensures SameLengths(adds, |adds[0].key|)
  {
  }

  /** A file written from keys of one length reads back as exactly the chunk's ADD records, in order. */
  lemma {:induction false} ReadUndoesWrite(chunk: seq<Rec>, stale: seq<Byte>)
    requires chunk != [] && Adds(chunk) != []
    requires OneWidth(Adds(chunk)) && Storable(Adds(chunk))
    ensures ReadAll(WriteImage(chunk, stale)) == Adds(chunk)
  {
    hide Data;
    hide ReadRec;
    hide Adds;
    hide OneWidth;
    hide SameLengths;
    var adds := Adds(chunk);
    var f, len := WriteImage(chunk, stale), |adds[0].key|;
    SameAsFirst(adds);
    MaxLenOfSame(adds, len);
    DataLength(adds, len);
    forall i | 0 <= i < |adds|
      ensures ReadRec(f, i) == adds[i]
    {
      ReadsBackAt(f, adds, len, i);
    }
  }

  lemma {:induction false} ReadsBackAt(f: Image, adds: seq<Rec>, len: nat, i: nat)
    requires SameLengths(adds, len) && Storable(adds) && AllAdds(adds) && i < |adds|
    requires f.blocks == Data(adds) && f.footer.count == |adds| && f.footer.maxLen == len + 1
    ensures ReadRec(f, i) == adds[i]
  {
    hide Data;
    hide CutAtNul;
    hide U64FromBig;
    hide WellSized;
    hide At;
    var at := At(i, f.footer.maxLen + 8);
    RecordAt(adds, len, i, at);
    assert f.blocks[at..][..len + 9] == f.blocks[at..at + len + 9];
    ReadsRecBytes(f.blocks[at..], len, adds[i]);
  }

  lemma {:induction false} ReadsRecBytes(block: seq<Byte>, len: nat, r: Rec)
    requires |block| >= len + 9 && block[..len + 9] == RecBytes(r)
    requires |r.key| == len && NoNul(r.key) && Representable(r.val) && r.opt == ADD
    ensures CutAtNul(block) == r.key
    ensures U64FromBig(block[len + 1..]) == r.val
  {
    hide CutAtNul;
    hide U64FromBig;
    hide Representable;
    hide PutLong;
    assert block == r.key + [0] + block[len + 1..];
    CStringAt(r.key, block[len + 1..]);
    assert block[len + 1..len + 9] == PutLong(r.val);
    assert block[len + 1..] == PutLong(r.val) + block[len + 9..];
    U64OfFront(PutLong(r.val), block[len + 9..]);
    U64UndoesPutLongIff(r.val);
  }

  // ---- the layout law is exact ----------------------------------------------------

  /** A chunk of ADD records. */
  function AddRecs(keys: seq<Key>, vals: seq<nat>): (s: seq<Rec>)
    requires |keys| == |vals|
    ensures AllAdds(s) && |s| == |keys|
  {
    seq(|keys|, i requires 0 <= i < |keys| => Rec(keys[i], vals[i], ADD))
  }

  /** Whatever offsets go with these keys, and whatever the buffer held before, the file reads back. */
  ghost predicate LayoutFaithful(keys: seq<Key>) {
    forall vals: seq<nat>, stale: seq<Byte> ::
      |vals| == |keys| && Storable(AddRecs(keys, vals)) ==> ReadsBack(AddRecs(keys, vals), stale)
  }

  ghost predicate ReadsBack(adds: seq<Rec>, stale: seq<Byte>) {
    adds != [] && ReadAll(WriteImage(adds, stale)) == Adds(adds)
  }

  predicate OneLength(keys: seq<Key>) {
    forall i, j :: 0 <= i < j < |keys| ==> |keys[i]| == |keys[j]|
  }

  /** Exactly the key sets of one length survive the fixed-width reading of the
      variable-width records. */
  lemma {:induction false} LayoutFaithfulIff(keys: seq<Key>)
    requires keys != [] && forall i :: 0 <= i < |keys| ==> NoNul(keys[i])
    ensures LayoutFaithful(keys) <==> OneLength(keys)
  {
    if OneLength(keys) {
      forall vals: seq<nat>, stale: seq<Byte> | |vals| == |keys| && Storable(AddRecs(keys, vals))
        ensures ReadsBack(AddRecs(keys, vals), stale)
      {
        AddsOfAdds(AddRecs(keys, vals));
        ReadUndoesWrite(AddRecs(keys, vals), stale);
      }
    } else {
      UnevenKeysFail(keys);
    }
  }

  lemma {:induction false} UnevenKeysFail(keys: seq<Key>)
    requires keys != [] && !OneLength(keys) && forall i :: 0 <= i < |keys| ==> NoNul(keys[i])
    ensures !LayoutFaithful(keys)
  {
    hide ReadAll;
    hide WriteImage;
    hide MaxLen;
    hide NoNul;
    hide Representable;
    hide LayoutFaithful;
    var zeros: seq<nat> := seq(|keys|, _ => 0);
    var a := AddRecs(keys, zeros);
    var i, j :| 0 <= i < j < |keys| && |keys[i]| != |keys[j]|;
    assert |a[i].key| != |a[j].key|;
    var p := FirstShort(a);
    var vals := zeros[p := HIGH_BYTE];
    assert a[p := a[p].(val := HIGH_BYTE)] == AddRecs(keys, vals);
    ShortKeyMisread(a, p);
    HighByteFits();
    if LayoutFaithful(keys) {
      FaithfulAt(keys, zeros);
      FaithfulAt(keys, vals);
      assert false;
    }
  }

  lemma {:induction false} HighByteFits()
    ensures Representable(0) && Representable(HIGH_BYTE)
  {
  }

  lemma {:induction false} FaithfulAt(keys: seq<Key>, vals: seq<nat>)
    requires LayoutFaithful(keys) && |vals| == |keys| > 0
    requires Storable(AddRecs(keys, vals))
    ensures ReadAll(WriteImage(AddRecs(keys, vals), [])) == AddRecs(keys, vals)
  {
    assert ReadsBack(AddRecs(keys, vals), []);
    AddsOfAdds(AddRecs(keys, vals));
  }

  /** An offset that differs from 0 in its first byte only. */
  const HIGH_BYTE: nat := 0x100_0000_0000_0000

  /** With keys of different lengths, some record is the first that is too short for its slot. */
  lemma {:induction false} FirstShort(adds: seq<Rec>) returns (p: nat)
    requires exists i, j :: 0 <= i < j < |adds| && |adds[i].key| != |adds[j].key|
    ensures p < |adds| && |adds[p].key| + 1 < MaxLen(adds)
    ensures forall i :: 0 <= i < p ==> |adds[i].key| + 1 == MaxLen(adds)
  {
    p := 0;
    while |adds[p].key| + 1 == MaxLen(adds)
      invariant p < |adds|
      invariant forall i :: 0 <= i < p ==> |adds[i].key| + 1 == MaxLen(adds)
      decreases |adds| - p
    {
      p := p + 1;
    }
  }

  lemma {:induction false} DataConcat(a: seq<Rec>, b: seq<Rec>)
    ensures Data(a + b) == Data(a) + Data(b)
  {
    hide RecBytes;
    if b == [] {
      assert a + b == a;
    } else {
      assert (a + b)[..|a + b| - 1] == a + b[..|b| - 1];
      DataConcat(a, b[..|b| - 1]);
    }
  }

  lemma {:induction false} MaxLenIgnoresVals(a: seq<Rec>, b: seq<Rec>)
    requires |a| == |b| && forall i :: 0 <= i < |a| ==> a[i].key == b[i].key
    ensures MaxLen(a) == MaxLen(b)
  {
    if a != [] {
      MaxLenIgnoresVals(a[..|a| - 1], b[..|b| - 1]);
    }
  }

  lemma {:induction false} ImageOfAdds(a: seq<Rec>)
    requires AllAdds(a) && a != []
    ensures var f, w := WriteImage(a, []), MaxLen(a);
            && f.blocks == Take(Data(a), [], At(|a|, w + 8))
            && f.footer == Footer(LastKey(a), |a|, F_CRC, At(|a|, w + 8), w)
  {
    hide Take;
    hide Data;
    hide MaxLen;
    AddsOfAdds(a);
  }

  lemma {:induction false} ReadRecOf(f: Image, a: seq<Rec>, p: nat)
    requires p < f.footer.count == |a|
    ensures ReadAll(f) == a ==> ReadRec(f, p) == a[p]
  {
    hide ReadRec;
  }

  /** Record p is read from behind the first byte of its offset, so the two files that differ
      only in that byte read alike there, although their offsets differ. */
  lemma {:induction false} ShortKeyMisread(a: seq<Rec>, p: nat)
    requires AllAdds(a) && p < |a| && a[p].val == 0
    requires |a[p].key| + 1 < MaxLen(a)
    requires forall i :: 0 <= i < p ==> |a[i].key| + 1 == MaxLen(a)
    ensures var b := a[p := a[p].(val := HIGH_BYTE)];
            !(ReadAll(WriteImage(a, [])) == a && ReadAll(WriteImage(b, [])) == b)
  {
    hide Data;
    hide MaxLen;
    hide At;
    hide Take;
    hide WriteImage;
    hide ReadRec;
    hide ReadAll;
    var b := a[p := a[p].(val := HIGH_BYTE)];
    var w := MaxLen(a);
    MaxLenIgnoresVals(a, b);
    ImageOfAdds(a);
    ImageOfAdds(b);
    var f, g := WriteImage(a, []), WriteImage(b, []);
    SameBehindFirstByte(a, p);
    DataLengthAt(a[..p], w);
    BlockInside(|a|, p, w + 8);
    TakeSame(Data(a), Data(b), At(p, w + 8) + |a[p].key| + 2, At(p, w + 8), w, At(|a|, w + 8));
    SameOffsetRead(f, g, p);
    ReadRecOf(f, a, p);
    ReadRecOf(g, b, p);
  }

  lemma {:induction false} SameOffsetRead(f: Image, g: Image, p: nat)
    requires f.footer == g.footer && p < f.footer.count
    requires At(p, f.footer.maxLen + 8) + f.footer.maxLen <= |f.blocks| == |g.blocks|
    requires f.blocks[At(p, f.footer.maxLen + 8)..][f.footer.maxLen..]
          == g.blocks[At(p, f.footer.maxLen + 8)..][f.footer.maxLen..]
    ensures ReadRec(f, p).val == ReadRec(g, p).val
  {
    hide CutAtNul;
    hide U64FromBig;
    hide WellSized;
  }

  lemma {:induction false} DataLengthAt(a: seq<Rec>, w: nat)
    requires w > 0 && SameLengths(a, w - 1)
    ensures |Data(a)| == At(|a|, w + 8)
  {
    DataLength(a, w - 1);
  }

  lemma {:induction false} TakeSame(d: seq<Byte>, e: seq<Byte>, x: nat, at: nat, w: nat, n: nat)
    requires |d| == |e| && x <= |d| && d[x..] == e[x..]
    requires x <= at + w <= n
    ensures Take(d, [], n)[at..][w..] == Take(e, [], n)[at..][w..]
  {
    forall i | x <= i < |d|
      ensures d[i] == e[i]
    {
      assert d[x..][i - x] == e[x..][i - x];
    }
  }

  lemma {:induction false} SameBehindFirstByte(a: seq<Rec>, p: nat)
    requires p < |a| && a[p].val == 0
    ensures var b := a[p := a[p].(val := HIGH_BYTE)];
            var x := |Data(a[..p])| + |a[p].key| + 2;
            |Data(a)| == |Data(b)| >= x && Data(a)[x..] == Data(b)[x..]
  {
    hide Data;
    hide PutLong;
    var b := a[p := a[p].(val := HIGH_BYTE)];
    DataAround(a, p);
    DataAround(b, p);
    assert b[..p] == a[..p] && b[p + 1..] == a[p + 1..];
    FirstByteOnly();
    DropToTail(Data(a[..p]), a[p].key, PutLong(0), Data(a[p + 1..]));
    DropToTail(Data(a[..p]), a[p].key, PutLong(HIGH_BYTE), Data(a[p + 1..]));
  }

  lemma {:induction false} FirstByteOnly()
    ensures PutLong(0)[1..] == PutLong(HIGH_BYTE)[1..]
  {
  }

  lemma {:induction false} DropToTail(pre: seq<Byte>, k: seq<Byte>, off: seq<Byte>, post: seq<Byte>)
    requires |off| == 8
    ensures (pre + (k + [0] + off) + post)[|pre| + |k| + 2..] == off[1..] + post
  {
  }

  lemma {:induction false} DataAround(a: seq<Rec>, p: nat)
    requires p < |a|
    ensures Data(a) == Data(a[..p]) + RecBytes(a[p]) + Data(a[p + 1..])
  {
    hide RecBytes;
    assert a == a[..p + 1] + a[p + 1..];
    DataConcat(a[..p + 1], a[p + 1..]);
    assert a[..p + 1][..p] == a[..p];
  }
}
