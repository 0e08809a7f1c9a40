// Big-endian integers as the buffers write and the decoders read them. The bytes
// that the C code ORs together never overlap, so each OR is written as a sum.
module Codec {
  import opened Keys

  const TWO32: nat := 0x1_0000_0000
  const TWO64: nat := 0x1_0000_0000_0000_0000

  function PutInt(v: nat): (b: seq<Byte>)
    ensures |b| == 4
  {
    [v / 0x100_0000 % 256, v / 0x1_0000 % 256, v / 0x100 % 256, v % 256]
  }

  function U32FromBig(b: seq<Byte>): nat
    requires |b| >= 4
  {
    b[0] as int * 0x100_0000 + b[1] as int * 0x1_0000 + b[2] as int * 0x100 + b[3] as int
  }

  function PutLong(v: nat): (b: seq<Byte>)
    ensures |b| == 8
  {
    PutInt(v / TWO32) + PutInt(v)
  }

  /** Byte 4 is shifted as a signed int: when its top bit is set, the sign extension
      fills the upper half with ones, whatever bytes 0 to 3 held. */
  function U64FromBig(b: seq<Byte>): nat
    requires |b| >= 8
  {
    var low := U32FromBig(b[4..]);
    if b[4] >= 128 then (TWO32 - 1) * TWO32 + low else U32FromBig(b) * TWO32 + low
  }

  predicate Bit31(v: nat) {
    v / 0x8000_0000 % 2 == 1
  }

  /** The offsets the file format can carry. */
  predicate Representable(v: nat) {
    v < TWO64 && (!Bit31(v) || v / TWO32 == TWO32 - 1)
  }

  lemma {:induction false} SplitByte(v: nat, m: nat)
    requires m == 0x100_0000 || m == 0x1_0000 || m == 0x100
    ensures v % (m * 256) == v / m % 256 * m + v % m
  {
    var q, r := v / m, v % m;
    var p, s := q / 256, q % 256;
    if m == 0x100_0000 {
      Remainder(v, p, 0x1_0000_0000, s * 0x100_0000 + r);
    } else if m == 0x1_0000 {
      Remainder(v, p, 0x100_0000, s * 0x1_0000 + r);
    } else {
      Remainder(v, p, 0x1_0000, s * 0x100 + r);
    }
  }

  lemma {:induction false} Remainder(v: nat, p: nat, m: nat, r: nat)
    requires m == 0x1_0000_0000 || m == 0x100_0000 || m == 0x1_0000
    requires v == p * m + r && r < m
    ensures v % m == r
  {
  }

  lemma {:induction false} U32UndoesPutInt(v: nat)
    ensures U32FromBig(PutInt(v)) == v % TWO32
  {
    SplitByte(v, 0x100_0000);
    SplitByte(v, 0x1_0000);
    SplitByte(v, 0x100);
  }

  /** Decoding undoes encoding exactly on the representable offsets. */
  lemma {:induction false} U64UndoesPutLongIff(v: nat)
    ensures U64FromBig(PutLong(v)) == v <==> Representable(v)
  {
    hide PutInt;
    hide U32FromBig;
    var b, high, low := PutLong(v), v / TWO32, v % TWO32;
    U32UndoesPutInt(high);
    U32UndoesPutInt(v);
    assert b[4..] == PutInt(v) && b[..4] == PutInt(high) && b[4] == b[4..][0];
    U32OfFront(b);
    TopBitOfLowHalf(v);
    HalvesDecide(v, high % TWO32, Bit31(v));
  }

  lemma {:induction false} U32OfFront(b: seq<Byte>)
    requires |b| >= 4
    ensures U32FromBig(b) == U32FromBig(b[..4])
  {
  }

  lemma {:induction false} HalvesDecide(v: nat, h: nat, bit: bool)
    requires h == v / TWO32 % TWO32
    ensures (if bit then (TWO32 - 1) * TWO32 + v % TWO32 else h * TWO32 + v % TWO32) == v <==>
            v < TWO64 && (!bit || v / TWO32 == TWO32 - 1)
  {
  }

  lemma {:induction false} TopBitOfLowHalf(v: nat)
    ensures PutInt(v)[0] >= 128 <==> Bit31(v)
  {
    SplitByte(v, 0x100_0000);
  }

  /** What follows the eight bytes does not matter. */
  lemma {:induction false} U64OfFront(off: seq<Byte>, rest: seq<Byte>)
    requires |off| == 8
    ensures U64FromBig(off + rest) == U64FromBig(off)
  {
    assert (off + rest)[4..][..4] == off[4..];
  }

  // ---- the order of the encodings --------------------------------------------------------

  lemma {:induction false} LtFront(a: Byte, b: Byte, x: seq<Byte>, y: seq<Byte>)
    ensures Lt([a] + x, [b] + y) <==> a < b || (a == b && Lt(x, y))
  {
    LtConcat([a], [b], x, y);
    LtOne(a, b);
  }

  /** Four bytes are ordered like the numbers they stand for. */
  lemma {:induction false} BigEndianOrder(x: seq<Byte>, y: seq<Byte>)
    requires |x| == |y| == 4
    ensures Lt(x, y) <==> U32FromBig(x) < U32FromBig(y)
    ensures x == y <==> U32FromBig(x) == U32FromBig(y)
  {
    hide Lt;
    assert x == [x[0]] + ([x[1]] + ([x[2]] + [x[3]]));
    assert y == [y[0]] + ([y[1]] + ([y[2]] + [y[3]]));
    LtOne(x[3], y[3]);
    LtFront(x[2], y[2], [x[3]], [y[3]]);
    LtFront(x[1], y[1], [x[2]] + [x[3]], [y[2]] + [y[3]]);
    LtFront(x[0], y[0], [x[1]] + ([x[2]] + [x[3]]), [y[1]] + ([y[2]] + [y[3]]));
  }

  /** The encodings of two integers compare, byte by byte from the front, like the integers. */
  lemma {:induction false} PutIntInOrder(a: nat, b: nat)
    ensures Lt(PutInt(a), PutInt(b)) <==> a % TWO32 < b % TWO32
    ensures a < TWO32 && b < TWO32 ==> (Lt(PutInt(a), PutInt(b)) <==> a < b)
  {
    hide Lt;
    hide U32FromBig;
    hide PutInt;
    U32UndoesPutInt(a);
    U32UndoesPutInt(b);
    BigEndianOrder(PutInt(a), PutInt(b));
  }

  /** So do those of two offsets. */
  lemma {:induction false} PutLongInOrder(a: nat, b: nat)
    requires a < TWO64 && b < TWO64
    ensures Lt(PutLong(a), PutLong(b)) <==> a < b
  {
    hide Lt;
    hide U32FromBig;
    hide PutInt;
    LtConcat(PutInt(a / TWO32), PutInt(b / TWO32), PutInt(a), PutInt(b));
    PutIntInOrder(a / TWO32, b / TWO32);
    PutIntInOrder(a, b);
    U32UndoesPutInt(a / TWO32);
    U32UndoesPutInt(b / TWO32);
    BigEndianOrder(PutInt(a / TWO32), PutInt(b / TWO32));
  }

  /** What the decoder makes of any encoded offset: below bit 31 the offset itself, and otherwise its low
      half under a high half of ones. */
  lemma {:induction false} DecodedOffset(v: nat)
    requires v < TWO64
    ensures U64FromBig(PutLong(v)) == if Bit31(v) then TWO64 - TWO32 + v % TWO32 else v
  {
    hide PutInt;
    hide U32FromBig;
    var b := PutLong(v);
    U32UndoesPutInt(v / TWO32);
    U32UndoesPutInt(v);
    assert b[4..] == PutInt(v) && b[..4] == PutInt(v / TWO32) && b[4] == b[4..][0];
    U32OfFront(b);
    TopBitOfLowHalf(v);
  }
}
