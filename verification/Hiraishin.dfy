// The Bloom filter in front of the index.
module Hiraishins {
  import opened Keys
  import opened Texts

  // ---- the two hash functions, on 32-bit words -------------------------------------

  function SaxStep(h: bv32, c: Byte): bv32 {
    h ^ ((h << 5) + (h >> 2) + c as bv32)
  }

  /** A char is signed: bytes from 128 on are sign-extended. */
  function Char(c: Byte): bv32 {
    if c < 128 then c as bv32 else c as bv32 + 0xFFFF_FF00
  }

  function DjbStep(h: bv32, c: Byte): bv32 {
    (h << 5) + h + Char(c)
  }

  /** A hash folds its step over the bytes of the string. */
  function Sax(h: bv32, key: Key): bv32
    decreases |key|
  {
    if key == [] then h else Sax(SaxStep(h, key[0]), key[1..])
  }

  function Djb(h: bv32, key: Key): bv32
    decreases |key|
  {
    if key == [] then h else Djb(DjbStep(h, key[0]), key[1..])
  }

  method SaxHash(key: Key) returns (h: bv32)
    ensures h == Sax(0, key)
  {
    hide SaxStep;
    h := 0;
    assert key[0..] == key;
    for i := 0 to |key|
      invariant Sax(h, key[i..]) == Sax(0, key)
    {
      assert key[i..][1..] == key[i + 1..];
      h := SaxStep(h, key[i]);
    }
  }

  method DjbHash(key: Key) returns (h: bv32)
    ensures h == Djb(5381, key)
  {
    hide DjbStep;
    h := 5381;
    assert key[0..] == key;
    for i := 0 to |key|
      invariant Djb(h, key[i..]) == Djb(5381, key)
    {
      assert key[i..][1..] == key[i + 1..];
      h := DjbStep(h, key[i]);
    }
  }

  // ---- what the hashes are of known strings ---------------------------------------------

  /** The words after one and after two letters. */
  lemma {:induction false} StepsOfAb()
    ensures SaxStep(0, 97) == 97 && SaxStep(97, 98) == 3323
    ensures DjbStep(5381, 97) == 177670 && DjbStep(177670, 98) == 5863208
  {
  }

  /** A negative char is taken from 33 times the word. */
  lemma {:induction false} StepOfMinusOne()
    ensures DjbStep(5381, 255) == 177572
  {
  }

  /** "ab" hashes to 3323 and 5863208, and has two bits of a filter of a thousand; the byte 255 counts as -1. */
  lemma {:induction false} HashesOfAb()
    ensures Sax(0, Ascii("ab")) == 3323 && Djb(5381, Ascii("ab")) == 5863208
    ensures Positions(Ascii("ab"), 1000) == {323, 208}
    ensures Djb(5381, [255]) == 177572
  {
    hide SaxStep;
    hide DjbStep;
    StepsOfAb();
    StepOfMinusOne();
    AsciiOfAb();
    HashesFromTheFront(0, [97], 98);
    HashesFromTheFront(5381, [97], 98);
    assert [97] + [98] == [97, 98] && [97][1..] == [] && [255][1..] == [];
    assert 3323 % 1000 == 323 && 5863208 % 1000 == 208;
  }

  lemma {:induction false} AsciiOfAb()
    ensures Ascii("ab") == [97, 98]
  {
    assert "ab" == ['a', 'b'];
  }

  /** The byte at the end is mixed in last; without any byte the words are 0 and 5381. */
  lemma {:induction false} HashesFromTheFront(h: bv32, key: Key, c: Byte)
    ensures Sax(h, []) == h && Sax(h, key + [c]) == SaxStep(Sax(h, key), c)
    ensures Djb(h, []) == h && Djb(h, key + [c]) == DjbStep(Djb(h, key), c)
    decreases |key|
  {
    hide SaxStep;
    hide DjbStep;
    if key == [] {
      assert [] + [c] == [c] && [c][1..] == [];
    } else {
      assert (key + [c])[1..] == key[1..] + [c];
      HashesFromTheFront(SaxStep(h, key[0]), key[1..], c);
      HashesFromTheFront(DjbStep(h, key[0]), key[1..], c);
    }
  }

  // ---- the filter as a set of bit numbers ---------------------------------------------

  function SaxBit(key: Key, size: nat): (i: nat)
    requires size > 0
    ensures i < size
  {
    Sax(0, key) as int % size
  }

  function DjbBit(key: Key, size: nat): (i: nat)
    requires size > 0
    ensures i < size
  {
    Djb(5381, key) as int % size
  }

  function Positions(key: Key, size: nat): set<nat>
    requires size > 0
  {
    {SaxBit(key, size), DjbBit(key, size)}
  }

  /** What the filter answers when exactly these bits are set. */
  predicate MayHold(bits: set<nat>, key: Key, size: nat)
    requires size > 0
  {
    Positions(key, size) <= bits
  }

  // ---- the bit array -------------------------------------------------------------------

  function Mask(k: nat): bv8
    requires k < 8
  {
    1 << k
  }

  function TestBit(b: bv8, k: nat): bool
    requires k < 8
  {
    b & Mask(k) != 0
  }

  lemma {:induction false} SetThenTest(b: bv8, j: nat, k: nat)
    requires j < 8 && k < 8
    ensures TestBit(b | Mask(j), k) <==> j == k || TestBit(b, k)
  {
    MaskValues();
    assert (b | Mask(j)) & Mask(k) == (b & Mask(k)) | (Mask(j) & Mask(k));
  }

  lemma {:induction false} MaskValues()
    ensures Mask(0) == 1 && Mask(1) == 2 && Mask(2) == 4 && Mask(3) == 8
    ensures Mask(4) == 16 && Mask(5) == 32 && Mask(6) == 64 && Mask(7) == 128
  {
  }

  class Hiraishin {
    const size: nat
    const bitset: array<bv8>
    var count: nat

    ghost predicate Valid() {
      0 < size <= bitset.Length
    }

    /** The numbers of the bits that are set. */
    ghost function Bits(): set<nat>
      requires Valid()
      reads bitset
    {
      set i: nat | i < size && TestBit(bitset[i / 8], i % 8)
    }

    constructor (size: nat)
      requires size > 0
      ensures Valid() && fresh(bitset) && Bits() == {} && this.size == size
    {
      this.size := size;
      bitset := new bv8[size + 1](_ => 0);
      count := 0;
    }

    method SetBit(i: nat)
      requires Valid() && i < size
      modifies bitset
      ensures Bits() == old(Bits()) + {i}
    {
      bitset[i / 8] := bitset[i / 8] | Mask(i % 8);
      forall j: nat | j < size
        ensures TestBit(bitset[j / 8], j % 8) <==> j == i || TestBit(old(bitset[j / 8]), j % 8)
      {
        if j / 8 == i / 8 {
          SetThenTest(old(bitset[i / 8]), i % 8, j % 8);
        }
      }
    }

    method Add(key: Key)
      requires Valid()
      modifies this`count, bitset
      ensures Valid() && Bits() == old(Bits()) + Positions(key, size) && count == old(count) + 1
    {
      hide TestBit;
      hide Sax;
      hide Djb;
      var h := SaxHash(key);
      SetBit(h as int % size);
      assert Bits() == old(Bits()) + {SaxBit(key, size)};
      h := DjbHash(key);
      SetBit(h as int % size);
      count := count + 1;
    }

    method Get(key: Key) returns (found: bool)
      requires Valid()
      ensures found == MayHold(Bits(), key, size)
    {
      hide TestBit;
      hide Sax;
      hide Djb;
      var h := SaxHash(key);
      var i := h as int % size;
      if !TestBit(bitset[i / 8], i % 8) {
        return false;
      }
      h := DjbHash(key);
      i := h as int % size;
      found := TestBit(bitset[i / 8], i % 8);
    }
  }
}
