// The growing byte buffer behind the log and the file writer.
module Buffers {
  import opened Keys
  import opened Codec
  import opened Bits

  /** What a buffer can grow to. */
  const MAX_BUFFER: nat := 0x4000_0000

  /** The new allocation is kept in an int: it fits one exactly up to that size. */
  lemma {:induction false} NextPowerIsIntIff(total: nat)
    requires 1 <= total < 0x8000_0000
    ensures NextPower(total) < 0x8000_0000 <==> total <= 0x4000_0000
  {
    hide NextPower;
    NextPowerIff(total);
    WordSizes();
    assert Pow2(31) == 2 * Pow2(30);
    hide Pow2;
    if total > MAX_BUFFER {
      var k: nat :| NextPower(total) == Pow2(k);
      if k <= 30 {
        Pow2Rises(k, 30);
        assert false;
      }
      Pow2Rises(31, k);
    }
  }

  class Buffer {
    var buf: array<Byte>
    var NUL: nat
    var buflen: nat

    /** buflen is what is allocated; an unallocated buffer has length 0. */
    ghost predicate Valid()
      reads this
    {
      buf.Length == buflen && NUL <= buflen
    }

    /** What has been put since the buffer was last cleared or detached. */
    ghost function Contents(): seq<Byte>
      requires Valid()
      reads this, buf
    {
      buf[..NUL]
    }

    /** Make room for len more bytes. Everything allocated is kept, the bytes behind NUL too. */
    method ExtendBy(len: nat)
      requires Valid() && NUL + len <= MAX_BUFFER
      modifies this`buf, this`buflen
      ensures Valid() && NUL + len <= buflen && (buf == old(buf) || fresh(buf))
      ensures buf == old(buf) <==> NUL + len <= old(buflen)
      ensures buf != old(buf) ==> LeastPower(buflen, NUL + len)
      ensures old(buflen) <= buflen && buf[..old(buflen)] == old(buf[..])
    {
      var total := len + NUL;
      if total <= buflen {
        return;
      }
      NextPowerIff(total);
      buflen := NextPower(total);
      var buffer := new Byte[buflen];
      forall i | 0 <= i < buf.Length {
        buffer[i] := buf[i];
      }
      buf := buffer;
    }

    constructor (reserve: nat)
      requires reserve < MAX_BUFFER
      ensures Valid() && Contents() == [] && fresh(buf)
      ensures if reserve == 0 then buflen == 0 else LeastPower(buflen, reserve + 1)
    {
      buf := new Byte[0];
      NUL, buflen := 0, 0;
      new;
      if reserve != 0 {
        ExtendBy(reserve + 1);
      }
    }

    method Clear()
      requires Valid()
      modifies this`NUL, buf
      ensures Valid() && Contents() == []
      ensures buf[..] == if buflen == 0 then [] else [0] + old(buf[1..])
    {
      NUL := 0;
      if buflen != 0 {
        buf[NUL] := 0;
      }
    }

    /** Append bytes and close them with a NUL that does not count. */
    method PutNStr(str: seq<Byte>)
      requires Valid() && NUL + |str| < MAX_BUFFER
      modifies this, buf
      ensures Valid() && (buf == old(buf) || fresh(buf)) && Contents() == old(Contents()) + str
      ensures NUL < buflen && buf[NUL] == 0
    {
      ExtendBy(|str| + 1);
      assert buf[..NUL] == buf[..old(buflen)][..NUL];
      CopyIn(str);
      NUL := NUL + |str|;
      buf[NUL] := 0;
    }

    /** The memcpy of PutNStr. */
    method CopyIn(str: seq<Byte>)
      requires Valid() && NUL + |str| <= buflen
      modifies buf
      ensures buf[..NUL + |str|] == old(buf[..NUL]) + str
    {
      forall i | 0 <= i < |str| {
        buf[NUL + i] := str[i];
      }
      assert buf[NUL..NUL + |str|] == str;
      assert buf[..NUL + |str|] == buf[..NUL] + buf[NUL..NUL + |str|];
    }

    /** A C string is put up to its NUL. */
    method PutStr(str: seq<Byte>)
      requires Valid() && NUL + |CutAtNul(str)| < MAX_BUFFER
      modifies this, buf
      ensures Valid() && (buf == old(buf) || fresh(buf)) && Contents() == old(Contents()) + CutAtNul(str)
      ensures NUL < buflen && buf[NUL] == 0
    {
      PutNStr(CutAtNul(str));
    }

    method PutC(c: Byte)
      requires Valid() && NUL + 1 < MAX_BUFFER
      modifies this, buf
      ensures Valid() && (buf == old(buf) || fresh(buf)) && Contents() == old(Contents()) + [c]
      ensures NUL < buflen && buf[NUL] == 0
    {
      ExtendBy(2);
      assert buf[..NUL] == buf[..old(buflen)][..NUL];
      Push(c);
      buf[NUL] := 0;
    }

    /** buf[NUL++] = c */
    method Push(c: Byte)
      requires Valid() && NUL < buflen
      modifies this`NUL, buf
      ensures Valid() && NUL == old(NUL) + 1 && Contents() == old(Contents()) + [c]
    {
      buf[NUL] := c;
      NUL := NUL + 1;
      assert buf[..NUL] == buf[..NUL - 1] + [buf[NUL - 1]];
    }

    /** Four bytes, the most significant first; no NUL behind them. */
    method PushInt(val: nat)
      requires Valid() && NUL + 4 <= buflen
      modifies this`NUL, buf
      ensures Valid() && NUL == old(NUL) + 4 && Contents() == old(Contents()) + Codec.PutInt(val)
    {
      Push(val / 0x100_0000 % 256);
      Push(val / 0x1_0000 % 256);
      Push(val / 0x100 % 256);
      Push(val % 256);
    }

    method PutInt(val: nat)
      requires Valid() && NUL + 4 <= MAX_BUFFER
      modifies this, buf
      ensures Valid() && (buf == old(buf) || fresh(buf)) && Contents() == old(Contents()) + Codec.PutInt(val)
    {
      ExtendBy(4);
      assert buf[..NUL] == buf[..old(buflen)][..NUL];
      PushInt(val);
    }

    method PutLong(val: nat)
      requires Valid() && NUL + 8 <= MAX_BUFFER
      modifies this, buf
      ensures Valid() && (buf == old(buf) || fresh(buf)) && Contents() == old(Contents()) + Codec.PutLong(val)
    {
      hide Codec.PutInt;
      ExtendBy(8);
      assert buf[..NUL] == buf[..old(buflen)][..NUL];
      PushInt(val / TWO32);
      PushInt(val);
    }

    /** Hand out the bytes and start over; the allocation and its bytes stay. */
    method Detach() returns (b: array<Byte>)
      requires Valid()
      modifies this`NUL
      ensures Valid() && NUL == 0 && b == buf && b[..old(NUL)] == old(Contents())
    {
      NUL := 0;
      b := buf;
    }
  }
}
