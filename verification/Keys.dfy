// Keys are C strings, compared byte by byte as unsigned characters.
module Keys {
  type Byte = x: int | 0 <= x < 256

  /** The bytes of a C string, without its terminating NUL. */
  type Key = seq<Byte>

  const MAX_KEY_SIZE := 32

  /** What every key buffer of the engine can hold: no NUL inside, room for the one at the end. */
  predicate IsCString(k: Key) {
    |k| < MAX_KEY_SIZE && forall i :: 0 <= i < |k| ==> k[i] != 0
  }

  /** The C string that starts a buffer: cut at the first NUL. */
  function CutAtNul(b: seq<Byte>): Key {
    if b == [] || b[0] == 0 then [] else [b[0]] + CutAtNul(b[1..])
  }

  lemma {:induction false} Associates<T>(a: seq<T>, b: seq<T>, c: seq<T>)
    ensures a + b + c == a + (b + c)
  {
  }

  predicate Lt(a: Key, b: Key) {
    b != [] && (a == [] || a[0] < b[0] || (a[0] == b[0] && Lt(a[1..], b[1..])))
  }

  predicate Le(a: Key, b: Key) {
    a == b || Lt(a, b)
  }

  /** The sign of strcmp. */
  function Strcmp(a: Key, b: Key): (r: int)
    ensures r < 0 <==> Lt(a, b)
    ensures r == 0 <==> a == b
    ensures r > 0 <==> Lt(b, a)
  {
    LtIrreflexive(a);
    LtTotal(a, b);
    if Lt(a, b) then LtAsymmetric(a, b); -1 else if Lt(b, a) then 1 else 0
  }

  lemma {:induction false} LtIrreflexive(a: Key)
    ensures !Lt(a, a)
  {
    if a != [] {
      LtIrreflexive(a[1..]);
    }
  }

  lemma {:induction false} LtAsymmetric(a: Key, b: Key)
    requires Lt(a, b)
    ensures !Lt(b, a) && a != b
  {
    LtIrreflexive(a);
    if Lt(b, a) {
      LtTransitive(a, b, a);
    }
  }

  lemma {:induction false} LtTransitive(a: Key, b: Key, c: Key)
    requires Lt(a, b) && Lt(b, c)
    ensures Lt(a, c)
  {
    if a != [] && a[0] == b[0] && b[0] == c[0] {
      LtTransitive(a[1..], b[1..], c[1..]);
    }
  }

  lemma {:induction false} LtTotal(a: Key, b: Key)
    ensures a == b || Lt(a, b) || Lt(b, a)
  {
    if a != [] && b != [] {
      LtTotal(a[1..], b[1..]);
      if a[0] == b[0] && a[1..] == b[1..] {
        assert a == [a[0]] + a[1..] && b == [b[0]] + b[1..];
      }
    }
  }

  /** Lt is a strict total order; for proofs that need it at many keys at once. */
  lemma {:induction false} LtIsStrictTotalOrder()
    ensures forall a: Key :: !Lt(a, a)
    ensures forall a: Key, b: Key :: Lt(a, b) ==> !Lt(b, a)
    ensures forall a: Key, b: Key :: a == b || Lt(a, b) || Lt(b, a)
    ensures forall a: Key, b: Key, c: Key :: Lt(a, b) && Lt(b, c) ==> Lt(a, c)
  {
    hide Lt;
    forall a: Key ensures !Lt(a, a) { LtIrreflexive(a); }
    forall a: Key, b: Key ensures a == b || Lt(a, b) || Lt(b, a) { LtTotal(a, b); }
    forall a: Key, b: Key | Lt(a, b) ensures !Lt(b, a) { LtAsymmetric(a, b); }
    forall a: Key, b: Key, c: Key | Lt(a, b) && Lt(b, c) ensures Lt(a, c) { LtTransitive(a, b, c); }
  }

  /** Behind fronts of one length the order is decided by the fronts, and where they agree by the rest. */
  lemma {:induction false} LtConcat(a: Key, b: Key, x: Key, y: Key)
    requires |a| == |b|
    ensures Lt(a + x, b + y) <==> Lt(a, b) || (a == b && Lt(x, y))
  {
    if a == [] {
      assert a + x == x && b + y == y;
    } else {
      assert (a + x)[1..] == a[1..] + x && (b + y)[1..] == b[1..] + y;
      LtConcat(a[1..], b[1..], x, y);
      assert a == [a[0]] + a[1..] && b == [b[0]] + b[1..];
    }
  }

  lemma {:induction false} LtOne(a: Byte, b: Byte)
    ensures Lt([a], [b]) <==> a < b
  {
    assert [a][1..] == [] && [b][1..] == [];
  }
}
