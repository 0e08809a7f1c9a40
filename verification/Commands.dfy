// Which command a request is: the names as text, in whatever case they are written.
module Commands {
  import opened Keys
  import opened Records
  import opened Texts
  import opened Requests
  import opened RequestLaws

  function NameOf(c: Cmd): string
    requires c != Unknown
  {
    match c
    case Ping => "ping"
    case Fetch => "get"
    case Mget => "mget"
    case Store => "set"
    case Mset => "mset"
    case Del => "del"
    case Info => "info"
    case Exists => "exists"
    case Shutdown => "shutdown"
  }

  /** The byte is that small letter, or the capital at the same place in the alphabet. */
  predicate SameLetter(x: Byte, letter: char) {
    || x == letter as int
    || ('A' as int <= x <= 'Z' as int && x - 'A' as int == letter as int - 'a' as int)
  }

  predicate Spells(v: seq<Byte>, name: string) {
    |v| == |name| && forall i :: 0 <= i < |v| ==> SameLetter(v[i], name[i])
  }

  predicate SmallLetters(name: string) {
    forall i :: 0 <= i < |name| ==> 'a' <= name[i] <= 'z'
  }

  lemma {:induction false} LowerSpells(v: seq<Byte>, name: string)
    requires SmallLetters(name)
    ensures LowerCase(v) == Ascii(name) <==> Spells(v, name)
  {
    if |v| == |name| {
      forall i | 0 <= i < |v|
        ensures LowerCase(v)[i] == Ascii(name)[i] <==> SameLetter(v[i], name[i])
      {
      }
      if Spells(v, name) {
        assert forall i :: 0 <= i < |v| ==> SameLetter(v[i], name[i]);
        assert LowerCase(v) == Ascii(name);
      }
    }
  }

  lemma {:induction false} CutOfLower(v: seq<Byte>)
    ensures CutAtNul(LowerCase(v)) == LowerCase(CutAtNul(v))
  {
    if v != [] && v[0] != 0 {
      assert LowerCase(v)[1..] == LowerCase(v[1..]);
      CutOfLower(v[1..]);
      assert LowerCase([v[0]] + CutAtNul(v[1..])) == [LowerByte(v[0])] + LowerCase(CutAtNul(v[1..]));
    }
  }

  // ---- the table ----------------------------------------------------------------------------------------

  /** The row of a command. */
  function Row(c: Cmd): nat
    requires c != Unknown
  {
    match c
    case Ping => 0
    case Fetch => 1
    case Mget => 2
    case Store => 3
    case Mset => 4
    case Del => 5
    case Info => 6
    case Exists => 7
    case Shutdown => 8
  }

  lemma {:induction false} NamesAreSmall(c: Cmd)
    requires c != Unknown
    ensures SmallLetters(NameOf(c)) && forall i :: 0 <= i < |NameOf(c)| ==> NameOf(c)[i] < 128 as char
  {
  }

  /** The table holds the names of the commands, and no name twice. */
  lemma {:induction false} TableIs(c: Cmd)
    requires c != Unknown
    ensures Row(c) < |METHODS| == 10 && METHODS[Row(c)] == (Ascii(NameOf(c)), c)
    ensures METHODS[9].1 == Unknown
  {
    NamesAreSmall(c);
    var n := Ascii(NameOf(c));
    match c {
      case Ping => assert n == [112, 105, 110, 103];
      case Fetch => assert n == [103, 101, 116];
      case Mget => assert n == [109, 103, 101, 116];
      case Store => assert n == [115, 101, 116];
      case Mset => assert n == [109, 115, 101, 116];
      case Del => assert n == [100, 101, 108];
      case Info => assert n == [105, 110, 102, 111];
      case Exists => assert n == [101, 120, 105, 115, 116, 115];
      case Shutdown => assert n == [115, 104, 117, 116, 100, 111, 119, 110];
    }
  }

  lemma {:induction false} NamesDiffer(a: Cmd, b: Cmd)
    requires a != Unknown && b != Unknown && Ascii(NameOf(a)) == Ascii(NameOf(b))
    ensures a == b
  {
    var x, y := NameOf(a), NameOf(b);
    assert |x| == |y|;
    forall i | 0 <= i < |x|
      ensures x[i] == y[i]
    {
      assert Ascii(x)[i] == x[i] as int && Ascii(y)[i] == y[i] as int;
    }
    assert x == y;
  }

  /** The search gives the command of a row whose name it is, if no other row has that name. */
  lemma {:induction false} LookupFinds(v: seq<Byte>, l: nat, c: Cmd)
    requires c != Unknown && CutAtNul(v) == Ascii(NameOf(c)) && l <= Row(c)
    ensures LookupFrom(v, l) == c
    decreases Row(c) - l
  {
    TableIs(c);
    if l < Row(c) {
      var d := At(l);
      TableIs(d);
      if METHODS[l].0 == CutAtNul(v) {
        NamesDiffer(c, d);
        assert false;
      }
      LookupFinds(v, l + 1, c);
    }
  }

  /** The command of a row. */
  function At(l: nat): (c: Cmd)
    requires l < 9
    ensures c != Unknown && Row(c) == l
  {
    match l
    case 0 => Ping
    case 1 => Fetch
    case 2 => Mget
    case 3 => Store
    case 4 => Mset
    case 5 => Del
    case 6 => Info
    case 7 => Exists
    case _ => Shutdown
  }

  lemma {:induction false} LookupNone(v: seq<Byte>, l: nat)
    requires l <= |METHODS| && forall c: Cmd :: c != Unknown ==> CutAtNul(v) != Ascii(NameOf(c))
    ensures LookupFrom(v, l) == Unknown
    decreases |METHODS| - l
  {
    TableIs(Ping);
    if l < 9 {
      TableIs(At(l));
      LookupNone(v, l + 1);
    } else if l == 9 {
      LookupNone(v, l + 1);
    }
  }

  lemma {:induction false} LookupIff(v: seq<Byte>, c: Cmd)
    ensures c != Unknown ==> (LookupFrom(LowerCase(v), 0) == c <==> Spells(CutAtNul(v), NameOf(c)))
    ensures LookupFrom(LowerCase(v), 0) == Unknown <==>
              forall d: Cmd :: d != Unknown ==> !Spells(CutAtNul(v), NameOf(d))
  {
    hide LowerCase;
    hide CutAtNul;
    hide LookupFrom;
    hide Ascii;
    hide Spells;
    hide SmallLetters;
    hide NameOf;
    CutOfLower(v);
    forall d: Cmd | d != Unknown
      ensures forall i :: 0 <= i < |NameOf(d)| ==> NameOf(d)[i] < 128 as char
    {
      NamesAreSmall(d);
    }
    forall d: Cmd | d != Unknown
      ensures CutAtNul(LowerCase(v)) == Ascii(NameOf(d)) <==> Spells(CutAtNul(v), NameOf(d))
      ensures Spells(CutAtNul(v), NameOf(d)) ==> LookupFrom(LowerCase(v), 0) == d
    {
      NamesAreSmall(d);
      LowerSpells(CutAtNul(v), NameOf(d));
      if Spells(CutAtNul(v), NameOf(d)) {
        LookupFinds(LowerCase(v), 0, d);
      }
    }
    if forall d: Cmd :: d != Unknown ==> !Spells(CutAtNul(v), NameOf(d)) {
      LookupNone(LowerCase(v), 0);
    }
  }

  /** An encoded request is the command whose name its first argument spells, up to a NUL and in any case,
      and the unknown command exactly if it spells none of the nine. */
  lemma {:induction false} CommandIff(args: seq<seq<Byte>>, c: Cmd)
    requires args != []
    ensures var cmd := Parse(Fresh(Encode(args))).1.cmd;
            && (c != Unknown ==> (cmd == c <==> Spells(CutAtNul(args[0]), NameOf(c))))
            && (cmd == Unknown <==> forall d: Cmd :: d != Unknown ==> !Spells(CutAtNul(args[0]), NameOf(d)))
  {
    hide Parse;
    hide Encode;
    hide LowerCase;
    hide CutAtNul;
    hide LookupFrom;
    hide Spells;
    ParseUndoesEncode(args);
    LookupIff(args[0], c);
  }

  /** The first argument is kept in small letters: bytes that are no capitals stay, and a capital becomes
      the small letter at its place in the alphabet. */
  lemma {:induction false} LowerIs(v: seq<Byte>, i: nat)
    requires i < |v|
    ensures |LowerCase(v)| == |v|
    ensures !('A' as int <= v[i] <= 'Z' as int) ==> LowerCase(v)[i] == v[i]
    ensures 'A' as int <= v[i] <= 'Z' as int ==> LowerCase(v)[i] - 'a' as int == v[i] - 'A' as int
  {
  }
}
