// The request parser of the server, with the state it keeps between two reads.
module Requests {
  import opened Keys
  import opened Records
  import opened Decimal

  const CR: Byte := 13
  const LF: Byte := 10
  const STAR: Byte := 42
  const DOLLAR: Byte := 36
  const CRLF: seq<Byte> := [13, 10]

  datatype Cmd = Ping | Fetch | Mget | Store | Mset | Del | Info | Exists | Shutdown | Unknown

  /** data is the filled part of the buffer, argc the length of argv. */
  datatype Request = Request(data: seq<Byte>, argv: seq<Option<seq<Byte>>>, pos: nat, multilen: nat,
                             lastlen: nat, idx: nat, cmd: Cmd)

  /** Overrun: an argument has no slot in the array, and the program writes behind it. */
  datatype Status = Failed | Waiting | Complete | Overrun

  // ---- a length header ------------------------------------------------------------------

  /** The class of a byte: 3 starts a header, 2 is a digit. */
  function Class(c: Byte): nat {
    if c == 10 || c == 13 || c == 36 || c == 42 then 3
    else if 48 <= c <= 57 then 2
    else if c == 69 || c == 71 || c == 84 then 1
    else 0
  }

  /** Read a header from i on: its digits and the position behind it. */
  function Scan(data: seq<Byte>, i: nat, term: bool, first: bool, digits: seq<Byte>): (r: Option<(seq<Byte>, nat)>)
    requires AllDigits(digits)
    ensures r.Some? ==> AllDigits(r.value.0) && i < r.value.1 <= |data|
    decreases |data| - i
  {
    if i >= |data| || data[i] == 0 then None
    else if data[i] == CR then Scan(data, i + 1, true, false, digits)
    else if data[i] == LF then (if term then Some((digits, i + 1)) else None)
    else if first then (if Class(data[i]) == 3 then Scan(data, i + 1, term, false, digits) else None)
    else if Class(data[i]) == 2 then Scan(data, i + 1, term, false, digits + [data[i]])
    else None
  }

  function Header(data: seq<Byte>, i: nat): (r: Option<(nat, nat)>)
    ensures r.Some? ==> i < r.value.1 <= |data|
  {
    match Scan(data, i, false, true, [])
    case None => None
    case Some((digits, pos)) => Some((Atoi(digits), pos))
  }

  // ---- a request ---------------------------------------------------------------------------

  function LowerByte(c: Byte): Byte {
    if 65 <= c <= 90 then c + 32 else c
  }

  function LowerCase(v: seq<Byte>): (w: seq<Byte>)
    ensures |w| == |v|
  {
    seq(|v|, i requires 0 <= i < |v| => LowerByte(v[i]))
  }

  /** The command table, searched in order. */
  const METHODS: seq<(seq<Byte>, Cmd)> := [
    ([112, 105, 110, 103], Ping), ([103, 101, 116], Fetch), ([109, 103, 101, 116], Mget), ([115, 101, 116], Store),
    ([109, 115, 101, 116], Mset), ([100, 101, 108], Del), ([105, 110, 102, 111], Info),
    ([101, 120, 105, 115, 116, 115], Exists), ([115, 104, 117, 116, 100, 111, 119, 110], Shutdown),
    ([117, 110, 107, 110, 111, 119, 32, 99, 109, 100], Unknown)]

  function LookupFrom(v: seq<Byte>, l: nat): Cmd
    requires l <= |METHODS|
    decreases |METHODS| - l
  {
    if l == |METHODS| then Unknown
    else if CutAtNul(v) == METHODS[l].0 then METHODS[l].1
    else LookupFrom(v, l + 1)
  }

  /** The first argument is the command: it is kept in lower case. */
  function Kept(idx: nat, v: seq<Byte>): seq<Byte> {
    if idx == 0 then LowerCase(v) else v
  }

  /** Take the n bytes at the current position as the next argument, and step over them and a CR LF. */
  function Took(r: Request, n: nat): Request
    requires r.pos + n <= |r.data| && r.idx < |r.argv| && r.multilen > 0
  {
    var v := Kept(r.idx, r.data[r.pos..r.pos + n]);
    r.(argv := r.argv[r.idx := Some(v)], cmd := if r.idx == 0 then LookupFrom(v, 0) else r.cmd,
       idx := r.idx + 1, pos := r.pos + n + 2, lastlen := 0, multilen := r.multilen - 1)
  }

  /** What is left behind a request moves to the front; without any the state is reset. */
  function Finished(r: Request): Request {
    if r.pos < |r.data| then r.(data := r.data[r.pos..], pos := 0)
    else r.(data := [], multilen := 0, lastlen := 0, pos := 0, idx := 0)
  }

  /** The length of the next argument: the one a read before stopped at, or a new header. */
  function NextLen(r: Request): (n: Option<(nat, nat)>)
    ensures n.Some? ==> r.pos <= n.value.1
  {
    if r.lastlen != 0 then Some((r.lastlen, r.pos)) else Header(r.data, r.pos)
  }

  function Loop(r: Request): (Status, Request)
    decreases r.multilen
  {
    if r.multilen == 0 then (Complete, Finished(r)) else
      match NextLen(r)
      case None => (Failed, r)
      case Some((n, pos)) =>
        var r' := r.(pos := pos);
        if pos + n >= |r.data| then (Waiting, r'.(lastlen := n))
        else if r.idx >= |r.argv| then (Overrun, r')
        else Loop(Took(r', n))
  }

  /** Between requests the index is back at zero, and within one there is a slot for each argument to come. */
  predicate Ready(r: Request) {
    if r.multilen == 0 then r.idx == 0 && r.lastlen == 0 else r.idx + r.multilen == |r.argv|
  }

  function Parse(r: Request): (Status, Request) {
    if r.multilen == 0 then
      match Header(r.data, r.pos)
      case None => (Failed, r)
      case Some((n, pos)) => Loop(r.(pos := pos, multilen := n, argv := seq(n, _ => None)))
    else Loop(r)
  }

  function Append(r: Request, more: seq<Byte>): Request {
    r.(data := r.data + more)
  }

  // ---- staying inside the buffer -----------------------------------------------------------------

  /** The header scan comes to its end at a position below cap: nothing but a byte it does not take,
      or the zeros behind the data, stops it. */
  ghost predicate ScanEnds(data: seq<Byte>, i: nat, term: bool, first: bool, cap: nat)
    decreases cap - i
  {
    i < cap &&
    if i >= |data| || data[i] == 0 then true
    else if data[i] == CR then ScanEnds(data, i + 1, true, false, cap)
    else if data[i] == LF then true
    else if first then Class(data[i]) == 3 ==> ScanEnds(data, i + 1, term, false, cap)
    else Class(data[i]) == 2 ==> ScanEnds(data, i + 1, term, false, cap)
  }

  ghost predicate LoopInside(r: Request, cap: nat)
    decreases r.multilen
  {
    r.multilen == 0 ||
    (&& (r.lastlen != 0 || ScanEnds(r.data, r.pos, false, true, cap))
     && match NextLen(r)
        case None => true
        case Some((n, pos)) =>
          pos + n < |r.data| && r.idx < |r.argv| ==> LoopInside(Took(r.(pos := pos), n), cap))
  }

  /** Every header scan of the parse stays inside a buffer of cap bytes. */
  ghost predicate ParseInside(r: Request, cap: nat) {
    if r.multilen == 0 then
      && ScanEnds(r.data, r.pos, false, true, cap)
      && match Header(r.data, r.pos)
         case None => true
         case Some((n, pos)) => LoopInside(r.(pos := pos, multilen := n, argv := seq(n, _ => None)), cap)
    else LoopInside(r, cap)
  }

  lemma {:induction false} ScanEndsAtZero(data: seq<Byte>, i: nat, term: bool, first: bool, cap: nat)
    requires |data| < cap && i < cap
    ensures ScanEnds(data, i, term, first, cap)
    decreases cap - i
  {
    if i < |data| {
      ScanEndsAtZero(data, i + 1, true, false, cap);
      ScanEndsAtZero(data, i + 1, term, false, cap);
    }
  }

  lemma {:induction false} LoopStaysInside(r: Request, cap: nat)
    requires |r.data| + 1 < cap && r.pos <= |r.data| + 1
    ensures LoopInside(r, cap)
    decreases r.multilen
  {
    hide Scan;
    hide Took;
    hide ScanEnds;
    if r.multilen > 0 {
      ScanEndsAtZero(r.data, r.pos, false, true, cap);
      if NextLen(r).Some? {
        var (n, pos) := NextLen(r).value;
        if pos + n < |r.data| && r.idx < |r.argv| {
          TookCounts(r.(pos := pos), n);
          LoopStaysInside(Took(r.(pos := pos), n), cap);
        }
      }
    }
  }

  /** Two free bytes are enough, whatever has arrived. */
  lemma {:induction false} RoomIsEnough(r: Request, cap: nat)
    requires |r.data| + 1 < cap && r.pos <= |r.data| + 1
    ensures ParseInside(r, cap)
  {
    hide Scan;
    hide ScanEnds;
    hide LoopInside;
    if r.multilen == 0 {
      ScanEndsAtZero(r.data, r.pos, false, true, cap);
      if Header(r.data, r.pos).Some? {
        var (n, pos) := Header(r.data, r.pos).value;
        LoopStaysInside(r.(pos := pos, multilen := n, argv := seq(n, _ => None)), cap);
      }
    } else {
      LoopStaysInside(r, cap);
    }
  }

  // ---- parsing in pieces ---------------------------------------------------------------------

  lemma {:induction false} ScanStable(data: seq<Byte>, more: seq<Byte>, i: nat, term: bool, first: bool,
                                      digits: seq<Byte>)
    requires AllDigits(digits) && Scan(data, i, term, first, digits).Some?
    ensures Scan(data + more, i, term, first, digits) == Scan(data, i, term, first, digits)
    decreases |data| - i
  {
    if data[i] == CR {
      ScanStable(data, more, i + 1, true, false, digits);
    } else if data[i] != LF {
      ScanStable(data, more, i + 1, term, false, if first then digits else digits + [data[i]]);
    }
  }

  lemma {:induction false} NextLenStable(r: Request, more: seq<Byte>)
    requires NextLen(r).Some?
    ensures NextLen(Append(r, more)) == NextLen(r)
  {
    if r.lastlen == 0 {
      ScanStable(r.data, more, r.pos, false, true, []);
    }
  }

  lemma {:induction false} TookStable(r: Request, n: nat, more: seq<Byte>)
    requires r.pos + n <= |r.data| && r.idx < |r.argv| && r.multilen > 0
    ensures Took(Append(r, more), n) == Append(Took(r, n), more)
  {
    assert (r.data + more)[r.pos..r.pos + n] == r.data[r.pos..r.pos + n];
  }

  lemma {:induction false} LoopResumes(r: Request, more: seq<Byte>)
    requires r.idx + r.multilen == |r.argv| && Loop(r).0 == Waiting && Loop(r).1.lastlen > 0
    ensures Ready(Loop(r).1) && Loop(r).1.multilen > 0
    ensures Loop(Append(Loop(r).1, more)) == Loop(Append(r, more))
    decreases r.multilen
  {
    hide Scan;
    hide Took;
    var (n, pos) := NextLen(r).value;
    NextLenStable(r, more);
    var r' := r.(pos := pos);
    if pos + n < |r.data| {
      TookStable(r', n, more);
      assert Append(r, more).(pos := pos) == Append(r', more);
      TookCounts(r', n);
      LoopResumes(Took(r', n), more);
    } else {
      var w := r'.(lastlen := n);
      assert Append(w, more).(pos := pos) == Append(r', more).(lastlen := n);
      if pos + n < |r.data + more| {
        TookForgets(Append(r', more), n, n);
      }
    }
  }

  lemma {:induction false} TookForgets(r: Request, n: nat, lastlen: nat)
    requires r.pos + n <= |r.data| && r.idx < |r.argv| && r.multilen > 0
    ensures Took(r.(lastlen := lastlen), n) == Took(r, n)
  {
  }

  lemma {:induction false} TookCounts(r: Request, n: nat)
    requires r.pos + n <= |r.data| && r.idx < |r.argv| && r.multilen > 0
    ensures var t := Took(r, n);
            t.idx == r.idx + 1 && t.multilen == r.multilen - 1 && |t.argv| == |r.argv| && t.lastlen == 0
              && t.data == r.data
            && t.pos == r.pos + n + 2
  {
  }

  /** A parse that stops to wait behind the header of a non-empty argument has lost nothing: fed
      the rest, it goes on to exactly what parsing both at once gives. */
  lemma {:induction false} ParseResumes(r: Request, more: seq<Byte>)
    requires Ready(r) && Parse(r).0 == Waiting && Parse(r).1.lastlen > 0
    ensures Ready(Parse(r).1)
    ensures Parse(Append(Parse(r).1, more)) == Parse(Append(r, more))
  {
    hide Scan;
    hide Loop;
    if r.multilen == 0 {
      var (n, pos) := Header(r.data, r.pos).value;
      ScanStable(r.data, more, r.pos, false, true, []);
      var started := r.(pos := pos, multilen := n, argv := seq(n, _ => None));
      LoopResumes(started, more);
      assert Append(started, more) == Append(r, more).(pos := pos, multilen := n, argv := seq(n, _ => None));
    } else {
      LoopResumes(r, more);
    }
  }

  // ---- exactly when a parse resumes -----------------------------------------------------------

  lemma {:induction false} LoopLosesEmpty(r: Request)
    requires r.idx + r.multilen == |r.argv| && Loop(r).0 == Waiting && Loop(r).1.lastlen == 0
    ensures Ready(Loop(r).1) && Loop(r).1.multilen > 0
    ensures Loop(Append(Loop(r).1, CRLF)).0 == Waiting
    ensures Loop(Append(r, CRLF)).0 != Waiting
    decreases r.multilen
  {
    hide Scan;
    hide Took;
    var (n, pos) := NextLen(r).value;
    NextLenStable(r, CRLF);
    var r' := r.(pos := pos);
    if pos + n < |r.data| {
      TookStable(r', n, CRLF);
      assert Append(r, CRLF).(pos := pos) == Append(r', CRLF);
      TookCounts(r', n);
      LoopLosesEmpty(Took(r', n));
    } else {
      NoHeaderBehind(r.data + CRLF, pos + 2);
      TookCounts(Append(r', CRLF), 0);
      EmptyHeader(r.data);
      assert Append(r, CRLF).(pos := pos) == Append(r', CRLF);
    }
  }

  lemma {:induction false} NoHeaderBehind(data: seq<Byte>, i: nat)
    requires i >= |data|
    ensures Header(data, i) == None
  {
  }

  lemma {:induction false} EmptyHeader(data: seq<Byte>)
    ensures Header(data + CRLF, |data|) == Some((0, |data| + 2))
  {
    var d := data + CRLF;
    assert d[|data|] == CR && d[|data| + 1] == LF;
    assert Scan(d, |data| + 1, true, false, []) == Some(([], |data| + 2));
  }

  /** A waiting parse can be resumed with anything exactly if it waits for an argument that is not
      empty: a remembered length of 0 looks like none, and the CR LF of an empty argument is then
      read as a header. */
  lemma {:induction false} ResumesIff(r: Request)
    requires Ready(r) && Parse(r).0 == Waiting
    ensures Ready(Parse(r).1)
    ensures (forall more :: Parse(Append(Parse(r).1, more)) == Parse(Append(r, more))) <==> Parse(r).1.lastlen > 0
  {
    hide Scan;
    hide Loop;
    if Parse(r).1.lastlen > 0 {
      ParseResumes(r, []);
      forall more
        ensures Parse(Append(Parse(r).1, more)) == Parse(Append(r, more))
      {
        ParseResumes(r, more);
      }
    } else if r.multilen == 0 {
      var (n, pos) := Header(r.data, r.pos).value;
      ScanStable(r.data, CRLF, r.pos, false, true, []);
      var started := r.(pos := pos, multilen := n, argv := seq(n, _ => None));
      LoopLosesEmpty(started);
      assert Append(started, CRLF) == Append(r, CRLF).(pos := pos, multilen := n, argv := seq(n, _ => None));
      assert Parse(Append(Parse(r).1, CRLF)) != Parse(Append(r, CRLF));
    } else {
      LoopLosesEmpty(r);
      assert Parse(Append(Parse(r).1, CRLF)) != Parse(Append(r, CRLF));
    }
  }

  // ---- after a request --------------------------------------------------------------------------

  lemma {:induction false} LoopCompletes(r: Request)
    requires r.idx + r.multilen == |r.argv| && (r.multilen == 0 ==> r.lastlen == 0) && Loop(r).0 == Complete
    ensures var t := Loop(r).1;
            && t.multilen == 0 && t.lastlen == 0 && t.pos == 0 && |t.argv| == |r.argv|
            && t.idx == if t.data == [] then 0 else |t.argv|
    decreases r.multilen
  {
    hide Took;
    hide NextLen;
    if r.multilen > 0 {
      var (n, pos) := NextLen(r).value;
      TookCounts(r.(pos := pos), n);
      LoopCompletes(Took(r.(pos := pos), n));
    }
  }

  /** The parser is ready for another request exactly if nothing of it had arrived with the one
      before: the index of the next argument is only reset with the buffer. */
  lemma {:induction false} ReadyAgainIff(r: Request)
    requires Ready(r) && Parse(r).0 == Complete
    ensures var t := Parse(r).1; Ready(t) <==> t.data == [] || t.argv == []
  {
    hide Loop;
    hide Header;
    if r.multilen == 0 {
      var (n, pos) := Header(r.data, r.pos).value;
      LoopCompletes(r.(pos := pos, multilen := n, argv := seq(n, _ => None)));
    } else {
      LoopCompletes(r);
    }
  }
}
