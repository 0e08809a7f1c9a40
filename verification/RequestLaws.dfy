// Encoded requests: parsed whole, parsed in pieces, and exactly where they may be cut.
module RequestLaws {
  import opened Keys
  import opened Records
  import opened Decimal
  import opened Requests

  function HeaderBytes(sign: Byte, n: nat): seq<Byte> {
    [sign] + Digits(n) + CRLF
  }

  function Bulk(args: seq<seq<Byte>>): seq<Byte> {
    if args == [] then [] else
      HeaderBytes(DOLLAR, |args[0]|) + args[0] + CRLF + Bulk(args[1..])
  }

  /** A request as a client sends it. */
  function Encode(args: seq<seq<Byte>>): seq<Byte> {
    HeaderBytes(STAR, |args|) + Bulk(args)
  }

  function Fresh(data: seq<Byte>): Request {
    Request(data, [], 0, 0, 0, 0, Ping)
  }

  // ---- reading a header back ----------------------------------------------------------------

  ghost predicate Holds(data: seq<Byte>, i: nat, part: seq<Byte>) {
    i + |part| <= |data| && data[i..i + |part|] == part
  }

  lemma {:induction false} HoldsTail(data: seq<Byte>, i: nat, part: seq<Byte>)
    requires Holds(data, i, part) && part != []
    ensures data[i] == part[0] && Holds(data, i + 1, part[1..])
  {
    assert data[i..i + |part|][0] == data[i];
    assert data[i..i + |part|][1..] == data[i + 1..i + |part|];
  }

  lemma {:induction false} ScanCrLf(data: seq<Byte>, i: nat, got: seq<Byte>)
    requires AllDigits(got) && Holds(data, i, CRLF)
    ensures Scan(data, i, false, false, got) == Some((got, i + 2))
  {
    HoldsTail(data, i, CRLF);
    HoldsTail(data, i + 1, CRLF[1..]);
    assert Scan(data, i + 1, true, false, got) == Some((got, i + 2));
  }

  lemma {:induction false} ScanDigits(data: seq<Byte>, i: nat, ds: seq<Byte>, got: seq<Byte>)
    requires AllDigits(ds) && AllDigits(got) && Holds(data, i, ds + CRLF)
    ensures Scan(data, i, false, false, got) == Some((got + ds, i + |ds| + 2))
    decreases |ds|
  {
    if ds == [] {
      assert ds + CRLF == CRLF && got + ds == got;
      ScanCrLf(data, i, got);
    } else {
      HoldsTail(data, i, ds + CRLF);
      assert (ds + CRLF)[1..] == ds[1..] + CRLF;
      hide Holds;
      ScanDigits(data, i + 1, ds[1..], got + [ds[0]]);
      assert got + [ds[0]] + ds[1..] == got + ds;
    }
  }

  /** A header whose LF has not arrived is not read. */
  lemma {:induction false} ScanShort(data: seq<Byte>, i: nat, ds: seq<Byte>, c: nat, got: seq<Byte>)
    requires AllDigits(ds) && AllDigits(got) && c < |ds| + 2 && |data| == i + c && Holds(data, i, (ds + CRLF)[..c])
    ensures Scan(data, i, false, false, got) == None
    decreases |ds|
  {
    if c > 0 {
      HoldsTail(data, i, (ds + CRLF)[..c]);
      if ds == [] {
        assert Scan(data, i + 1, true, false, got) == None;
      } else {
        assert (ds + CRLF)[..c][1..] == (ds[1..] + CRLF)[..c - 1];
        ScanShort(data, i + 1, ds[1..], c - 1, got + [ds[0]]);
      }
    }
  }

  predicate Sign(c: Byte) {
    c == STAR || c == DOLLAR
  }

  lemma {:induction false} ScanSign(data: seq<Byte>, i: nat, sign: Byte)
    requires Sign(sign) && i < |data| && data[i] == sign
    ensures Scan(data, i, false, true, []) == Scan(data, i + 1, false, false, [])
  {
  }

  lemma {:induction false} HeaderReads(pre: seq<Byte>, sign: Byte, n: nat, rest: seq<Byte>)
    requires Sign(sign)
    ensures var data := pre + (HeaderBytes(sign, n) + rest);
            Header(data, |pre|) == Some((n, |pre| + |HeaderBytes(sign, n)|))
  {
    hide Scan;
    hide Digits;
    var data, ds := pre + (HeaderBytes(sign, n) + rest), Digits(n);
    assert data[|pre|] == sign;
    assert data[|pre| + 1..|pre| + 1 + |ds + CRLF|] == ds + CRLF;
    ScanSign(data, |pre|, sign);
    ScanDigits(data, |pre| + 1, ds, []);
    assert [] + ds == ds;
    AtoiUndoesDigits(n);
  }

  lemma {:induction false} HeaderShort(pre: seq<Byte>, sign: Byte, n: nat, c: nat)
    requires Sign(sign) && c < |HeaderBytes(sign, n)|
    ensures Header(pre + HeaderBytes(sign, n)[..c], |pre|) == None
  {
    hide Digits;
    var data, ds := pre + HeaderBytes(sign, n)[..c], Digits(n);
    if c > 0 {
      hide Scan;
      assert data[|pre|] == sign;
      ScanSign(data, |pre|, sign);
      assert HeaderBytes(sign, n) == [sign] + (ds + CRLF);
      assert HeaderBytes(sign, n)[..c] == [sign] + (ds + CRLF)[..c - 1];
      assert data[|pre| + 1..|pre| + c] == (ds + CRLF)[..c - 1];
      ScanShort(data, |pre| + 1, ds, c - 1, []);
    }
  }

  // ---- parsing a whole request -----------------------------------------------------------------

  /** r is about to read the arguments `args`, which follow `pre` in the buffer. */
  ghost predicate AtArgs(r: Request, pre: seq<Byte>, args: seq<seq<Byte>>, shown: seq<Byte>) {
    r.data == pre + shown && r.pos == |pre| && r.lastlen == 0 && r.multilen == |args|
  }

  /** The same, with a slot for each of them. */
  ghost predicate Before(r: Request, pre: seq<Byte>, args: seq<seq<Byte>>, shown: seq<Byte>) {
    AtArgs(r, pre, args, shown) && r.idx + |args| == |r.argv|
  }

  function ArgBytes(v: seq<Byte>): seq<Byte> {
    HeaderBytes(DOLLAR, |v|) + v + CRLF
  }

  /** The request after the argument v. */
  function Next(r: Request, v: seq<Byte>): Request
    requires r.idx < |r.argv| && r.multilen > 0
  {
    r.(argv := r.argv[r.idx := Some(Kept(r.idx, v))], cmd := if r.idx == 0 then LookupFrom(LowerCase(v), 0) else r.cmd,
       idx := r.idx + 1, pos := r.pos + |ArgBytes(v)|, lastlen := 0, multilen := r.multilen - 1)
  }

  /** One turn of the loop, once the payload and one more byte are there. */
  lemma {:induction false} TakesArg(r: Request, pre: seq<Byte>, args: seq<seq<Byte>>, shown: seq<Byte>)
    requires args != [] && AtArgs(r, pre, args, HeaderBytes(DOLLAR, |args[0]|) + args[0] + shown) && shown != []
    ensures if r.idx < |r.argv| then Loop(r) == Loop(Next(r, args[0])) else Loop(r).0 == Overrun
  {
    hide HeaderBytes;
    hide Header;
    var v := args[0];
    var head := HeaderBytes(DOLLAR, |v|);
    assert r.data == pre + (head + (v + shown));
    HeaderReads(pre, DOLLAR, |v|, v + shown);
    var pos := |pre| + |head|;
    assert pos + |v| < |r.data|;
    assert r.data[pos..pos + |v|] == v;
    if r.idx < |r.argv| {
      assert Took(r.(pos := pos), |v|) == Next(r, v);
    }
  }

  /** Up to the end of its payload, an argument is waited for. */
  lemma {:induction false} WaitsForArg(r: Request, pre: seq<Byte>, args: seq<seq<Byte>>, c: nat)
    requires args != [] && c <= |args[0]| && Before(r, pre, args, HeaderBytes(DOLLAR, |args[0]|) + args[0][..c])
    ensures Loop(r).0 == Waiting && Loop(r).1.lastlen == |args[0]|
  {
    hide HeaderBytes;
    hide Header;
    var v := args[0];
    var head := HeaderBytes(DOLLAR, |v|);
    assert r.data == pre + (head + v[..c]);
    HeaderReads(pre, DOLLAR, |v|, v[..c]);
  }

  lemma {:induction false} NextIsBefore(r: Request, pre: seq<Byte>, args: seq<seq<Byte>>, shown: seq<Byte>)
    requires args != [] && AtArgs(r, pre, args, ArgBytes(args[0]) + shown) && r.idx < |r.argv|
    ensures AtArgs(Next(r, args[0]), pre + ArgBytes(args[0]), args[1..], shown)
    ensures Next(r, args[0]).idx == r.idx + 1 && |Next(r, args[0]).argv| == |r.argv|
  {
    hide HeaderBytes;
    assert pre + (ArgBytes(args[0]) + shown) == pre + ArgBytes(args[0]) + shown;
  }

  lemma {:induction false} BulkStarts(args: seq<seq<Byte>>)
    requires args != []
    ensures Bulk(args) == HeaderBytes(DOLLAR, |args[0]|) + args[0] + (CRLF + Bulk(args[1..]))
    ensures Bulk(args) == ArgBytes(args[0]) + Bulk(args[1..])
  {
    hide HeaderBytes;
    Associates(HeaderBytes(DOLLAR, |args[0]|) + args[0], CRLF, Bulk(args[1..]));
  }

  lemma {:induction false} LoopReadsBulk(r: Request, pre: seq<Byte>, args: seq<seq<Byte>>)
    requires Before(r, pre, args, Bulk(args))
    ensures Loop(r).0 == Complete
    ensures var t := Loop(r).1;
            && t == Request([], t.argv, 0, 0, 0, 0, t.cmd) && |t.argv| == |r.argv|
            && (forall j :: 0 <= j < r.idx ==> t.argv[j] == r.argv[j])
            && (forall j :: 0 <= j < |args| ==> t.argv[r.idx + j] == Some(Kept(r.idx + j, args[j])))
            && t.cmd == if r.idx == 0 && args != [] then LookupFrom(LowerCase(args[0]), 0) else r.cmd
    decreases |args|
  {
    hide HeaderBytes;
    hide Loop;
    hide ArgBytes;
    if args == [] {
      LoopEnds(r);
    } else {
      BulkStarts(args);
      TakesArg(r, pre, args, CRLF + Bulk(args[1..]));
      NextIsBefore(r, pre, args, Bulk(args[1..]));
      LoopReadsBulk(Next(r, args[0]), pre + ArgBytes(args[0]), args[1..]);
      var t := Loop(r).1;
      assert t.argv[r.idx] == Next(r, args[0]).argv[r.idx];
      forall j | 0 <= j < |args|
        ensures t.argv[r.idx + j] == Some(Kept(r.idx + j, args[j]))
      {
        if j > 0 {
          assert t.argv[r.idx + 1 + (j - 1)] == Some(Kept(r.idx + 1 + (j - 1), args[1..][j - 1]));
        }
      }
    }
  }

  lemma {:induction false} LoopEnds(r: Request)
    requires r.multilen == 0
    ensures Loop(r) == (Complete, Finished(r))
  {
  }

  /** What a parsed request looks like: its arguments, the first one in lower case, its command,
      and everything else back at zero. */
  ghost predicate Parsed(t: Request, args: seq<seq<Byte>>) {
    && t == Request([], t.argv, 0, 0, 0, 0, t.cmd) && |t.argv| == |args|
    && (forall j :: 0 <= j < |args| ==> t.argv[j] == Some(Kept(j, args[j])))
    && (args != [] ==> t.cmd == LookupFrom(LowerCase(args[0]), 0))
  }

  function Started(data: seq<Byte>, args: seq<seq<Byte>>): Request {
    Request(data, seq(|args|, _ => None), |HeaderBytes(STAR, |args|)|, |args|, 0, 0, Ping)
  }

  lemma {:induction false} ParseStarts(args: seq<seq<Byte>>, shown: seq<Byte>)
    ensures var head := HeaderBytes(STAR, |args|);
            && Parse(Fresh(head + shown)) == Loop(Started(head + shown, args))
            && Before(Started(head + shown, args), head, args, shown)
  {
    hide HeaderBytes;
    hide Header;
    hide Loop;
    var head := HeaderBytes(STAR, |args|);
    HeaderReads([], STAR, |args|, shown);
    assert [] + (head + shown) == head + shown;
  }

  /** Parsing undoes encoding. */
  lemma {:induction false} ParseUndoesEncode(args: seq<seq<Byte>>)
    ensures Parse(Fresh(Encode(args))).0 == Complete && Parsed(Parse(Fresh(Encode(args))).1, args)
  {
    hide HeaderBytes;
    hide Loop;
    hide Parse;
    hide Bulk;
    hide LookupFrom;
    ParseStarts(args, Bulk(args));
    var r := Started(Encode(args), args);
    LoopReadsBulk(r, HeaderBytes(STAR, |args|), args);
    var t := Loop(r).1;
    forall j | 0 <= j < |args|
      ensures t.argv[j] == Some(Kept(j, args[j]))
    {
      assert t.argv[r.idx + j] == Some(Kept(r.idx + j, args[j]));
    }
  }

  // ---- where a request may be cut ---------------------------------------------------------------

  /** A cut c bytes into the arguments: behind the header of one that is not empty, and no later
      than the end of its payload. */
  predicate InPayload(args: seq<seq<Byte>>, c: nat)
    decreases |args|
  {
    args != [] &&
    var head := |HeaderBytes(DOLLAR, |args[0]|)|;
    var end := head + |args[0]|;
    || (head < end && head <= c <= end)
    || (c >= end + 2 && InPayload(args[1..], c - (end + 2)))
  }

  /** The same for a cut c bytes into the whole request. */
  predicate GoodCut(args: seq<seq<Byte>>, c: nat) {
    var head := |HeaderBytes(STAR, |args|)|;
    c >= head && InPayload(args, c - head)
  }

  ghost predicate Waits(o: (Status, Request)) {
    o.0 == Waiting && o.1.lastlen > 0
  }

  lemma {:induction false} LoopFails(r: Request)
    requires r.multilen > 0 && NextLen(r) == None
    ensures Loop(r).0 == Failed
  {
  }

  lemma {:induction false} CutInHeader(r: Request, pre: seq<Byte>, args: seq<seq<Byte>>, c: nat)
    requires args != [] && c < |HeaderBytes(DOLLAR, |args[0]|)|
    requires Before(r, pre, args, HeaderBytes(DOLLAR, |args[0]|)[..c])
    ensures Loop(r).0 == Failed
  {
    hide HeaderBytes;
    hide Header;
    HeaderShort(pre, DOLLAR, |args[0]|, c);
    LoopFails(r);
  }

  /** The CR behind a payload is there, but not its LF. */
  lemma {:induction false} CutBehindCr(r: Request, pre: seq<Byte>, args: seq<seq<Byte>>)
    requires args != [] && Before(r, pre, args, HeaderBytes(DOLLAR, |args[0]|) + args[0] + [CR])
    ensures Loop(r).0 != Waiting
  {
    hide HeaderBytes;
    hide Header;
    hide Loop;
    TakesArg(r, pre, args, [CR]);
    var t := Next(r, args[0]);
    if t.multilen == 0 {
      LoopEnds(t);
    } else {
      NoHeaderBehind(t.data, t.pos);
      LoopFails(t);
    }
  }

  /** Which part of an argument a cut falls into. */
  lemma {:induction false} CutParts(args: seq<seq<Byte>>, c: nat)
    requires args != [] && c <= |Bulk(args)|
    ensures var head, v := HeaderBytes(DOLLAR, |args[0]|), args[0];
            && (c < |head| ==> Bulk(args)[..c] == head[..c])
            && (|head| <= c <= |head| + |v| ==> Bulk(args)[..c] == head + v[..c - |head|])
            && (c == |head| + |v| + 1 ==> Bulk(args)[..c] == head + v + [CR])
            && |ArgBytes(v)| == |head| + |v| + 2
            && (c >= |ArgBytes(v)| ==>
                  && c - |ArgBytes(v)| <= |Bulk(args[1..])|
                  && Bulk(args)[..c] == ArgBytes(v) + Bulk(args[1..])[..c - |ArgBytes(v)|])
  {
    hide HeaderBytes;
    var head, v, rest := HeaderBytes(DOLLAR, |args[0]|), args[0], Bulk(args[1..]);
    BulkStarts(args);
    hide Bulk;
    if c == |head| + |v| + 1 {
      assert (CRLF + rest)[..1] == [CR];
      assert (head + v + (CRLF + rest))[..c] == head + v + (CRLF + rest)[..1];
    }
  }

  lemma {:induction false} LoopWaitsIff(r: Request, pre: seq<Byte>, args: seq<seq<Byte>>, c: nat)
    requires c <= |Bulk(args)| && Before(r, pre, args, Bulk(args)[..c])
    ensures Waits(Loop(r)) <==> InPayload(args, c)
    decreases |args|
  {
    hide HeaderBytes;
    hide Loop;
    hide Bulk;
    hide ArgBytes;
    if args == [] {
      LoopEnds(r);
    } else {
      CutParts(args, c);
      var head, v := HeaderBytes(DOLLAR, |args[0]|), args[0];
      if c < |head| {
        CutInHeader(r, pre, args, c);
      } else if c <= |head| + |v| {
        WaitsForArg(r, pre, args, c - |head|);
      } else if c == |head| + |v| + 1 {
        CutBehindCr(r, pre, args);
      } else {
        var shown := Bulk(args[1..])[..c - |ArgBytes(v)|];
        ArgBytesEnd(v, shown);
        TakesArg(r, pre, args, CRLF + shown);
        NextIsBefore(r, pre, args, shown);
        LoopWaitsIff(Next(r, v), pre + ArgBytes(v), args[1..], c - |ArgBytes(v)|);
      }
    }
  }

  lemma {:induction false} ArgBytesEnd(v: seq<Byte>, shown: seq<Byte>)
    ensures ArgBytes(v) + shown == HeaderBytes(DOLLAR, |v|) + v + (CRLF + shown)
  {
  }

  /** A prefix of a request is waited on, with nothing lost, exactly if it ends at a good cut. */
  lemma {:induction false} PrefixWaitsIff(args: seq<seq<Byte>>, c: nat)
    requires c <= |Encode(args)|
    ensures Waits(Parse(Fresh(Encode(args)[..c]))) <==> GoodCut(args, c)
  {
    hide HeaderBytes;
    hide Bulk;
    hide InPayload;
    hide Loop;
    hide Header;
    var head := HeaderBytes(STAR, |args|);
    if c < |head| {
      assert Encode(args)[..c] == [] + head[..c];
      HeaderShort([], STAR, |args|, c);
    } else {
      var shown := Bulk(args)[..c - |head|];
      assert Encode(args)[..c] == head + shown;
      ParseStarts(args, shown);
      LoopWaitsIff(Started(head + shown, args), head, args, c - |head|);
    }
  }

  // ---- feeding a request in pieces -----------------------------------------------------------------

  function Joined(pieces: seq<seq<Byte>>): seq<Byte> {
    if pieces == [] then [] else pieces[0] + Joined(pieces[1..])
  }

  /** Append a piece and parse, again and again; None when a piece before the last is not waited on. */
  function Feed(r: Request, pieces: seq<seq<Byte>>): Option<(Status, Request)>
    requires pieces != []
    decreases |pieces|
  {
    var o := Parse(Append(r, pieces[0]));
    if |pieces| == 1 then Some(o)
    else if o.0 == Waiting then Feed(o.1, pieces[1..])
    else None
  }

  /** All cuts between the pieces are good. */
  ghost predicate CutsOk(args: seq<seq<Byte>>, start: nat, pieces: seq<seq<Byte>>) {
    forall k :: 0 < k < |pieces| ==> GoodCut(args, start + |Joined(pieces[..k])|)
  }

  lemma {:induction false} FirstCut(args: seq<seq<Byte>>, start: nat, pieces: seq<seq<Byte>>)
    requires |pieces| > 1 && CutsOk(args, start, pieces)
    ensures GoodCut(args, start + |pieces[0]|) && CutsOk(args, start + |pieces[0]|, pieces[1..])
  {
    hide GoodCut;
    assert pieces[..1][1..] == [] && Joined(pieces[..1]) == pieces[0];
    forall k | 0 < k < |pieces| - 1
      ensures GoodCut(args, start + |pieces[0]| + |Joined(pieces[1..][..k])|)
    {
      assert pieces[..k + 1][1..] == pieces[1..][..k];
    }
  }

  lemma {:induction false} FeedGoesOn(args: seq<seq<Byte>>, before: seq<Byte>, r: Request, pieces: seq<seq<Byte>>)
    requires pieces != [] && before + Joined(pieces) == Encode(args) && CutsOk(args, |before|, pieces)
    requires Waits(Parse(Fresh(before))) && r == Parse(Fresh(before)).1
    ensures Feed(r, pieces) == Some(Parse(Fresh(Encode(args))))
    decreases |pieces|
  {
    hide Parse;
    hide Encode;
    hide GoodCut;
    hide Waits;
    hide CutsOk;
    var p := pieces[0];
    WaitsIs(before);
    ParseResumes(Fresh(before), p);
    assert Append(Fresh(before), p) == Fresh(before + p);
    JoinedStep(before, pieces);
    if |pieces| > 1 {
      FirstCut(args, |before|, pieces);
      PrefixWaitsIff(args, |before + p|);
      PrefixOf(before + p, Joined(pieces[1..]));
      WaitsIs(before + p);
      FeedGoesOn(args, before + p, Parse(Fresh(before + p)).1, pieces[1..]);
    }
  }

  lemma {:induction false} WaitsIs(before: seq<Byte>)
    ensures var o := Parse(Fresh(before)); Waits(o) <==> o.0 == Waiting && o.1.lastlen > 0
  {
  }

  lemma {:induction false} PrefixOf(a: seq<Byte>, b: seq<Byte>)
    ensures (a + b)[..|a|] == a
  {
  }

  lemma {:induction false} JoinedStep(before: seq<Byte>, pieces: seq<seq<Byte>>)
    requires pieces != []
    ensures before + Joined(pieces) == before + pieces[0] + Joined(pieces[1..])
    ensures |pieces| == 1 ==> before + Joined(pieces) == before + pieces[0]
  {
    Associates(before, pieces[0], Joined(pieces[1..]));
  }

  /** A request fed in any number of pieces, cut at good places, parses like the whole. */
  lemma {:induction false} PiecesParseLikeWhole(args: seq<seq<Byte>>, pieces: seq<seq<Byte>>)
    requires pieces != [] && Joined(pieces) == Encode(args) && CutsOk(args, 0, pieces)
    ensures Feed(Fresh([]), pieces) == Some(Parse(Fresh(Encode(args))))
    ensures Parse(Fresh(Encode(args))).0 == Complete && Parsed(Parse(Fresh(Encode(args))).1, args)
  {
    hide Parse;
    hide Encode;
    hide GoodCut;
    hide CutsOk;
    ParseUndoesEncode(args);
    var p := pieces[0];
    assert Append(Fresh([]), p) == Fresh(p);
    JoinedStep([], pieces);
    assert [] + Joined(pieces) == Joined(pieces) && [] + p == p;
    if |pieces| > 1 {
      FirstCut(args, 0, pieces);
      PrefixOf(p, Joined(pieces[1..]));
      PrefixWaitsIff(args, |p|);
      FeedGoesOn(args, p, Parse(Fresh(p)).1, pieces[1..]);
    }
  }

  // ---- two requests in one buffer ------------------------------------------------------------------

  /** The arguments are read, and what follows them is left in front of the buffer. */
  lemma {:induction false} LoopLeaves(r: Request, pre: seq<Byte>, args: seq<seq<Byte>>, more: seq<Byte>)
    requires Before(r, pre, args, Bulk(args) + more) && more != []
    ensures Loop(r).0 == Complete
    ensures var t := Loop(r).1;
            && t.data == more && t.pos == 0 && t.multilen == 0 && t.lastlen == 0
            && t.idx == |r.argv| == |t.argv|
    decreases |args|
  {
    hide HeaderBytes;
    hide Loop;
    hide ArgBytes;
    if args == [] {
      assert [] + more == more;
      LoopEnds(r);
      assert r.data[r.pos..] == more;
    } else {
      BulkMore(args, more);
      TakesArg(r, pre, args, CRLF + (Bulk(args[1..]) + more));
      NextIsBefore(r, pre, args, Bulk(args[1..]) + more);
      LoopLeaves(Next(r, args[0]), pre + ArgBytes(args[0]), args[1..], more);
    }
  }

  lemma {:induction false} BulkMore(args: seq<seq<Byte>>, more: seq<Byte>)
    requires args != []
    ensures Bulk(args) + more == HeaderBytes(DOLLAR, |args[0]|) + args[0] + (CRLF + (Bulk(args[1..]) + more))
    ensures Bulk(args) + more == ArgBytes(args[0]) + (Bulk(args[1..]) + more)
  {
    hide HeaderBytes;
    BulkStarts(args);
    hide Bulk;
    hide ArgBytes;
    Associates(ArgBytes(args[0]), Bulk(args[1..]), more);
    ArgBytesEnd(args[0], Bulk(args[1..]) + more);
  }

  /** With fewer slots than arguments to come, the loop runs behind the array. */
  lemma {:induction false} LoopOverruns(r: Request, pre: seq<Byte>, args: seq<seq<Byte>>)
    requires AtArgs(r, pre, args, Bulk(args)) && args != [] && r.idx + |args| > |r.argv|
    ensures Loop(r).0 == Overrun
    decreases |args|
  {
    hide HeaderBytes;
    hide Loop;
    hide ArgBytes;
    BulkStarts(args);
    hide Bulk;
    TakesArg(r, pre, args, CRLF + Bulk(args[1..]));
    if r.idx < |r.argv| {
      NextIsBefore(r, pre, args, Bulk(args[1..]));
      LoopOverruns(Next(r, args[0]), pre + ArgBytes(args[0]), args[1..]);
    }
  }

  /** Two requests in one buffer: the first is complete, the parser is not ready, and the second runs
      behind its argument array. */
  lemma {:induction false} SecondRequestOverruns(first: seq<seq<Byte>>, second: seq<seq<Byte>>)
    requires first != [] && second != []
    ensures var o := Parse(Fresh(Encode(first) + Encode(second)));
            && o.0 == Complete && o.1.data == Encode(second) && !Ready(o.1)
            && Parse(o.1).0 == Overrun
  {
    hide HeaderBytes;
    hide Bulk;
    hide Loop;
    hide Header;
    hide LookupFrom;
    var more := Encode(second);
    var head := HeaderBytes(STAR, |first|);
    Associates(head, Bulk(first), more);
    ParseStarts(first, Bulk(first) + more);
    EncodeIsSome(second);
    LoopLeaves(Started(head + (Bulk(first) + more), first), head, first, more);
    var t := Parse(Fresh(Encode(first) + more)).1;
    HeaderReads([], STAR, |second|, Bulk(second));
    assert [] + more == more;
    var pos := |HeaderBytes(STAR, |second|)|;
    LoopOverruns(t.(pos := pos, multilen := |second|, argv := seq(|second|, _ => None)),
                 HeaderBytes(STAR, |second|), second);
  }

  lemma {:induction false} EncodeIsSome(args: seq<seq<Byte>>)
    ensures Encode(args) != []
  {
  }

  /** An empty argument, cut off behind its header: the wait is for nothing, and what completes the
      request when it comes at once does not complete it now. */
  lemma {:induction false} EmptyArgumentIsLost()
    ensures var part := HeaderBytes(STAR, 1) + HeaderBytes(DOLLAR, 0);
            && Encode([[]]) == part + CRLF && Parse(Fresh(Encode([[]]))).0 == Complete
            && Parse(Fresh(part)).0 == Waiting && Parse(Fresh(part)).1.lastlen == 0
            && Parse(Append(Parse(Fresh(part)).1, CRLF)).0 == Waiting
  {
    hide HeaderBytes;
    hide Loop;
    hide Header;
    hide LookupFrom;
    var args: seq<seq<Byte>> := [[]];
    var stars, dollars := HeaderBytes(STAR, 1), HeaderBytes(DOLLAR, 0);
    OneEmptyArgument();
    ParseUndoesEncode(args);
    ParseStarts(args, dollars);
    assert dollars == dollars + args[0][..0];
    var r := Started(stars + dollars, args);
    WaitsForArg(r, stars, args, 0);
    LoopLosesEmpty(r);
  }

  lemma {:induction false} OneEmptyArgument()
    ensures Encode([[]]) == HeaderBytes(STAR, 1) + HeaderBytes(DOLLAR, 0) + CRLF
  {
    hide HeaderBytes;
    var args: seq<seq<Byte>> := [[]];
    assert args[1..] == [];
    assert Bulk(args) == HeaderBytes(DOLLAR, 0) + CRLF;
    Associates(HeaderBytes(STAR, 1), HeaderBytes(DOLLAR, 0), CRLF);
  }
}
