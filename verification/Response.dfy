// The printer of the server, in the format the parser reads.
module Responses {
  import opened Keys
  import opened Records
  import opened Decimal
  import opened Requests
  import opened RequestLaws

  datatype Reply = Ok | Ok200 | Ok404 | OkPong | Err

  /** None is a NULL pointer: a key without a value. */
  datatype Response = Response(status: Reply, argv: seq<Option<seq<Byte>>>)

  const OK_LINE: seq<Byte> := [43, 79, 75, 13, 10]
  const NIL_LINE: seq<Byte> := [36, 45, 49, 13, 10]
  const PONG_LINE: seq<Byte> := [43, 80, 79, 78, 71, 13, 10]
  const ERROR_LINE: seq<Byte> := [45, 69, 82, 82, 79, 82, 13, 10]

  /** The C string that is printed for a string: strlen and strcat stop at a NUL. */
  function PrintArg(v: Option<seq<Byte>>): seq<Byte> {
    match v
    case None => NIL_LINE
    case Some(b) => HeaderBytes(DOLLAR, |CutAtNul(b)|) + CutAtNul(b) + CRLF
  }

  function PrintArgs(argv: seq<Option<seq<Byte>>>): seq<Byte> {
    if argv == [] then [] else PrintArgs(argv[..|argv| - 1]) + PrintArg(argv[|argv| - 1])
  }

  function Print(r: Response): seq<Byte> {
    match r.status
    case Ok404 => NIL_LINE
    case OkPong => PONG_LINE
    case Err => ERROR_LINE
    case _ =>
      (if r.status == Ok then OK_LINE else [])
      + (if |r.argv| > 1 then HeaderBytes(STAR, |r.argv|) else [])
      + PrintArgs(r.argv)
  }

  /** Append the printed response to what is in the buffer already. */
  method Detach(r: Response, before: seq<Byte>) returns (ack: seq<Byte>)
    ensures ack == before + Print(r)
  {
    hide HeaderBytes;
    hide PrintArgs;
    ack := before;
    match r.status {
      case Ok => ack := ack + OK_LINE;
      case Ok200 =>
      case Ok404 => return ack + NIL_LINE;
      case OkPong => return ack + PONG_LINE;
      case Err => return ack + ERROR_LINE;
    }
    if |r.argv| > 1 {
      ack := ack + HeaderBytes(STAR, |r.argv|);
    }
    ack := DetachArgs(r.argv, ack);
  }

  lemma {:induction false} PrintArgsOfNext(argv: seq<Option<seq<Byte>>>, i: nat)
    requires i < |argv|
    ensures PrintArgs(argv[..i + 1]) == PrintArgs(argv[..i]) + PrintArg(argv[i])
  {
    hide PrintArg;
    assert argv[..i + 1][..i] == argv[..i];
  }

  /** The loop over the strings. */
  method DetachArgs(argv: seq<Option<seq<Byte>>>, before: seq<Byte>) returns (ack: seq<Byte>)
    ensures ack == before + PrintArgs(argv)
  {
    hide HeaderBytes;
    hide CutAtNul;
    hide PrintArgs;
    ack := before;
    assert argv[..0] == [] && PrintArgs([]) == [] by { NoArgs(); }
    for i := 0 to |argv|
      invariant ack == before + PrintArgs(argv[..i])
    {
      var line := NIL_LINE;
      if argv[i].Some? {
        var s := CutAtNul(argv[i].value);
        line := HeaderBytes(DOLLAR, |s|) + s + CRLF;
      }
      PrintArgsOfNext(argv, i);
      assert line == PrintArg(argv[i]);
      ack := ack + line;
    }
    assert argv[..|argv|] == argv;
  }

  lemma {:induction false} NoArgs()
    ensures PrintArgs([]) == []
  {
  }

  // ---- what the printer prints, the parser reads -------------------------------------------

  ghost predicate CStrings(strs: seq<seq<Byte>>) {
    forall i :: 0 <= i < |strs| ==> CutAtNul(strs[i]) == strs[i]
  }

  function NonNull(strs: seq<seq<Byte>>): (argv: seq<Option<seq<Byte>>>)
    ensures |argv| == |strs|
  {
    seq(|strs|, i requires 0 <= i < |strs| => Some(strs[i]))
  }

  lemma {:induction false} BulkSnoc(args: seq<seq<Byte>>, v: seq<Byte>)
    ensures Bulk(args + [v]) == Bulk(args) + ArgBytes(v)
  {
    hide HeaderBytes;
    if args == [] {
      assert args + [v] == [v] && [v][1..] == [];
      assert Bulk([]) == [];
    } else {
      assert (args + [v])[1..] == args[1..] + [v];
      BulkSnoc(args[1..], v);
      BulkStarts(args);
      BulkStarts(args + [v]);
    }
  }

  lemma {:induction false} PrintsBulk(strs: seq<seq<Byte>>)
    requires CStrings(strs)
    ensures PrintArgs(NonNull(strs)) == Bulk(strs)
  {
    hide HeaderBytes;
    hide CutAtNul;
    if strs != [] {
      var init := strs[..|strs| - 1];
      PrintsBulk(init);
      assert NonNull(strs)[..|strs| - 1] == NonNull(init);
      BulkSnoc(init, strs[|strs| - 1]);
      assert init + [strs[|strs| - 1]] == strs;
    }
  }

  /** A list of strings comes back from the parser exactly if there are at least two: a single one
      is printed without its count. */
  lemma {:induction false} ParseUndoesPrintIff(strs: seq<seq<Byte>>)
    requires CStrings(strs)
    ensures var o := Parse(Fresh(Print(Response(Ok200, NonNull(strs)))));
            (o.0 == Complete && Parsed(o.1, strs)) <==> |strs| >= 2
  {
    hide Parse;
    hide Parsed;
    hide HeaderBytes;
    hide CutAtNul;
    hide Print;
    PrintIs(strs);
    if |strs| >= 2 {
      ParseUndoesEncode(strs);
    } else if |strs| == 1 {
      SingleIsNotParsed(strs[0]);
      assert strs == [strs[0]];
    } else {
      NothingParsed();
    }
  }

  lemma {:induction false} PrintIs(strs: seq<seq<Byte>>)
    requires CStrings(strs)
    ensures Print(Response(Ok200, NonNull(strs))) ==
            if |strs| >= 2 then Encode(strs)
            else if |strs| == 1 then HeaderBytes(DOLLAR, |strs[0]|) + (strs[0] + CRLF)
            else []
  {
    hide HeaderBytes;
    hide PrintArgs;
    hide CutAtNul;
    PrintsBulk(strs);
    if |strs| == 1 {
      BulkStarts(strs);
      assert strs[1..] == [] && Bulk([]) == [];
      assert CRLF + [] == CRLF;
      Associates(HeaderBytes(DOLLAR, |strs[0]|), strs[0], CRLF);
    }
  }

  lemma {:induction false} NothingParsed()
    ensures Parse(Fresh([])).0 == Failed
  {
  }

  lemma {:induction false} LoopKeepsCount(r: Request)
    requires r.idx + r.multilen <= |r.argv|
    ensures |Loop(r).1.argv| == |r.argv|
    decreases r.multilen
  {
    hide NextLen;
    if r.multilen > 0 && NextLen(r).Some? {
      var (n, pos) := NextLen(r).value;
      if pos + n < |r.data| {
        LoopKeepsCount(Took(r.(pos := pos), n));
      }
    }
  }

  /** The length of a single string is read as a count. */
  lemma {:induction false} SingleIsNotParsed(v: seq<Byte>)
    ensures var o := Parse(Fresh(HeaderBytes(DOLLAR, |v|) + (v + CRLF)));
            !(o.0 == Complete && Parsed(o.1, [v]))
  {
    hide HeaderBytes;
    hide Header;
    hide Loop;
    hide LookupFrom;
    var head := HeaderBytes(DOLLAR, |v|);
    var data := head + (v + CRLF);
    HeaderReads([], DOLLAR, |v|, v + CRLF);
    assert [] + data == data;
    var r := Request(data, seq(|v|, _ => None), |head|, |v|, 0, 0, Ping);
    assert Parse(Fresh(data)) == Loop(r);
    LoopKeepsCount(r);
    if |v| == 1 {
      LastLineWaits(r, head, v[0]);
    }
  }

  lemma {:induction false} LastLineWaits(r: Request, head: seq<Byte>, c: Byte)
    requires r.data == head + [c, CR, LF] && r.pos == |head| && r.lastlen == 0 && r.multilen == 1
             && r.idx + 1 == |r.argv|
    ensures Loop(r).0 != Complete
  {
    hide Took;
    hide Finished;
    var d, p := r.data, |head|;
    assert d[p] == c && d[p + 1] == CR && d[p + 2] == LF;
    ScanTail(d, p + 1, true);
    ScanTail(d, p + 1, false);
    assert Header(d, p).Some? ==> Header(d, p).value.1 == p + 3;
  }

  lemma {:induction false} ScanTail(d: seq<Byte>, p: nat, term: bool)
    requires |d| == p + 2 && d[p] == CR && d[p + 1] == LF
    ensures Scan(d, p, term, false, []) == Some(([], p + 2))
  {
    assert Scan(d, p + 1, true, false, []) == Some(([], p + 2));
  }
}
