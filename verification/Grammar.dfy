// What the request parser takes for a header, and what it never looks at.
module Grammars {
  import opened Keys
  import opened Records
  import opened Decimal
  import opened Requests
  import opened RequestLaws

  predicate DigitOrCr(c: Byte) {
    c == '\r' as int || '0' as int <= c <= '9' as int
  }

  /** From position i to the LF at j there are only digits and CRs; one CR at least, unless one came before. */
  ghost predicate RestAt(data: seq<Byte>, i: nat, j: nat, term: bool) {
    && i <= j < |data| && data[j] == '\n' as int
    && (forall k :: i <= k < j ==> DigitOrCr(data[k]))
    && (term || exists k :: i <= k < j && data[k] == '\r' as int)
  }

  /** A header from i to the LF at j: a sign or a CR, then digits and CRs, with a CR somewhere. */
  ghost predicate HeaderAt(data: seq<Byte>, i: nat, j: nat) {
    && i < j < |data|
    && ((Sign(data[i]) && RestAt(data, i + 1, j, false)) || (data[i] == '\r' as int && RestAt(data, i + 1, j, true)))
  }

  /** The digits among the bytes. */
  function DigitsAmong(b: seq<Byte>): (d: seq<Byte>)
    ensures AllDigits(d)
  {
    if b == [] then [] else (if '0' as int <= b[0] <= '9' as int then [b[0]] else []) + DigitsAmong(b[1..])
  }

  lemma {:induction false} DigitsFirst(data: seq<Byte>, i: nat, j: nat)
    requires i < j <= |data|
    ensures DigitsAmong(data[i..j]) ==
            if '0' as int <= data[i] <= '9' as int then [data[i]] + DigitsAmong(data[i + 1..j])
            else DigitsAmong(data[i + 1..j])
  {
    assert data[i..j][1..] == data[i + 1..j];
  }

  lemma {:induction false} RestReads(data: seq<Byte>, i: nat, j: nat, term: bool, got: seq<Byte>)
    requires AllDigits(got) && RestAt(data, i, j, term)
    ensures Scan(data, i, term, false, got) == Some((got + DigitsAmong(data[i..j]), j + 1))
    decreases j - i
  {
    hide DigitsAmong;
    if i == j {
      NoDigits();
      assert data[i..j] == [] && got + [] == got;
    } else {
      DigitsFirst(data, i, j);
      assert DigitOrCr(data[i]);
      if data[i] == CR {
        RestReads(data, i + 1, j, true, got);
      } else {
        RestReads(data, i + 1, j, term, got + [data[i]]);
        Associates(got, [data[i]], DigitsAmong(data[i + 1..j]));
      }
    }
  }

  lemma {:induction false} NoDigits()
    ensures DigitsAmong([]) == []
  {
  }

  lemma {:induction false} ReadIsRest(data: seq<Byte>, i: nat, term: bool, got: seq<Byte>)
    requires AllDigits(got) && Scan(data, i, term, false, got).Some?
    ensures RestAt(data, i, Scan(data, i, term, false, got).value.1 - 1, term)
    decreases |data| - i
  {
    if data[i] == CR {
      ReadIsRest(data, i + 1, true, got);
    } else if data[i] != LF {
      ReadIsRest(data, i + 1, term, got + [data[i]]);
    }
  }

  /** A header is read exactly where one stands: its number is that of its digits, wherever CRs stand
      between them, and the position behind it is the one behind its LF. */
  lemma {:induction false} HeaderReadsIff(data: seq<Byte>, i: nat)
    ensures Header(data, i).Some? <==> exists j: nat :: HeaderAt(data, i, j)
    ensures forall j: nat :: HeaderAt(data, i, j) ==> Header(data, i) == Some((Atoi(DigitsAmong(data[i..j])), j + 1))
  {
    hide Atoi;
    hide DigitsAmong;
    forall j: nat | HeaderAt(data, i, j)
      ensures Header(data, i) == Some((Atoi(DigitsAmong(data[i..j])), j + 1))
    {
      DigitsFirst(data, i, j);
      RestReads(data, i + 1, j, data[i] == CR, []);
      assert [] + DigitsAmong(data[i + 1..j]) == DigitsAmong(data[i..j]);
    }
    if Header(data, i).Some? {
      ReadIsRest(data, i + 1, data[i] == CR, []);
      assert HeaderAt(data, i, Header(data, i).value.1 - 1);
    }
  }

  // ---- the two bytes behind an argument ---------------------------------------------------------------

  /** The arguments as a client would send them, but with any two bytes behind each. */
  function Loose(args: seq<seq<Byte>>, ends: seq<seq<Byte>>): seq<Byte>
    requires |args| == |ends|
  {
    if args == [] then [] else
      HeaderBytes(DOLLAR, |args[0]|) + args[0] + (ends[0] + Loose(args[1..], ends[1..]))
  }

  predicate TwoEach(ends: seq<seq<Byte>>) {
    forall i :: 0 <= i < |ends| ==> |ends[i]| == 2
  }

  /** In the loose request, r is where q is in the strict one. */
  ghost predicate Alongside(r: Request, q: Request, pre: seq<Byte>, strict: seq<Byte>, args: seq<seq<Byte>>,
                            ends: seq<seq<Byte>>)
    requires |args| == |ends|
  {
    && |pre| == |strict| && Before(q, strict, args, Bulk(args))
    && r == q.(data := pre + Loose(args, ends))
  }

  lemma {:induction false} StepAlongside(r: Request, q: Request, pre: seq<Byte>, strict: seq<Byte>,
                                         args: seq<seq<Byte>>, ends: seq<seq<Byte>>)
    requires |args| == |ends| && TwoEach(ends) && args != [] && Alongside(r, q, pre, strict, args, ends)
    ensures var head := HeaderBytes(DOLLAR, |args[0]|) + args[0];
            && Loop(r) == Loop(Next(r, args[0])) && Loop(q) == Loop(Next(q, args[0]))
            && Alongside(Next(r, args[0]), Next(q, args[0]), pre + (head + ends[0]), strict + ArgBytes(args[0]),
                         args[1..], ends[1..])
  {
    hide HeaderBytes;
    hide Loop;
    hide LookupFrom;
    var head, rest := HeaderBytes(DOLLAR, |args[0]|) + args[0], Loose(args[1..], ends[1..]);
    BulkStarts(args);
    TakesArg(q, strict, args, CRLF + Bulk(args[1..]));
    NextIsBefore(q, strict, args, Bulk(args[1..]));
    TakesArg(r, pre, args, ends[0] + rest);
    assert pre + (head + (ends[0] + rest)) == pre + (head + ends[0]) + rest;
  }

  lemma {:induction false} LooseLikeStrict(r: Request, q: Request, pre: seq<Byte>, strict: seq<Byte>,
                                           args: seq<seq<Byte>>, ends: seq<seq<Byte>>)
    requires |args| == |ends| && TwoEach(ends) && Alongside(r, q, pre, strict, args, ends)
    ensures Loop(r) == Loop(q)
    decreases |args|
  {
    hide HeaderBytes;
    hide Loop;
    hide Next;
    if args == [] {
      LoopEnds(r);
      LoopEnds(q);
    } else {
      StepAlongside(r, q, pre, strict, args, ends);
      LooseLikeStrict(Next(r, args[0]), Next(q, args[0]), pre + (HeaderBytes(DOLLAR, |args[0]|) + args[0] + ends[0]),
                      strict + ArgBytes(args[0]), args[1..], ends[1..]);
    }
  }

  /** Whatever two bytes stand behind the arguments, the request parses like the one a client sends. */
  lemma {:induction false} EndsAreNotLookedAt(args: seq<seq<Byte>>, ends: seq<seq<Byte>>)
    requires |args| == |ends| && TwoEach(ends)
    ensures Parse(Fresh(HeaderBytes(STAR, |args|) + Loose(args, ends))) == Parse(Fresh(Encode(args)))
  {
    hide HeaderBytes;
    hide Loop;
    hide Parse;
    hide Loose;
    hide Bulk;
    var head := HeaderBytes(STAR, |args|);
    ParseStarts(args, Loose(args, ends));
    ParseStarts(args, Bulk(args));
    LooseLikeStrict(Started(head + Loose(args, ends), args), Started(Encode(args), args), head, head, args, ends);
  }

  // ---- what a status says of the state --------------------------------------------------------------

  /** Where the loop stands when it does not complete: at no header, in front of an argument that has not arrived,
      or at one without a slot. The bytes are all still there. */
  ghost predicate StandsAt(status: Status, data: seq<Byte>, t: Request) {
    && t.data == data && t.multilen > 0
    && match status
       case Failed => t.lastlen == 0 && Header(t.data, t.pos) == None
       case Waiting => t.pos + t.lastlen >= |t.data|
       case Overrun => t.idx >= |t.argv|
       case Complete => false
  }

  lemma {:induction false} LoopStatus(r: Request)
    ensures Loop(r).0 != Complete ==> StandsAt(Loop(r).0, r.data, Loop(r).1)
    decreases r.multilen
  {
    hide Header;
    hide LookupFrom;
    hide LowerCase;
    if r.multilen > 0 && NextLen(r).Some? {
      var (n, pos) := NextLen(r).value;
      var r' := r.(pos := pos);
      if pos + n < |r.data| && r.idx < |r.argv| {
        LoopStatus(Took(r', n));
      }
    }
  }

  /** A parse that fails stands where no header is, with all bytes in place: at the start of a request with
      nothing changed at all, or in front of an argument. One that waits or overruns stands in front of that
      argument. */
  lemma {:induction false} StatusTells(r: Request)
    ensures var (status, t) := Parse(r);
            status != Complete ==>
              || StandsAt(status, r.data, t)
              || (status == Failed && t == r && r.multilen == 0 && Header(r.data, r.pos) == None)
  {
    hide Header;
    hide Loop;
    if r.multilen > 0 {
      LoopStatus(r);
    } else if Header(r.data, r.pos).Some? {
      var (n, pos) := Header(r.data, r.pos).value;
      LoopStatus(r.(pos := pos, multilen := n, argv := seq(n, _ => None)));
    }
  }
}
