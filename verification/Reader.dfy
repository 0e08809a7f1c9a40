// A client's reader of replies, and what it makes of everything the server prints.
module ReplyReaders {
  import opened Keys
  import opened Records
  import opened Decimal
  import opened Texts
  import opened Requests
  import opened RequestLaws
  import opened Responses

  /** A reply: a line, an error, nothing, a string, or a list of replies. */
  datatype Answer = Line(text: seq<Byte>) | Failure(text: seq<Byte>) | Nil | Bytes(bytes: seq<Byte>)
                  | List(answers: seq<Answer>)

  // ---- the reader ------------------------------------------------------------------------------------------

  /** The first carriage return from i on that a line feed follows. */
  function LineEnd(b: seq<Byte>, i: nat): (e: Option<nat>)
    ensures e.Some? ==> i <= e.value && e.value + 2 <= |b|
    decreases |b| - i
  {
    if i + 2 > |b| then None
    else if b[i..i + 2] == Ascii("\r\n") then Some(i)
    else LineEnd(b, i + 1)
  }

  function Numeral(s: seq<Byte>): Option<nat> {
    if s != [] && AllDigits(s) then Some(Atoi(s)) else None
  }

  /** The n bytes from i on, if a line break follows them. */
  function Block(b: seq<Byte>, i: nat, n: nat): (r: Option<(Answer, nat)>)
    ensures r.Some? ==> i < r.value.1 <= |b|
  {
    if i + n + 2 <= |b| && b[i + n..i + n + 2] == Ascii("\r\n") then Some((Bytes(b[i..i + n]), i + n + 2)) else None
  }

  /** The reply at the front, and where it ends. */
  function ReadOne(b: seq<Byte>): (r: Option<(Answer, nat)>)
    ensures r.Some? ==> 0 < r.value.1 <= |b|
    decreases |b|, 0, 0
  {
    if b == [] then None else
      match LineEnd(b, 1)
      case None => None
      case Some(e) =>
        var text := b[1..e];
        if b[0] == '+' as int then Some((Line(text), e + 2))
        else if b[0] == '-' as int then Some((Failure(text), e + 2))
        else if b[0] == '$' as int then
          if text == Ascii("-1") then Some((Nil, e + 2)) else
            match Numeral(text)
            case None => None
            case Some(n) => Block(b, e + 2, n)
        else if b[0] == '*' as int then
          match Numeral(text)
          case None => None
          case Some(n) =>
            match ReadMany(b[e + 2..], n)
            case None => None
            case Some((answers, k)) => Some((List(answers), e + 2 + k))
        else None
  }

  /** That many replies, one behind the other. */
  function ReadMany(b: seq<Byte>, n: nat): (r: Option<(seq<Answer>, nat)>)
    ensures r.Some? ==> r.value.1 <= |b|
    decreases |b|, 1, n
  {
    if n == 0 then Some(([], 0)) else
      match ReadOne(b)
      case None => None
      case Some((a, k)) =>
        match ReadMany(b[k..], n - 1)
        case None => None
        case Some((answers, m)) => Some(([a] + answers, k + m))
  }

  /** All replies up to the end. */
  function ReadAnswers(b: seq<Byte>): Option<seq<Answer>>
    decreases |b|
  {
    if b == [] then Some([]) else
      match ReadOne(b)
      case None => None
      case Some((a, k)) =>
        match ReadAnswers(b[k..])
        case None => None
        case Some(answers) => Some([a] + answers)
  }

  // ---- what a response means ----------------------------------------------------------------------------

  /** A string is sent up to its NUL; a missing one is nothing. */
  function MeaningOf(v: Option<seq<Byte>>): Answer {
    match v
    case None => Nil
    case Some(b) => Bytes(CutAtNul(b))
  }

  function Meanings(argv: seq<Option<seq<Byte>>>): (a: seq<Answer>)
    ensures |a| == |argv|
  {
    seq(|argv|, i requires 0 <= i < |argv| => MeaningOf(argv[i]))
  }

  /** A list if there are several strings, the string itself if there is one. */
  function Listed(argv: seq<Option<seq<Byte>>>): seq<Answer> {
    if |argv| > 1 then [List(Meanings(argv))] else Meanings(argv)
  }

  function Meaning(r: Response): seq<Answer> {
    match r.status
    case Ok => [Line(Ascii("OK"))] + Listed(r.argv)
    case Ok200 => Listed(r.argv)
    case Ok404 => [Nil]
    case OkPong => [Line(Ascii("PONG"))]
    case Err => [Failure(Ascii("ERROR"))]
  }

  // ---- reading what was printed ---------------------------------------------------------------------------

  /** Bytes without a carriage return. */
  ghost predicate OneLine(s: seq<Byte>) {
    forall i :: 0 <= i < |s| ==> s[i] != 13
  }

  lemma {:induction false} CrLfIs()
    ensures Ascii("\r\n") == [13, 10] == CRLF
  {
    assert Ascii("\r\n")[0] == 13 && Ascii("\r\n")[1] == 10;
  }

  lemma {:induction false} LineEndFrom(b: seq<Byte>, i: nat, text: seq<Byte>)
    requires OneLine(text) && i + |text| + 2 <= |b| && b[i..i + |text| + 2] == text + CRLF
    ensures LineEnd(b, i) == Some(i + |text|)
    decreases |text|
  {
    CrLfIs();
    var w := b[i..i + |text| + 2];
    assert forall j :: 0 <= j < |w| ==> b[i + j] == w[j];
    if text == [] {
      assert b[i..i + 2] == CRLF;
    } else {
      assert b[i] == text[0];
      assert b[i..i + 2][0] == b[i];
      assert b[i + 1..i + 1 + |text[1..]| + 2] == text[1..] + CRLF by {
        assert (text + CRLF)[1..] == text[1..] + CRLF;
        assert b[i + 1..i + |text| + 2] == w[1..];
      }
      LineEndFrom(b, i + 1, text[1..]);
    }
  }

  /** A line: its sign, its text, and where it ends. */
  lemma {:induction false} LineReads(sign: Byte, text: seq<Byte>, rest: seq<Byte>)
    requires OneLine(text)
    ensures var b := [sign] + text + CRLF + rest;
            LineEnd(b, 1) == Some(1 + |text|) && b[1..1 + |text|] == text && b[0] == sign
            && b[3 + |text|..] == rest && b != []
  {
    var b := [sign] + text + CRLF + rest;
    assert b[1..1 + |text| + 2] == text + CRLF;
    LineEndFrom(b, 1, text);
  }

  lemma {:induction false} DigitsAreOneLine(n: nat)
    ensures OneLine(Digits(n)) && Numeral(Digits(n)) == Some(n) && Digits(n) != Ascii("-1")
  {
    hide Digits;
    AtoiUndoesDigits(n);
    assert Ascii("-1")[0] == 45;
    assert Digits(n)[0] >= 48;
  }

  /** What one printed line reads as. */
  lemma {:induction false} PlainLine(text: seq<Byte>, rest: seq<Byte>)
    requires OneLine(text)
    ensures ReadOne([43] + text + CRLF + rest) == Some((Line(text), |text| + 3))
    ensures ReadOne([45] + text + CRLF + rest) == Some((Failure(text), |text| + 3))
    ensures text == Ascii("-1") ==> ReadOne([36] + text + CRLF + rest) == Some((Nil, |text| + 3))
  {
    LineReads(43, text, rest);
    LineReads(45, text, rest);
    LineReads(36, text, rest);
    hide LineEnd;
  }

  lemma {:induction false} TextsAre()
    ensures OK_LINE == [43] + Ascii("OK") + CRLF && PONG_LINE == [43] + Ascii("PONG") + CRLF
    ensures ERROR_LINE == [45] + Ascii("ERROR") + CRLF && NIL_LINE == [36] + Ascii("-1") + CRLF
    ensures OneLine(Ascii("OK")) && OneLine(Ascii("PONG")) && OneLine(Ascii("ERROR")) && OneLine(Ascii("-1"))
  {
    assert Ascii("OK") == [79, 75];
    assert Ascii("PONG") == [80, 79, 78, 71];
    assert Ascii("ERROR") == [69, 82, 82, 79, 82];
    assert Ascii("-1") == [45, 49];
  }

  lemma {:induction false} BytesRead(v: seq<Byte>, rest: seq<Byte>)
    ensures var b := HeaderBytes(DOLLAR, |v|) + v + CRLF;
            b != [] && ReadOne(b + rest) == Some((Bytes(v), |b|))
  {
    hide Digits;
    hide LineEnd;
    hide Atoi;
    var ds, tail := Digits(|v|), v + CRLF + rest;
    DigitsAreOneLine(|v|);
    LineReads(36, ds, tail);
    CrLfIs();
    var b := HeaderBytes(DOLLAR, |v|) + v + CRLF + rest;
    assert b == [36] + ds + CRLF + tail;
    var i := |ds| + 3;
    assert b[i..] == tail;
    assert b[i..i + |v|] == v && b[i + |v|..i + |v| + 2] == CRLF;
  }

  /** One string of a response. */
  lemma {:induction false} ArgReads(v: Option<seq<Byte>>, rest: seq<Byte>)
    ensures PrintArg(v) != [] && ReadOne(PrintArg(v) + rest) == Some((MeaningOf(v), |PrintArg(v)|))
  {
    hide HeaderBytes;
    hide ReadOne;
    hide CutAtNul;
    if v == None {
      TextsAre();
      PlainLine(Ascii("-1"), rest);
    } else {
      BytesRead(CutAtNul(v.value), rest);
    }
  }

  lemma {:induction false} PrintArgsFront(argv: seq<Option<seq<Byte>>>)
    requires argv != []
    ensures PrintArgs(argv) == PrintArg(argv[0]) + PrintArgs(argv[1..])
  {
    hide PrintArg;
    var n := |argv| - 1;
    if n == 0 {
      assert argv[..0] == [] && argv[1..] == [] && PrintArgs([]) == [];
    } else {
      PrintArgsFront(argv[..n]);
      assert argv[..n][1..] == argv[1..][..n - 1];
      PrintArgsOfNext(argv[1..], n - 1);
      assert argv[1..][..n] == argv[1..];
      hide PrintArgs;
      Associates(PrintArg(argv[0]), PrintArgs(argv[1..][..n - 1]), PrintArg(argv[n]));
      PrintArgsOfNext(argv, n);
      assert argv[..n + 1] == argv;
    }
  }

  lemma {:induction false} ArgsRead(argv: seq<Option<seq<Byte>>>, rest: seq<Byte>)
    ensures ReadMany(PrintArgs(argv) + rest, |argv|) == Some((Meanings(argv), |PrintArgs(argv)|))
    decreases |argv|
  {
    hide PrintArg;
    hide ReadOne;
    hide MeaningOf;
    if argv == [] {
      assert PrintArgs([]) == [];
    } else {
      PrintArgsFront(argv);
      hide PrintArgs;
      var first, tail := PrintArg(argv[0]), PrintArgs(argv[1..]);
      var b := PrintArgs(argv) + rest;
      Associates(first, tail, rest);
      ArgReads(argv[0], tail + rest);
      assert b[|first|..] == tail + rest;
      ArgsRead(argv[1..], rest);
      assert Meanings(argv) == [MeaningOf(argv[0])] + Meanings(argv[1..]);
    }
  }

  lemma {:induction false} ListReads(argv: seq<Option<seq<Byte>>>)
    ensures var b := HeaderBytes(STAR, |argv|) + PrintArgs(argv);
            b != [] && ReadOne(b) == Some((List(Meanings(argv)), |b|))
  {
    hide Digits;
    hide LineEnd;
    hide PrintArgs;
    hide ReadMany;
    hide Atoi;
    var ds := Digits(|argv|);
    DigitsAreOneLine(|argv|);
    LineReads(42, ds, PrintArgs(argv));
    var b := HeaderBytes(STAR, |argv|) + PrintArgs(argv);
    assert b == [42] + ds + CRLF + PrintArgs(argv);
    ArgsRead(argv, []);
    assert PrintArgs(argv) + [] == PrintArgs(argv);
  }

  /** One reply, and nothing behind it. */
  lemma {:induction false} LastRead(b: seq<Byte>, a: Answer)
    requires b != [] && ReadOne(b) == Some((a, |b|))
    ensures ReadAnswers(b) == Some([a])
  {
    hide ReadOne;
    assert b[|b|..] == [];
    assert ReadAnswers(b[|b|..]) == Some([]);
    assert [a] + [] == [a];
  }

  /** The strings of a response read as what they mean. */
  lemma {:induction false} ListedReads(argv: seq<Option<seq<Byte>>>)
    ensures var b := (if |argv| > 1 then HeaderBytes(STAR, |argv|) else []) + PrintArgs(argv);
            ReadAnswers(b) == Some(Listed(argv))
  {
    hide HeaderBytes;
    hide ReadOne;
    hide ReadMany;
    hide PrintArg;
    hide ReadAnswers;
    hide MeaningOf;
    if |argv| > 1 {
      ListReads(argv);
      LastRead(HeaderBytes(STAR, |argv|) + PrintArgs(argv), List(Meanings(argv)));
    } else if |argv| == 1 {
      PrintArgsFront(argv);
      assert argv[1..] == [] && PrintArgs([]) == [];
      assert PrintArg(argv[0]) + [] == PrintArg(argv[0]);
      ArgReads(argv[0], []);
      LastRead(PrintArg(argv[0]), MeaningOf(argv[0]));
      assert Meanings(argv) == [MeaningOf(argv[0])];
      assert [] + PrintArgs(argv) == PrintArgs(argv);
    } else {
      NothingRead();
      assert argv == [] && PrintArgs([]) == [];
      assert [] + PrintArgs(argv) == [];
    }
  }

  lemma {:induction false} NothingRead()
    ensures ReadAnswers([]) == Some([])
  {
  }

  lemma {:induction false} FirstRead(b: seq<Byte>, k: nat, a: Answer)
    requires ReadOne(b) == Some((a, k)) && ReadAnswers(b[k..]).Some?
    ensures ReadAnswers(b) == Some([a] + ReadAnswers(b[k..]).value)
  {
    hide ReadOne;
  }

  /** A client reads back what every response means, whatever its status and its strings. */
  lemma {:induction false} ClientReadsPrint(r: Response)
    ensures ReadAnswers(Print(r)) == Some(Meaning(r))
  {
    hide HeaderBytes;
    hide ReadOne;
    hide PrintArgs;
    hide ReadAnswers;
    hide Listed;
    hide Ascii;
    TextsAre();
    assert forall b: seq<Byte> :: b + [] == b;
    var strings := (if |r.argv| > 1 then HeaderBytes(STAR, |r.argv|) else []) + PrintArgs(r.argv);
    match r.status {
      case Ok404 =>
        PlainLine(Ascii("-1"), []);
        LastRead(NIL_LINE, Nil);
      case OkPong =>
        PlainLine(Ascii("PONG"), []);
        LastRead(PONG_LINE, Line(Ascii("PONG")));
      case Err =>
        PlainLine(Ascii("ERROR"), []);
        LastRead(ERROR_LINE, Failure(Ascii("ERROR")));
      case Ok200 =>
        ListedReads(r.argv);
        assert Print(r) == strings;
      case Ok =>
        ListedReads(r.argv);
        PlainLine(Ascii("OK"), strings);
        assert Print(r) == OK_LINE + strings;
        assert (OK_LINE + strings)[|OK_LINE|..] == strings;
        FirstRead(OK_LINE + strings, |OK_LINE|, Line(Ascii("OK")));
    }
  }
}
