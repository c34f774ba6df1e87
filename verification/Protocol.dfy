/** IO/reactor/protocol.hpp (text branches) and cal_IO of IO/reactor/test.cc: framing, codec and the drain loop. */
module Protocol {
  import opened Workers
  import opened Calculator
  import opened Decimal

  const END := "\r\n"

  // ---------------------------------------------------------------- frames in a byte stream

  predicate EndAt(s: string, i: int) {
    0 <= i && i + 2 <= |s| && s[i] == '\r' && s[i + 1] == '\n'
  }

  /** std::string::find(END): the first place where the terminator starts. */
  function FindEnd(s: string): (r: Option<nat>)
    ensures r.Some? ==> EndAt(s, r.value) && forall j :: 0 <= j < r.value ==> !EndAt(s, j)
    ensures r.None? ==> forall j :: !EndAt(s, j)
  {
    if |s| < 2 then None
    else if EndAt(s, 0) then Some(0)
    else
      assert forall j :: EndAt(s, j) ==> j > 0 && EndAt(s[1..], j - 1);
      assert forall j :: EndAt(s[1..], j) ==> EndAt(s, j + 1);
      match FindEnd(s[1..])
      case None => None
      case Some(i) => Some(i + 1)
  }

  lemma FindEndUnique(s: string, i: nat)
    requires EndAt(s, i) && forall j :: 0 <= j < i ==> !EndAt(s, j)
    ensures FindEnd(s) == Some(i)
  {
  }

  /** What a handler makes of one frame, terminator included; None where it throws or leaves defined behaviour. */
  type Handler = string -> Option<string>

  /** The bytes appended to the output, the bytes left in the input, and whether the loop came to its normal end. */
  datatype Drained = Drained(out: string, rest: string, ok: bool)

  /** What is drained before comes before what is drained later. */
  function After(first: string, later: Drained): Drained {
    later.(out := first + later.out)
  }

  /** The drain loop: hand over one complete frame after the other. */
  function Drain(h: Handler, s: string): Drained
    decreases |s|
  {
    match FindEnd(s)
    case None => Drained("", s, true)
    case Some(i) =>
      match h(s[..i + 2])
      case None => Drained("", s[i + 2..], false)
      case Some(reply) =>
        After(reply, Drain(h, s[i + 2..]))
  }

  /** One drain after each chunk, each on what the previous one left; a throw ends it. */
  function DrainChunks(h: Handler, left: string, chunks: seq<string>): Drained
    decreases |chunks|
  {
    if chunks == [] then Drained("", left, true)
    else
      var d := Drain(h, left + chunks[0]);
      if d.ok then After(d.out, DrainChunks(h, d.rest, chunks[1..])) else d
  }

  function Concat(chunks: seq<string>): string {
    if chunks == [] then "" else chunks[0] + Concat(chunks[1..])
  }

  /** After the loop's normal end no complete frame is left behind. */
  lemma {:induction false} ResidueHasNoFrame(h: Handler, s: string)
    requires Drain(h, s).ok
    ensures forall j :: !EndAt(Drain(h, s).rest, j)
    decreases |s|
  {
    if FindEnd(s).Some? {
      ResidueHasNoFrame(h, s[FindEnd(s).value + 2..]);
    }
  }

  lemma CutAppend(a: string, b: string, k: nat)
    requires k <= |a|
    ensures (a + b)[..k] == a[..k] && (a + b)[k..] == a[k..] + b
  {
  }

  lemma FirstFrameAppend(a: string, b: string)
    requires FindEnd(a).Some?
    ensures var i := FindEnd(a).value;
      FindEnd(a + b) == Some(i) && (a + b)[..i + 2] == a[..i + 2] && (a + b)[i + 2..] == a[i + 2..] + b
  {
    var i := FindEnd(a).value;
    assert forall j :: 0 <= j <= i ==> (EndAt(a + b, j) <==> EndAt(a, j));
    FindEndUnique(a + b, i);
    CutAppend(a, b, i + 2);
  }

  lemma DrainFirst(h: Handler, s: string, i: nat)
    requires FindEnd(s) == Some(i)
    ensures h(s[..i + 2]).None? ==> Drain(h, s) == Drained("", s[i + 2..], false)
    ensures h(s[..i + 2]).Some? ==> Drain(h, s) == After(h(s[..i + 2]).value, Drain(h, s[i + 2..]))
  {
    hide FindEnd;
  }

  lemma DrainNone(h: Handler, s: string)
    requires FindEnd(s).None?
    ensures Drain(h, s) == Drained("", s, true)
  {
    hide FindEnd;
  }

  lemma AfterAfter(a: string, b: string, d: Drained)
    ensures After(a, After(b, d)) == After(a + b, d)
  {
    Associate(a, b, d.out);
  }

  /** Bytes that arrive later do not change what is done with the frames already complete. */
  lemma {:induction false} DrainAppend(h: Handler, a: string, b: string)
    ensures var first := Drain(h, a);
      Drain(h, a + b) ==
      if first.ok then After(first.out, Drain(h, first.rest + b)) else first.(rest := first.rest + b)
    decreases |a|
  {
    hide FindEnd, Drain;
    match FindEnd(a)
    case None =>
      DrainNone(h, a);
      NothingDone(Drain(h, a + b));
    case Some(i) =>
      FirstFrameAppend(a, b);
      DrainFirst(h, a, i);
      DrainFirst(h, a + b, i);
      if h(a[..i + 2]).Some? {
        DrainAppend(h, a[i + 2..], b);
        var rest := Drain(h, a[i + 2..]);
        AfterAfter(h(a[..i + 2]).value, rest.out, Drain(h, rest.rest + b));
      }
  }

  /**
    Chunk independence: draining after every chunk gives the output, the status and (unless the handler threw)
    the leftover of one drain over the whole stream, wherever the chunks are cut.
  */
  lemma {:induction false} ChunkIndependence(h: Handler, left: string, chunks: seq<string>)
    requires FindEnd(left).None?
    ensures var parts, whole := DrainChunks(h, left, chunks), Drain(h, left + Concat(chunks));
      parts.out == whole.out && parts.ok == whole.ok && (parts.ok ==> parts.rest == whole.rest)
    decreases |chunks|
  {
    if chunks == [] {
      assert left + Concat(chunks) == left;
    } else {
      var stream := left + chunks[0];
      assert left + Concat(chunks) == stream + Concat(chunks[1..]);
      DrainAppend(h, stream, Concat(chunks[1..]));
      var d := Drain(h, stream);
      if d.ok {
        ResidueHasNoFrame(h, stream);
        ChunkIndependence(h, d.rest, chunks[1..]);
      }
    }
  }

  // ---------------------------------------------------------------- the text codec

  /** std::string::find(c): the first place where c occurs. */
  function FindChar(s: string, c: char): (r: Option<nat>)
    ensures r.Some? ==> r.value < |s| && s[r.value] == c && c !in s[..r.value]
    ensures r.None? ==> c !in s
  {
    if s == "" then None
    else if s[0] == c then Some(0)
    else
      match FindChar(s[1..], c)
      case None => None
      case Some(i) =>
        assert s[..i + 1] == [s[0]] + s[1..][..i];
        Some(i + 1)
  }

  lemma BeforeFirst(s: string, c: char, i: nat)
    requires i <= |s|
    ensures c !in s[..i] <==> forall j :: 0 <= j < i ==> s[j] != c
  {
    assert forall j :: 0 <= j < i ==> s[..i][j] == s[j];
  }

  /** What comes before the first '\r'. */
  function Decode(msg: string): (r: string)
    requires '\r' in msg
    ensures |r| < |msg| && msg[|r|] == '\r' && r == msg[..|r|] && '\r' !in r
  {
    msg[..FindChar(msg, '\r').value]
  }

  /** The scan of decode needs no bound: a frame cut out by recvmessage has a '\r' before its last character. */
  lemma DecodeStaysInFrame(s: string)
    requires FindEnd(s).Some?
    ensures var i := FindEnd(s).value; '\r' in s[..i + 2] && |Decode(s[..i + 2])| <= i
  {
    var i := FindEnd(s).value;
    assert s[..i + 2][i] == '\r';
  }

  /** "x y op" */
  function SerializeRequest(e: Equation): string {
    ToString(e.x) + " " + ToString(e.y) + " " + [e.op]
  }

  /** Reads "x y op"; without a blank, x and y are both the whole text; None where stoi throws. */
  function ParseRequest(req: string): Option<Equation> {
    var first := FindChar(req, ' ');
    var x := if first.Some? then req[..first.value] else req;
    var from := if first.Some? then first.value + 1 else 0;
    var second := FindChar(req[from..], ' ');
    var y := if second.Some? then req[from..][..second.value] else req[from..];
    if Stoi(x).None? || Stoi(y).None? then None
    else
      assert req != "" by { assert Stoi("").None?; }
      Some(Equation(Stoi(x).value, Stoi(y).value, req[|req| - 1]))
  }

  function CodeNumber(code: ExitCode): nat {
    match code
    case NORMOL => 0
    case DEVZERO => 1
    case MODZERO => 2
    case OPWRONG => 3
    case UNKNOWN => 4
  }

  /** "num code" */
  function SerializeResult(r: Result): string {
    ToString(r.num) + " " + ToString(CodeNumber(r.code))
  }

  /** Reads "num code": the number up to the first blank, the code from the last character. */
  function ParseResult(resp: string): Option<Result> {
    var blank := FindChar(resp, ' ');
    var num := if blank.Some? then resp[..blank.value] else resp;
    if Stoi(num).None? then None
    else
      assert resp != "" by { assert Stoi("").None?; }
      var last := resp[|resp| - 1];
      var code := match last
        case '0' => Some(NORMOL)
        case '1' => Some(DEVZERO)
        case '2' => Some(MODZERO)
        case '3' => Some(OPWRONG)
        case '4' => Some(UNKNOWN)
        case _ => None;
      if code.None? then None else Some(Result(Stoi(num).value, code.value))
  }

  lemma FindCharAt(s: string, c: char, i: nat)
    requires i < |s| && s[i] == c && c !in s[..i]
    ensures FindChar(s, c) == Some(i)
  {
    BeforeFirst(s, c, i);
    BeforeFirst(s, c, FindChar(s, c).value);
  }

  lemma FirstField(field: string, c: char, rest: string)
    requires c !in field
    ensures var text := field + [c] + rest;
      FindChar(text, c) == Some(|field|) && text[..|field|] == field && text[|field| + 1..] == rest
  {
    var text := field + [c] + rest;
    assert text[..|field|] == field;
    FindCharAt(text, c, |field|);
  }

  lemma NoBlankInNumber(n: int)
    ensures ' ' !in ToString(n) && '\r' !in ToString(n)
  {
    ToStringIsPlain(n);
  }

  /** The text up to the operator and the operator are read back, whatever the operator is. */
  lemma ParseRequestText(x: Int32, y: Int32, tail: string)
    ensures var text := ToString(x) + " " + ToString(y) + " " + tail;
      ParseRequest(text) == Some(Equation(x, y, text[|text| - 1]))
  {
    hide Stoi, ToString, FindChar;
    var sx, sy := ToString(x), ToString(y);
    NoBlankInNumber(x);
    NoBlankInNumber(y);
    StoiToString(x);
    StoiToString(y);
    FirstField(sy, ' ', tail);
    FirstField(sx, ' ', sy + " " + tail);
    assert sx + " " + (sy + " " + tail) == sx + " " + sy + " " + tail;
  }

  /** What stoi says of two fields, with the last character of the text for operator. */
  function FromFields(x: string, y: string, last: char): Option<Equation> {
    if Stoi(x).None? || Stoi(y).None? then None else Some(Equation(Stoi(x).value, Stoi(y).value, last))
  }

  /**
    deserialization of any text: x is read up to the first blank, y from there to the second blank or the end; a text
    without a blank is read twice.
  */
  lemma ParseFields(x: string, y: string, rest: string)
    requires ' ' !in x && ' ' !in y
    ensures var text := x + " " + y + " " + rest; ParseRequest(text) == FromFields(x, y, text[|text| - 1])
    ensures var text := x + " " + y; ParseRequest(text) == FromFields(x, y, text[|text| - 1])
    ensures ParseRequest(x) == if x == "" then None else FromFields(x, x, x[|x| - 1])
  {
    hide Stoi, FindChar;
    FirstField(y, ' ', rest);
    FirstField(x, ' ', y + " " + rest);
    assert x + " " + (y + " " + rest) == x + " " + y + " " + rest;
    FirstField(x, ' ', y);
    assert FindChar(x, ' ').None? && FindChar(y, ' ').None?;
    assert x[0..] == x;
    EmptyNumber();
  }

  lemma EmptyNumber()
    ensures Stoi("").None?
  {
  }

  /** The exit codes on the wire. */
  lemma CodeDigits(n: Int32)
    ensures SerializeResult(Result(n, NORMOL)) == ToString(n) + " 0"
    ensures SerializeResult(Result(n, DEVZERO)) == ToString(n) + " 1"
    ensures SerializeResult(Result(n, MODZERO)) == ToString(n) + " 2"
    ensures SerializeResult(Result(n, OPWRONG)) == ToString(n) + " 3"
    ensures SerializeResult(Result(n, UNKNOWN)) == ToString(n) + " 4"
  {
    forall code: ExitCode
      ensures SerializeResult(Result(n, code)) == ToString(n) + " " + [DigitChar(CodeNumber(code))]
    {
    }
    assert ToString(n) + " " + "0" == ToString(n) + " 0" && ToString(n) + " " + "1" == ToString(n) + " 1";
    assert ToString(n) + " " + "2" == ToString(n) + " 2" && ToString(n) + " " + "3" == ToString(n) + " 3";
    assert ToString(n) + " " + "4" == ToString(n) + " 4";
  }

  lemma ResultRoundTrip(r: Result)
    ensures ParseResult(SerializeResult(r)) == Some(r)
  {
    var num := ToString(r.num);
    var text := SerializeResult(r);
    ToStringIsPlain(r.num);
    StoiToString(r.num);
    assert text[..|num|] == num;
    FindCharAt(text, ' ', |num|);
    assert ToString(CodeNumber(r.code)) == [DigitChar(CodeNumber(r.code))];
    assert text[|text| - 1] == DigitChar(CodeNumber(r.code));
  }

  // ---------------------------------------------------------------- the calculator behind the codec

  function RequestFrame(e: Equation): string {
    SerializeRequest(e) + END
  }

  function ResultFrame(r: Result): string {
    SerializeResult(r) + END
  }

  /** What one turn of cal_IO's loop appends for a frame; None where it throws or the arithmetic overflows. */
  function CalReply(frame: string): Option<string> {
    if '\r' !in frame then None
    else
      match ParseRequest(Decode(frame))
      case None => None
      case Some(e) => if IsDefined(e) then Some(ResultFrame(Evaluate(e))) else None
  }

  lemma RequestText(e: Equation)
    ensures var body := SerializeRequest(e); '\r' !in body[..|body| - 1] && body[|body| - 1] == e.op
  {
    ToStringIsPlain(e.x);
    ToStringIsPlain(e.y);
  }

  /** The frame ends where it was ended, even if the operator is itself a '\r'. */
  lemma FrameEnds(body: string, tail: string)
    requires body != "" && '\r' !in body[..|body| - 1]
    ensures FindEnd(body + END + tail) == Some(|body|)
    ensures (body + END + tail)[..|body| + 2] == body + END
    ensures (body + END + tail)[|body| + 2..] == tail
  {
    var s := body + END + tail;
    forall j | 0 <= j < |body|
      ensures !EndAt(s, j)
    {
      if j < |body| - 1 {
        assert s[j] == body[..|body| - 1][j];
      } else {
        assert s[j + 1] == '\r';
      }
    }
    FindEndUnique(s, |body|);
  }

  /** Decoding and parsing gives the equation back exactly when its operator is not '\r'. */
  lemma RequestRoundTrip(e: Equation)
    ensures '\r' in RequestFrame(e)
    ensures ParseRequest(Decode(RequestFrame(e))) == Some(e) <==> e.op != '\r'
    ensures e.op == '\r' ==> ParseRequest(Decode(RequestFrame(e))) == Some(e.(op := ' '))
  {
    var frame, body := RequestFrame(e), SerializeRequest(e);
    assert frame[|body|] == '\r';
    RequestText(e);
    if e.op == '\r' {
      assert frame[..|body| - 1] == body[..|body| - 1];
      FindCharAt(frame, '\r', |body| - 1);
      assert Decode(frame) == ToString(e.x) + " " + ToString(e.y) + " " + "";
      ParseRequestText(e.x, e.y, "");
    } else {
      assert body == body[..|body| - 1] + [e.op];
      assert frame[..|body|] == body;
      FindCharAt(frame, '\r', |body|);
      ParseRequestText(e.x, e.y, [e.op]);
    }
  }

  lemma WrongOperator(e: Equation)
    requires e.op !in {'+', '-', '*', '/', '%'}
    ensures IsDefined(e) && Evaluate(e) == Result(0, OPWRONG)
  {
  }

  /** Every defined request is answered with its result: an operator lost on the way was wrong anyhow. */
  lemma ServeOne(e: Equation)
    requires IsDefined(e)
    ensures CalReply(RequestFrame(e)) == Some(ResultFrame(Evaluate(e)))
  {
    RequestRoundTrip(e);
    if e.op == '\r' {
      WrongOperator(e);
      WrongOperator(e.(op := ' '));
    }
  }

  function RequestStream(es: seq<Equation>): string {
    if es == [] then "" else RequestFrame(es[0]) + RequestStream(es[1..])
  }

  function ResultStream(rs: seq<Result>): string {
    if rs == [] then "" else ResultFrame(rs[0]) + ResultStream(rs[1..])
  }

  predicate AllDefined(es: seq<Equation>) {
    forall i :: 0 <= i < |es| ==> IsDefined(es[i])
  }

  function Answers(es: seq<Equation>): (rs: seq<Result>)
    requires AllDefined(es)
    ensures |rs| == |es| && forall i :: 0 <= i < |es| ==> rs[i] == Evaluate(es[i])
  {
    if es == [] then [] else [Evaluate(es[0])] + Answers(es[1..])
  }

  lemma {:induction false} ServeAll(es: seq<Equation>)
    requires AllDefined(es)
    ensures Drain(CalReply, RequestStream(es)) == Drained(ResultStream(Answers(es)), "", true)
  {
    hide CalReply;
    if es == [] {
      assert FindEnd("").None?;
    } else {
      RequestText(es[0]);
      FrameEnds(SerializeRequest(es[0]), RequestStream(es[1..]));
      ServeOne(es[0]);
      ServeAll(es[1..]);
      assert Answers(es)[1..] == Answers(es[1..]);
    }
  }

  /** The client's side: cut the stream into frames and read each result; None if bytes are left over or unreadable. */
  function ReadResults(s: string): Option<seq<Result>>
    decreases |s|
  {
    match FindEnd(s)
    case None => if s == "" then Some([]) else None
    case Some(i) =>
      DecodeStaysInFrame(s);
      var r := ParseResult(Decode(s[..i + 2]));
      var later := ReadResults(s[i + 2..]);
      if r.None? || later.None? then None else Some([r.value] + later.value)
  }

  lemma ResultIsPlain(r: Result)
    ensures SerializeResult(r) != "" && '\r' !in SerializeResult(r)
  {
    NoBlankInNumber(r.num);
    NoBlankInNumber(CodeNumber(r.code));
  }

  lemma ReadOne(r: Result, tail: string)
    ensures var frame := ResultFrame(r);
      && FindEnd(frame + tail) == Some(|frame| - 2)
      && (frame + tail)[..|frame|] == frame && (frame + tail)[|frame|..] == tail
      && '\r' in frame && ParseResult(Decode(frame)) == Some(r)
  {
    hide SerializeResult, ParseResult, FindEnd, FindChar;
    var body := SerializeResult(r);
    ResultIsPlain(r);
    FrameEnds(body, tail);
    assert (body + END)[..|body|] == body && (body + END)[|body|] == '\r';
    FindCharAt(body + END, '\r', |body|);
    ResultRoundTrip(r);
  }

  lemma ReadStep(frame: string, tail: string, r: Result, later: seq<Result>)
    requires FindEnd(frame + tail) == Some(|frame| - 2) && '\r' in frame
    requires (frame + tail)[..|frame|] == frame && (frame + tail)[|frame|..] == tail
    requires ParseResult(Decode(frame)) == Some(r) && ReadResults(tail) == Some(later)
    ensures ReadResults(frame + tail) == Some([r] + later)
  {
  }

  lemma {:induction false} ReadBack(rs: seq<Result>)
    ensures ReadResults(ResultStream(rs)) == Some(rs)
  {
    hide ResultFrame, ParseResult, Decode;
    if rs == [] {
      assert FindEnd("").None?;
    } else {
      ReadBack(rs[1..]);
      ReadOne(rs[0], ResultStream(rs[1..]));
      ReadStep(ResultFrame(rs[0]), ResultStream(rs[1..]), rs[0], rs[1..]);
      assert rs == [rs[0]] + rs[1..];
    }
  }

  /**
    End to end: serialize and frame any defined equations, cut the byte stream anywhere, call cal_IO after each
    piece: nothing is left over, nothing throws, and the client reads exactly the calculator's results in order.
  */
  lemma EndToEnd(es: seq<Equation>, chunks: seq<string>)
    requires AllDefined(es) && Concat(chunks) == RequestStream(es)
    ensures var d := DrainChunks(CalReply, "", chunks);
      d.ok && d.rest == "" && ReadResults(d.out) == Some(Answers(es))
  {
    assert "" + Concat(chunks) == Concat(chunks);
    ChunkIndependence(CalReply, "", chunks);
    ServeAll(es);
    ReadBack(Answers(es));
  }

  /** One exchange, byte for byte. */
  lemma OnTheWire()
    ensures RequestStream([Equation(1, -2, '+')]) == "1 -2 +\r\n"
    ensures Drain(CalReply, "1 -2 +\r\n") == Drained("-1 0\r\n", "", true)
  {
    hide CalReply, Drain, FindEnd;
    var e := Equation(1, -2, '+');
    assert ToString(1) == "1" && ToString(-2) == "-2" && ToString(-1) == "-1";
    assert RequestStream([e]) == RequestFrame(e) + "";
    ServeAll([e]);
    CodeDigits(-1);
    assert Answers([e]) == [Result(-1, NORMOL)];
    assert ResultStream([Result(-1, NORMOL)]) == ResultFrame(Result(-1, NORMOL)) + "";
  }

  // ---------------------------------------------------------------- the code on mutable strings

  /** A std::string passed by reference. */
  class Text {
    var s: string

    constructor (s: string)
      ensures this.s == s
    {
      this.s := s;
    }
  }

  /** The stream is a first complete frame followed by the rest. */
  predicate Split(stream: string, frame: string, rest: string) {
    stream == frame + rest && |frame| >= 2 && FindEnd(stream) == Some(|frame| - 2) && '\r' in frame
  }

  /** recvmessage: cut the first complete frame off `input`; `out` is the string its second argument points to. */
  method RecvMessage(input: Text) returns (found: bool, out: string)
    modifies input
    ensures found == FindEnd(old(input.s)).Some?
    ensures found ==> Split(old(input.s), out, input.s)
    ensures !found ==> input.s == old(input.s)
  {
    var end := FindEnd(input.s);
    if end.None? {
      return false, "";
    }
    out := input.s[..end.value + 2];
    input.s := input.s[end.value + 2..];
    DecodeStaysInFrame(old(input.s));
    return true, out;
  }

  /** decode: walk to the first '\r'; the caller guarantees that there is one. */
  method DecodeMessage(msg: string) returns (r: string)
    requires '\r' in msg
    ensures r == Decode(msg)
  {
    var it := 0;
    while msg[it] != '\r'
      invariant 0 <= it < |msg| && '\r' in msg[it..] && '\r' !in msg[..it]
      decreases |msg| - it
    {
      it := it + 1;
    }
    FindCharAt(msg, '\r', it);
    r := msg[..it];
  }

  method Encode(msg: Text)
    modifies msg
    ensures msg.s == old(msg.s) + END
  {
    msg.s := msg.s + END;
  }

  class Request {
    var e: Equation

    constructor ()
      ensures e == Equation(0, 0, '*')
    {
      e := Equation(0, 0, '*');
    }

    /** None when stoi throws: whatever is in `e` then is not used. */
    method Deserialization(req: string) returns (r: Option<Equation>)
      modifies this
      ensures r == ParseRequest(req) && (r.Some? ==> e == r.value)
    {
      var x, y: string;
      var from := 0;
      var pos1 := FindChar(req, ' ');
      match pos1 {
        case Some(i) => x, from := req[..i], i + 1;
        case None => x := req;
      }
      var pos2 := FindChar(req[from..], ' ');
      match pos2 {
        case Some(i) => y := req[from..from + i];
          assert y == req[from..][..i];
        case None => y := req[from..];
      }
      var nx := Stoi(x);
      if nx.None? {
        return None;
      }
      e := e.(x := nx.value);
      var ny := Stoi(y);
      if ny.None? {
        return None;
      }
      e := e.(y := ny.value, op := req[|req| - 1]);
      return Some(e);
    }
  }

  lemma Associate(a: string, b: string, c: string)
    ensures (a + b) + c == a + (b + c)
  {
  }

  lemma NothingDone(d: Drained)
    ensures After("", d) == d
  {
    assert "" + d.out == d.out;
  }

  /** One turn of the loop, on the first frame of the stream. */
  lemma Turn(done: string, stream: string, frame: string, rest: string)
    requires Split(stream, frame, rest)
    ensures var reply := CalReply(frame);
      After(done, Drain(CalReply, stream)) ==
      if reply.None? then Drained(done, rest, false) else After(done + reply.value, Drain(CalReply, rest))
  {
    hide FindEnd, CalReply;
    assert stream[..|frame|] == frame && stream[|frame|..] == rest;
    if CalReply(frame).Some? {
      var d := Drain(CalReply, rest);
      assert done + (CalReply(frame).value + d.out) == (done + CalReply(frame).value) + d.out;
    }
  }

  /** The middle of the loop: decode, parse, evaluate, serialize and frame. */
  method Respond(package: string) returns (resp: Option<string>)
    requires '\r' in package
    ensures resp == CalReply(package)
  {
    var text := DecodeMessage(package);
    var req := new Request();
    var eq := req.Deserialization(text);
    if eq.None? || !IsDefined(eq.value) {
      return None;
    }
    var framed := new Text(SerializeResult(Evaluate(eq.value)));
    Encode(framed);
    return Some(framed.s);
  }

  /** cal_IO: answer every complete frame of `input`; false where the source throws or overflows. */
  method CalIO(input: Text, output: Text) returns (ok: bool)
    requires input != output
    modifies input, output
    ensures var d := Drain(CalReply, old(input.s));
      input.s == d.rest && output.s == old(output.s) + d.out && ok == d.ok
  {
    ghost var done, stream := "", input.s;
    NothingDone(Drain(CalReply, stream));
    var found, package := RecvMessage(input);
    while found
      invariant output.s == old(output.s) + done
      invariant if found then Split(stream, package, input.s) else stream == input.s && FindEnd(stream).None?
      invariant Drain(CalReply, old(input.s)) == After(done, Drain(CalReply, stream))
      decreases |stream|
    {
      Turn(done, stream, package, input.s);
      var resp := Respond(package);
      if resp.None? {
        return false;
      }
      output.s := output.s + resp.value;
      Associate(old(output.s), done, resp.value);
      done, stream := done + resp.value, input.s;
      found, package := RecvMessage(input);
    }
    assert Drain(CalReply, stream) == Drained("", stream, true);
    return true;
  }
}
