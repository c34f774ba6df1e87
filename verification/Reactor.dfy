/**
  IO/reactor/reactor_server.hpp with cal_IO as its callback. The kernel's answers (what accept, read and
  write return, which descriptors are ready, the clock) are parameters; an answer the kernel could not give
  counts as a failure, and when a list of answers runs out the call reports EAGAIN.
*/
module Reactor {
  import opened Workers
  import opened Protocol
  import Calculator

  datatype Errno = Again | Interrupted | Broken

  datatype ReadAnswer = Bytes(data: string) | ReadFailed(errno: Errno)   // Bytes("") is end of file

  datatype WriteAnswer = Wrote(n: nat) | WriteFailed(errno: Errno)

  datatype AcceptAnswer = Accepted(fd: int) | AcceptFailed(errno: Errno)

  // ---------------------------------------------------------------- one connection, as values

  /** How a handler leaves the connection: open and up to date, open with a blocked call, closed, or by an exception. */
  datatype Outcome = Finished | Blocked | Closed | Threw

  datatype Written = Written(sent: string, left: string, outcome: Outcome)

  /** What was sent before comes before what is sent later. */
  function SentAfter(first: string, later: Written): Written {
    later.(sent := first + later.sent)
  }

  function WriteAll(outbuf: string, answers: seq<WriteAnswer>): Written
    decreases |answers|
  {
    if answers == [] then Written("", outbuf, Blocked)
    else
      match answers[0]
      case WriteFailed(Again) => Written("", outbuf, Blocked)
      case WriteFailed(Interrupted) => WriteAll(outbuf, answers[1..])
      case WriteFailed(Broken) => Written("", outbuf, Closed)
      case Wrote(n) =>
        if n > |outbuf| then Written("", outbuf, Closed)
        else if n == 0 then Written("", outbuf, Closed)
        else if n == |outbuf| then Written(outbuf, "", Finished)
        else SentAfter(outbuf[..n], WriteAll(outbuf[n..], answers[1..]))
  }

  /** What a connection has received and sent since it was accepted, and its two buffers. */
  datatype Traffic = Traffic(received: string, sent: string, inbuf: string, outbuf: string)

  datatype Received = Received(traffic: Traffic, outcome: Outcome)

  /** One turn of recver's loop after a successful read: cal_IO on the input buffer, then the writer. */
  function Serve(c: Traffic, data: string, writes: seq<WriteAnswer>): Received {
    var d := Drain(CalReply, c.inbuf + data);
    var full := c.outbuf + d.out;
    if d.ok then
      var w := WriteAll(full, writes);
      Received(Traffic(c.received + data, c.sent + w.sent, d.rest, w.left), w.outcome)
    else
      Received(Traffic(c.received + data, c.sent, d.rest, full), Threw)
  }

  type ReadScript = seq<(ReadAnswer, seq<WriteAnswer>)>

  function ReceiveAll(c: Traffic, script: ReadScript): Received
    decreases |script|
  {
    if script == [] then Received(c, Blocked)
    else
      match script[0].0
      case ReadFailed(Again) => Received(c, Blocked)
      case ReadFailed(Interrupted) => ReceiveAll(c, script[1..])
      case ReadFailed(Broken) => Received(c, Closed)
      case Bytes(data) =>
        if data == "" then Received(c, Closed)
        else
          var turn := Serve(c, data, script[0].1);
          if turn.outcome.Closed? || turn.outcome.Threw? then turn
          else ReceiveAll(turn.traffic, script[1..])
  }

  /**
    Conservation: the bytes accepted by write followed by the output buffer are exactly the replies to the bytes
    received, in order, and the input buffer is exactly their unfinished tail.
  */
  predicate Conserved(c: Traffic) {
    var d := Drain(CalReply, c.received);
    c.sent + c.outbuf == d.out && c.inbuf == d.rest
  }

  predicate Healthy(c: Traffic) {
    Drain(CalReply, c.received).ok
  }

  lemma {:induction false} WriteKeepsBytes(outbuf: string, answers: seq<WriteAnswer>)
    ensures var w := WriteAll(outbuf, answers); w.sent + w.left == outbuf
    ensures !WriteAll(outbuf, answers).outcome.Threw?
    ensures WriteAll(outbuf, answers).outcome.Finished? ==> WriteAll(outbuf, answers).left == ""
    decreases |answers|
  {
    if answers != [] {
      match answers[0]
      case WriteFailed(Interrupted) => WriteKeepsBytes(outbuf, answers[1..]);
      case Wrote(n) =>
        if 0 < n < |outbuf| {
          WriteKeepsBytes(outbuf[n..], answers[1..]);
          var w := WriteAll(outbuf[n..], answers[1..]);
          Associate(outbuf[..n], w.sent, w.left);
        }
      case _ =>
    }
  }

  const NO_TRAFFIC := Traffic("", "", "", "")

  lemma FreshIsConserved()
    ensures Conserved(NO_TRAFFIC) && Healthy(NO_TRAFFIC)
  {
    assert FindEnd("").None?;
  }

  lemma WriteNone(done: string, outbuf: string, answers: seq<WriteAnswer>)
    requires answers == []
    ensures SentAfter(done, WriteAll(outbuf, answers)) == Written(done, outbuf, Blocked)
  {
    assert done + "" == done;
  }

  /** One turn of writer's loop. */
  lemma WriteTurn(done: string, outbuf: string, answers: seq<WriteAnswer>, i: nat)
    requires i < |answers|
    ensures var now, next := WriteAll(outbuf, answers[i..]), answers[i + 1..];
      match answers[i]
      case WriteFailed(Again) => SentAfter(done, now) == Written(done, outbuf, Blocked)
      case WriteFailed(Broken) => SentAfter(done, now) == Written(done, outbuf, Closed)
      case WriteFailed(Interrupted) => now == WriteAll(outbuf, next)
      case Wrote(n) =>
        if n == 0 || n > |outbuf| then SentAfter(done, now) == Written(done, outbuf, Closed)
        else if n == |outbuf| then SentAfter(done, now) == Written(done + outbuf, "", Finished)
        else SentAfter(done, now) == SentAfter(done + outbuf[..n], WriteAll(outbuf[n..], next))
  {
    assert answers[i..][1..] == answers[i + 1..];
    if answers[i].Wrote? && 0 < answers[i].n < |outbuf| {
      var n := answers[i].n;
      Associate(done, outbuf[..n], WriteAll(outbuf[n..], answers[i + 1..]).sent);
    } else {
      assert done + "" == done;
    }
  }

  lemma ServeConserves(c: Traffic, data: string, writes: seq<WriteAnswer>)
    requires Conserved(c) && Healthy(c)
    ensures var r := Serve(c, data, writes);
      Conserved(r.traffic) && (Healthy(r.traffic) <==> !r.outcome.Threw?)
  {
    DrainAppend(CalReply, c.received, data);
    var d := Drain(CalReply, c.inbuf + data);
    WriteKeepsBytes(c.outbuf + d.out, writes);
    var w := WriteAll(c.outbuf + d.out, writes);
    Associate(c.sent, c.outbuf, d.out);
    Associate(c.sent, w.sent, w.left);
  }

  /** However the kernel splits or interrupts the reads and the writes, no byte is lost or sent twice. */
  lemma {:induction false} ReceiveConserves(c: Traffic, script: ReadScript)
    requires Conserved(c) && Healthy(c)
    ensures var r := ReceiveAll(c, script);
      Conserved(r.traffic) && (Healthy(r.traffic) <==> !r.outcome.Threw?)
    decreases |script|
  {
    if script != [] {
      match script[0].0
      case ReadFailed(Interrupted) => ReceiveConserves(c, script[1..]);
      case Bytes(data) =>
        if data != "" {
          ServeConserves(c, data, script[0].1);
          var turn := Serve(c, data, script[0].1);
          if !turn.outcome.Closed? && !turn.outcome.Threw? {
            ReceiveConserves(turn.traffic, script[1..]);
          }
        }
      case _ =>
    }
  }

  /** A call of the write handler. */
  function Flush(c: Traffic, answers: seq<WriteAnswer>): Received {
    var w := WriteAll(c.outbuf, answers);
    Received(c.(sent := c.sent + w.sent, outbuf := w.left), w.outcome)
  }

  lemma FlushConserves(c: Traffic, answers: seq<WriteAnswer>)
    requires Conserved(c)
    ensures var r := Flush(c, answers);
      Conserved(r.traffic) && (Healthy(r.traffic) <==> Healthy(c)) && !r.outcome.Threw?
  {
    WriteKeepsBytes(c.outbuf, answers);
    var w := WriteAll(c.outbuf, answers);
    Associate(c.sent, w.sent, w.left);
  }

  /** Once the requests of the list es have arrived, sent bytes and output buffer together are its framed answers. */
  lemma ServedAnswers(c: Traffic, es: seq<Calculator.Equation>)
    requires Conserved(c) && AllDefined(es) && c.received == RequestStream(es)
    ensures c.inbuf == "" && c.sent + c.outbuf == ResultStream(Answers(es))
    ensures ReadResults(c.sent + c.outbuf) == Some(Answers(es))
  {
    ServeAll(es);
    ReadBack(Answers(es));
  }

  // ---------------------------------------------------------------- when the server closes a client

  /** What write can return for this buffer: 0 for an empty one and for no other, and never more than there is. */
  predicate LegalWrites(outbuf: string, answers: seq<WriteAnswer>)
    decreases |answers|
  {
    answers == [] ||
    match answers[0]
    case WriteFailed(Interrupted) => LegalWrites(outbuf, answers[1..])
    case WriteFailed(_) => true
    case Wrote(n) =>
      && n <= |outbuf| && (n == 0 <==> outbuf == "")
      && (0 < n < |outbuf| ==> LegalWrites(outbuf[n..], answers[1..]))
  }

  /** write comes to return a count before it would block. */
  predicate Answered(answers: seq<WriteAnswer>) {
    answers != [] && if answers[0] == WriteFailed(Interrupted) then Answered(answers[1..]) else answers[0].Wrote?
  }

  /** write comes to report that the connection is broken before the buffer is sent. */
  predicate Fails(outbuf: string, answers: seq<WriteAnswer>)
    decreases |answers|
  {
    answers != [] &&
    match answers[0]
    case WriteFailed(Again) => false
    case WriteFailed(Interrupted) => Fails(outbuf, answers[1..])
    case WriteFailed(Broken) => true
    case Wrote(n) => 0 < n < |outbuf| && Fails(outbuf[n..], answers[1..])
  }

  lemma {:induction false} EmptyWriteCloses(outbuf: string, answers: seq<WriteAnswer>)
    requires LegalWrites(outbuf, answers)
    ensures WriteAll(outbuf, answers).outcome.Closed? <==> Fails(outbuf, answers) || (outbuf == "" && Answered(answers))
    decreases |answers|
  {
    if answers != [] {
      if answers[0].Wrote? && 0 < answers[0].n < |outbuf| {
        EmptyWriteCloses(outbuf[answers[0].n..], answers[1..]);
      } else if answers[0] == WriteFailed(Interrupted) {
        EmptyWriteCloses(outbuf, answers[1..]);
      }
    }
  }

  /** The bytes that write has accepted by these answers. */
  function Total(answers: seq<WriteAnswer>): nat {
    if answers == [] then 0 else (if answers[0].Wrote? then answers[0].n else 0) + Total(answers[1..])
  }

  /** The first k answers are interruptions and counts, and leave something to send unless there never was anything. */
  predicate GoesOn(outbuf: string, answers: seq<WriteAnswer>, k: nat) {
    && k <= |answers|
    && (forall j :: 0 <= j < k ==> answers[j] == WriteFailed(Interrupted) || (answers[j].Wrote? && answers[j].n > 0))
    && (k > 0 && Total(answers[..k]) > 0 ==> Total(answers[..k]) < |outbuf|)
  }

  /**
    writer, by the first answer that is not an interruption or a count with more to send: all counts before it add up
    to what has been sent, and it alone decides how the call ends.
  */
  lemma {:induction false} WritesAddUp(outbuf: string, answers: seq<WriteAnswer>, k: nat)
    requires GoesOn(outbuf, answers, k)
    ensures Total(answers[..k]) <= |outbuf|
    ensures var t, w := Total(answers[..k]), WriteAll(outbuf, answers);
      && (k == |answers| || answers[k] == WriteFailed(Again) ==> w == Written(outbuf[..t], outbuf[t..], Blocked))
      && (k < |answers| && answers[k] == WriteFailed(Broken) ==> w == Written(outbuf[..t], outbuf[t..], Closed))
      && (k < |answers| && answers[k] == Wrote(0) ==> w == Written(outbuf[..t], outbuf[t..], Closed))
      && (k < |answers| && answers[k].Wrote? && answers[k].n > 0 && t + answers[k].n == |outbuf| ==>
            w == Written(outbuf, "", Finished))
    decreases k
  {
    hide Total;
    if k == 0 {
      NothingTotal();
      assert answers[..0] == [] && outbuf[..0] == "" && outbuf[0..] == outbuf;
    } else {
      var n := if answers[0].Wrote? then answers[0].n else 0;
      var rest := answers[1..];
      assert answers[..k][1..] == rest[..k - 1];
      TotalGrows(answers[..k]);
      assert GoesOn(outbuf[n..], rest, k - 1);
      WritesAddUp(outbuf[n..], rest, k - 1);
      CutTwice(outbuf, n, Total(rest[..k - 1]));
      if k < |answers| {
        assert rest[k - 1] == answers[k];
      }
    }
  }

  lemma NothingTotal()
    ensures Total([]) == 0
  {
  }

  lemma TotalGrows(answers: seq<WriteAnswer>)
    requires answers != []
    ensures Total(answers) == (if answers[0].Wrote? then answers[0].n else 0) + Total(answers[1..])
  {
  }

  lemma CutTwice(s: string, n: nat, t: nat)
    requires n + t <= |s|
    ensures s[..n] + s[n..][..t] == s[..n + t] && s[n..][t..] == s[n + t..] && s[..n] + s[n..] == s
  {
  }

  /** What writer is given to send after `data` has been read. */
  function ToSend(c: Traffic, data: string): string {
    c.outbuf + Drain(CalReply, c.inbuf + data).out
  }

  /**
    A turn closes the client exactly when write says that it has gone, or when there is nothing to send and write
    answers at all: the 0 it returns is taken for the end of the client.
  */
  lemma NothingToSendCloses(c: Traffic, data: string, writes: seq<WriteAnswer>)
    requires Drain(CalReply, c.inbuf + data).ok && LegalWrites(ToSend(c, data), writes)
    ensures Serve(c, data, writes).outcome.Closed? <==>
      Fails(ToSend(c, data), writes) || (ToSend(c, data) == "" && Answered(writes))
  {
    EmptyWriteCloses(ToSend(c, data), writes);
  }

  /** The bytes that a script delivers. */
  function Data(script: ReadScript): string {
    if script == [] then ""
    else
      match script[0].0
      case Bytes(data) => if data == "" then "" else data + Data(script[1..])
      case ReadFailed(Interrupted) => Data(script[1..])
      case ReadFailed(_) => ""
  }

  predicate Ended(outcome: Outcome) {
    outcome.Closed? || outcome.Threw?
  }

  /** The writes of every turn are possible. */
  predicate LegalScript(c: Traffic, script: ReadScript)
    decreases |script|
  {
    script == [] ||
    match script[0].0
    case ReadFailed(Interrupted) => LegalScript(c, script[1..])
    case ReadFailed(_) => true
    case Bytes(data) =>
      var turn := Serve(c, data, script[0].1);
      LegalWrites(ToSend(c, data), script[0].1) && (Ended(turn.outcome) || LegalScript(turn.traffic, script[1..]))
  }

  /** No read and no write says that the client has gone, and whenever write counted there was something to send. */
  predicate StaysOn(c: Traffic, script: ReadScript)
    decreases |script|
  {
    script == [] ||
    match script[0].0
    case ReadFailed(Again) => true
    case ReadFailed(Interrupted) => StaysOn(c, script[1..])
    case ReadFailed(Broken) => false
    case Bytes(data) =>
      var turn := Serve(c, data, script[0].1);
      && data != "" && !Fails(ToSend(c, data), script[0].1)
      && (Answered(script[0].1) ==> ToSend(c, data) != "")
      && (Ended(turn.outcome) || StaysOn(turn.traffic, script[1..]))
  }

  /** If the whole stream can be served, so can what came first. */
  lemma ServedSoFar(c: Traffic, data: string, later: string, writes: seq<WriteAnswer>)
    requires Conserved(c) && Drain(CalReply, c.received + (data + later)).ok
    ensures Healthy(c) && Drain(CalReply, c.inbuf + data).ok && !Serve(c, data, writes).outcome.Threw?
    ensures (c.received + data) + later == c.received + (data + later)
  {
    Associate(c.received, data, later);
    DrainAppend(CalReply, c.received + data, later);
    DrainAppend(CalReply, c.received, data);
    WriteKeepsBytes(ToSend(c, data), writes);
  }

  /**
    A client is closed exactly when a read or a write says that it has gone or an answered write had nothing to send.
    Otherwise the server is indifferent to how the bytes are cut: it has them all and holds or has sent exactly the
    replies to their concatenation.
  */
  lemma {:induction false} StaysOpen(c: Traffic, script: ReadScript)
    requires Conserved(c) && Drain(CalReply, c.received + Data(script)).ok && LegalScript(c, script)
    ensures var r := ReceiveAll(c, script); var whole := Drain(CalReply, c.received + Data(script));
      && !r.outcome.Threw? && (r.outcome.Closed? <==> !StaysOn(c, script))
      && (!r.outcome.Closed? ==> r.traffic.sent + r.traffic.outbuf == whole.out && r.traffic.inbuf == whole.rest)
    decreases |script|
  {
    hide Drain;
    assert c.received + "" == c.received;
    if script != [] {
      match script[0].0
      case ReadFailed(Interrupted) => StaysOpen(c, script[1..]);
      case Bytes(data) =>
        if data != "" {
          var writes := script[0].1;
          ServedSoFar(c, data, Data(script[1..]), writes);
          NothingToSendCloses(c, data, writes);
          ServeConserves(c, data, writes);
          var turn := Serve(c, data, writes);
          if !turn.outcome.Closed? {
            StaysOpen(turn.traffic, script[1..]);
          }
        }
      case _ =>
    }
  }

  /** No read of the script would block, fails for good or comes to the end, and no turn ends the connection. */
  predicate GoesThrough(c: Traffic, script: ReadScript) {
    && !Ended(ReceiveAll(c, script).outcome)
    && forall j :: 0 <= j < |script| ==> script[j].0 != ReadFailed(Again)
  }

  /**
    recver, by its next read, when those before it have left the connection open: an end of file and a failure close
    it, EAGAIN ends the call, an interruption changes nothing, and data is served.
  */
  lemma {:induction false} NextRead(c: Traffic, script: ReadScript, read: ReadAnswer, writes: seq<WriteAnswer>)
    requires GoesThrough(c, script)
    ensures var was, r := ReceiveAll(c, script), ReceiveAll(c, script + [(read, writes)]);
      && (read == Bytes("") ==> r == Received(was.traffic, Closed))
      && (read == ReadFailed(Broken) ==> r == Received(was.traffic, Closed))
      && (read == ReadFailed(Again) ==> r == Received(was.traffic, Blocked))
      && (read == ReadFailed(Interrupted) ==> r == Received(was.traffic, Blocked))
      && (read.Bytes? && |read.data| > 0 ==>
            var turn := Serve(was.traffic, read.data, writes);
            r == if turn.outcome.Closed? || turn.outcome.Threw? then turn else Received(turn.traffic, Blocked))
    decreases |script|
  {
    hide Serve;
    var next := (read, writes);
    if script == [] {
      assert [next][1..] == [] && script + [next] == [next];
      ReceiveNothing();
    } else {
      var tail := script[1..];
      assert (script + [next])[1..] == tail + [next] && (script + [next])[0] == script[0];
      match script[0].0
      case ReadFailed(Interrupted) => NextRead(c, tail, read, writes);
      case Bytes(data) => NextRead(Serve(c, data, script[0].1).traffic, tail, read, writes);
      case ReadFailed(Again) =>
    }
  }

  lemma ReceiveNothing()
    ensures forall c :: ReceiveAll(c, []) == Received(c, Blocked)
  {
  }

  /** What a call has come to is what the reads up to its last one have come to. */
  lemma {:induction false} NothingAfterTheEnd(c: Traffic, script: ReadScript, more: ReadScript)
    requires Ended(ReceiveAll(c, script).outcome)
    ensures ReceiveAll(c, script + more) == ReceiveAll(c, script)
    decreases |script|
  {
    hide Serve;
    if script != [] {
      assert (script + more)[1..] == script[1..] + more && (script + more)[0] == script[0];
      match script[0].0
      case ReadFailed(Interrupted) => NothingAfterTheEnd(c, script[1..], more);
      case Bytes(data) =>
        if data != "" && !Ended(Serve(c, data, script[0].1).outcome) {
          NothingAfterTheEnd(Serve(c, data, script[0].1).traffic, script[1..], more);
        }
      case _ =>
    }
  }

  /** The reads of these chunks by a client that takes every reply at once. */
  function PromptScript(c: Traffic, chunks: seq<string>): ReadScript
    decreases |chunks|
  {
    if chunks == [] then []
    else
      var writes := [Wrote(|ToSend(c, chunks[0])|)];
      [(Bytes(chunks[0]), writes)] + PromptScript(Serve(c, chunks[0], writes).traffic, chunks[1..])
  }

  /** Every chunk completes at least one request. */
  predicate EachCompletes(left: string, chunks: seq<string>)
    decreases |chunks|
  {
    chunks == [] ||
    (FindEnd(left + chunks[0]).Some? && EachCompletes(Drain(CalReply, left + chunks[0]).rest, chunks[1..]))
  }

  lemma CompletedIsAnswered(s: string)
    requires Drain(CalReply, s).ok
    ensures Drain(CalReply, s).out != "" <==> FindEnd(s).Some?
  {
    if FindEnd(s).Some? {
      var reply := CalReply(s[..FindEnd(s).value + 2]);
      assert reply.Some? && |reply.value| >= 2;
    }
  }

  /** A client that takes every reply at once is closed exactly when one of its chunks completes no request. */
  lemma {:induction false} PromptClient(c: Traffic, chunks: seq<string>)
    requires Conserved(c) && c.outbuf == "" && (forall i :: 0 <= i < |chunks| ==> chunks[i] != "")
    requires Drain(CalReply, c.received + Concat(chunks)).ok
    ensures ReceiveAll(c, PromptScript(c, chunks)).outcome.Closed? <==> !EachCompletes(c.inbuf, chunks)
    decreases |chunks|
  {
    hide Drain, CalReply, FindEnd;
    if chunks != [] {
      var data, writes := chunks[0], [Wrote(|ToSend(c, chunks[0])|)];
      ServedSoFar(c, data, Concat(chunks[1..]), writes);
      CompletedIsAnswered(c.inbuf + data);
      ServeConserves(c, data, writes);
      var turn := Serve(c, data, writes);
      assert PromptScript(c, chunks)[1..] == PromptScript(turn.traffic, chunks[1..]);
      if ToSend(c, data) != "" {
        PromptClient(turn.traffic, chunks[1..]);
      }
    }
  }

  lemma OneRequest(e: Calculator.Equation)
    requires Calculator.IsDefined(e)
    ensures Drain(CalReply, RequestFrame(e)) == Drained(ResultFrame(Calculator.Evaluate(e)), "", true)
    ensures FindEnd(RequestFrame(e)) == Some(|RequestFrame(e)| - 2)
  {
    hide CalReply, FindEnd, Drain;
    RequestText(e);
    ServeAll([e]);
    FrameEnds(SerializeRequest(e), "");
    assert Answers([e]) == [Calculator.Evaluate(e)];
    assert RequestFrame(e) + "" == RequestFrame(e);
    assert RequestStream([e]) == RequestFrame(e);
    assert ResultStream(Answers([e])) == ResultFrame(Calculator.Evaluate(e));
  }

  lemma PartIsIncomplete(s: string, k: nat)
    requires FindEnd(s) == Some(|s| - 2) && k < |s|
    ensures FindEnd(s[..k]).None?
  {
    var part := FindEnd(s[..k]);
    if part.Some? {
      assert EndAt(s, part.value);
    }
  }

  lemma ConcatTwo(a: string, b: string)
    ensures Concat([a, b]) == a + b
  {
    assert Concat([b]) == b;
    assert [a, b][1..] == [b];
  }

  lemma PromptOne(c: Traffic, data: string)
    requires data != ""
    ensures var r := Serve(c, data, [Wrote(|ToSend(c, data)|)]);
      ReceiveAll(c, PromptScript(c, [data])) ==
      if Ended(r.outcome) then r else Received(r.traffic, Blocked)
  {
    hide Serve;
    var r := Serve(c, data, [Wrote(|ToSend(c, data)|)]);
    assert [data][1..] == [] && PromptScript(r.traffic, []) == [];
    var script := PromptScript(c, [data]);
    assert script == [(Bytes(data), [Wrote(|ToSend(c, data)|)])];
    assert script[1..] == [] && ReceiveAll(r.traffic, []) == Received(r.traffic, Blocked);
  }

  lemma CutFrameCloses(frame: string, k: nat)
    requires 0 < k < |frame| && Drain(CalReply, frame).ok && FindEnd(frame[..k]).None?
    ensures ReceiveAll(NO_TRAFFIC, PromptScript(NO_TRAFFIC, [frame[..k], frame[k..]])).outcome.Closed?
  {
    hide CalReply, FindEnd, Drain, ReceiveAll, PromptScript;
    var a, b := frame[..k], frame[k..];
    FreshIsConserved();
    ConcatTwo(a, b);
    assert a + b == frame;
    NothingBefore(frame);
    NothingBefore(a);
    assert !EachCompletes("", [a, b]);
    PromptClient(NO_TRAFFIC, [a, b]);
  }

  lemma NothingBefore(s: string)
    ensures "" + s == s
  {
  }

  /** A request cut anywhere loses a prompt client its connection. */
  lemma CutRequestCloses(e: Calculator.Equation, k: nat)
    requires Calculator.IsDefined(e) && 0 < k < |RequestFrame(e)|
    ensures var chunks := [RequestFrame(e)[..k], RequestFrame(e)[k..]];
      ReceiveAll(NO_TRAFFIC, PromptScript(NO_TRAFFIC, chunks)).outcome.Closed?
  {
    hide RequestFrame, ResultFrame, CalReply, Drain;
    OneRequest(e);
    PartIsIncomplete(RequestFrame(e), k);
    CutFrameCloses(RequestFrame(e), k);
  }

  /** The same request in one piece is answered, and the connection stays open. */
  lemma WholeRequestStays(e: Calculator.Equation)
    requires Calculator.IsDefined(e)
    ensures var r := ReceiveAll(NO_TRAFFIC, PromptScript(NO_TRAFFIC, [RequestFrame(e)]));
      !r.outcome.Closed? && r.traffic.sent == ResultFrame(Calculator.Evaluate(e)) && r.traffic.outbuf == ""
  {
    hide RequestFrame, ResultFrame, CalReply, FindEnd, Drain;
    var frame := RequestFrame(e);
    OneRequest(e);
    assert "" + frame == frame;
    var reply := Drain(CalReply, frame).out;
    assert ToSend(NO_TRAFFIC, frame) == reply;
    assert reply != "" by {
      CompletedIsAnswered(frame);
    }
    PromptOne(NO_TRAFFIC, frame);
  }

  // ---------------------------------------------------------------- the objects

  const TIME_LIMIT := 300

  /** Seconds as a 64-bit unsigned number. */
  type Time = n: nat | n < 0x1_0000_0000_0000_0000

  /** What the epoll instance watches a descriptor for; both are edge triggered. */
  datatype Interest = InOnly | InOut

  /** The timestamp of a connection, and whether it is exempt from the sweep. */
  datatype Clock = Clock(longlive: bool, lasttime: Time)

  datatype Status = Status(traffic: Traffic, clock: Clock)

  class Connection {
    const sock: int
    const listening: bool   // its read handler is acceptor, and it has no write handler
    var inbuf: string
    var outbuf: string
    var longlive: bool
    var lasttime: Time
    ghost var received: string
    ghost var sent: string

    constructor (sock: int, listening: bool, longlive: bool, now: Time)
      ensures this.sock == sock && this.listening == listening
      ensures View() == Status(NO_TRAFFIC, Clock(longlive, now))
    {
      this.sock, this.listening, this.longlive, lasttime := sock, listening, longlive, now;
      inbuf, outbuf, received, sent := "", "", "", "";
    }

    ghost function Exchanged(): Traffic
      reads this
    {
      Traffic(received, sent, inbuf, outbuf)
    }

    ghost function View(): Status
      reads this
    {
      Status(Exchanged(), Clock(longlive, lasttime))
    }

    ghost predicate Sound()
      reads this
    {
      Conserved(Exchanged()) && Healthy(Exchanged())
    }

    method SetTime(live: bool, now: Time)
      modifies this`longlive, this`lasttime
      ensures longlive == live && lasttime == now
    {
      longlive, lasttime := live, now;
    }
  }

  /** conn_manager::is_timeout with run's limit; the subtraction is on 64-bit unsigned integers. */
  predicate TimesOut(k: Clock, now: Time) {
    !k.longlive && (now - k.lasttime) % 0x1_0000_0000_0000_0000 > TIME_LIMIT
  }

  /**
    A client has timed out when it is not exempt and has been quiet for more than 300 seconds, or when the clock has
    gone back since, unless it has gone back by almost its whole range.
  */
  lemma TimesOutMeans(k: Clock, now: Time)
    ensures TimesOut(k, now) <==>
      && !k.longlive
      && if k.lasttime <= now then now - k.lasttime > 300 else now + 0x1_0000_0000_0000_0000 - k.lasttime > 300
  {
  }

  // ---------------------------------------------------------------- one report, as values

  /** One entry of the array that epoll_wait fills, with the answers its handlers will get from the kernel. */
  datatype Event = Event(fd: int, input: bool, output: bool, hangup: bool,
                         arrivals: seq<AcceptAnswer>, incoming: ReadScript, outgoing: seq<WriteAnswer>)

  /** A handler call leaves the connection with this status, and closed or open by this outcome. */
  datatype Handled = Handled(status: Status, outcome: Outcome)

  function ReadHandler(s: Status, script: ReadScript, now: Time): Handled {
    var r := ReceiveAll(s.traffic, script);
    Handled(Status(r.traffic, Clock(false, now)), r.outcome)
  }

  function WriteHandler(s: Status, answers: seq<WriteAnswer>, now: Time): Handled {
    var r := Flush(s.traffic, answers);
    Handled(Status(r.traffic, if r.outcome.Finished? then Clock(false, now) else s.clock), r.outcome)
  }

  /** What the first half of dispatcher's loop body does to a client's connection. */
  function AfterRead(s: Status, e: Event, now: Time): Handled {
    if e.input || e.hangup then ReadHandler(s, e.incoming, now) else Handled(s, Blocked)
  }

  /** The write handler is called as well: it is asked for, and the read handler left the connection open. */
  predicate ReachesWriter(s: Status, e: Event, now: Time) {
    (e.output || e.hangup) && !Ended(AfterRead(s, e, now).outcome)
  }

  /** What one report does to a client's connection. */
  function Handle(s: Status, e: Event, now: Time): Handled {
    var r := AfterRead(s, e, now);
    if ReachesWriter(s, e, now) then WriteHandler(r.status, e.outgoing, now) else r
  }

  lemma HandleConserves(s: Status, e: Event, now: Time)
    requires Conserved(s.traffic) && Healthy(s.traffic)
    ensures var r := Handle(s, e, now);
      Conserved(r.status.traffic) && (Healthy(r.status.traffic) <==> !r.outcome.Threw?)
  {
    ReceiveConserves(s.traffic, e.incoming);
    FlushConserves(AfterRead(s, e, now).status.traffic, e.outgoing);
  }

  /** The registered connections, and the status of every connection there ever was. */
  datatype World = World(conns: map<int, Connection>, status: map<Connection, Status>)

  /**
    A handler call on connection pc: it is left as r says (the listener as it was), and still registered unless r has
    closed it. All others keep their places and their statuses, and whatever is new has not exchanged a byte.
  */
  ghost predicate Effect(w: World, w': World, pc: Connection, r: Handled, now: Time) {
    && pc in w.status && pc in w'.status && w'.status[pc] == (if pc.listening then w.status[pc] else r.status)
    && (forall c :: c in w.status && c != pc ==> c in w'.status && w'.status[c] == w.status[c])
    && (forall c :: c in w'.status && c !in w.status ==>
          w'.status[c] == Status(NO_TRAFFIC, Clock(false, now)) && !c.listening)
    && (forall f :: f in w.conns && f != pc.sock ==> f in w'.conns && w'.conns[f] == w.conns[f])
    && (forall f :: f in w'.conns ==> (f in w.conns && w'.conns[f] == w.conns[f]) || w'.conns[f] !in w.status)
    && (pc.sock in w'.conns ==> w'.conns[pc.sock] == pc)
    && (pc.sock in w'.conns <==> pc.sock in w.conns && (pc.listening || !r.outcome.Closed?))
  }

  /** The two handler calls for one report, one after the other. */
  lemma TwoEffects(w: World, w1: World, w2: World, pc: Connection, r1: Handled, r2: Handled, now: Time)
    requires Effect(w, w1, pc, r1, now) && Effect(w1, w2, pc, r2, now)
    requires pc.listening || (r1.outcome.Closed? ==> r2.outcome.Closed?)
    ensures Effect(w, w2, pc, r2, now)
  {
  }

  lemma NoEffect(w: World, pc: Connection, r: Handled, now: Time)
    requires pc in w.status && (pc.listening || r.status == w.status[pc])
    requires pc.sock in w.conns ==> w.conns[pc.sock] == pc && (pc.listening || !r.outcome.Closed?)
    ensures Effect(w, w, pc, r, now)
  {
  }

  /** A handler call that has touched nothing but its client and the client's place in the table. */
  lemma OneClient(w: World, w': World, pc: Connection, r: Handled, now: Time)
    requires pc in w.status && !pc.listening && pc.sock in w.conns && w.conns[pc.sock] == pc
    requires w'.conns == if r.outcome.Closed? then w.conns - {pc.sock} else w.conns
    requires forall c :: c in w.status ==> c in w'.status && w'.status[c] == if c == pc then r.status else w.status[c]
    requires forall c :: c in w'.status ==> c in w.status
    ensures Effect(w, w', pc, r, now)
  {
  }

  /** What r says of it does not matter to the listener. */
  lemma SameEffect(w: World, w': World, pc: Connection, r: Handled, r': Handled, now: Time)
    requires Effect(w, w', pc, r, now) && (pc.listening || r' == r)
    ensures Effect(w, w', pc, r', now)
  {
  }

  lemma EffectOnIt(w: World, w': World, pc: Connection, r: Handled, now: Time)
    requires Effect(w, w', pc, r, now)
    ensures pc in w'.status && w'.status[pc] == (if pc.listening then w.status[pc] else r.status)
    ensures pc.sock in w'.conns ==> w'.conns[pc.sock] == pc
    ensures pc.sock in w'.conns <==> pc.sock in w.conns && (pc.listening || !r.outcome.Closed?)
    ensures forall f :: f in w.conns && f != pc.sock ==> f in w'.conns
  {
  }

  /** Handle, by the event's own fields. */
  lemma HandleMeans(s: Status, e: Event, now: Time)
    ensures var r := if e.input || e.hangup then ReceiveAll(s.traffic, e.incoming) else Received(s.traffic, Blocked);
      && (ReachesWriter(s, e, now) <==> (e.output || e.hangup) && !r.outcome.Closed? && !r.outcome.Threw?)
      && Handle(s, e, now).status.traffic ==
           if (e.output || e.hangup) && !r.outcome.Closed? && !r.outcome.Threw?
           then Flush(r.traffic, e.outgoing).traffic
           else r.traffic
  {
    hide ReceiveAll, Flush;
  }

  // ---------------------------------------------------------------- one pass, as values

  /** epoll_wait reports registered descriptors, each at most once. */
  ghost predicate Reportable(batch: seq<Event>, registered: set<int>) {
    (forall i :: 0 <= i < |batch| ==> batch[i].fd in registered) &&
    forall i, j :: 0 <= i < j < |batch| ==> batch[i].fd != batch[j].fd
  }

  /** Where a pass begins: the reports, the clock, the world, and the handler calls made before. */
  datatype Pass = Pass(batch: seq<Event>, now: Time, start: World, readers: seq<Connection>, writers: seq<Connection>)

  ghost predicate Proper(p: Pass)
    ensures Proper(p) ==> forall i :: 0 <= i < |p.batch| ==>
              p.batch[i].fd in p.start.conns && p.start.conns[p.batch[i].fd] in p.start.status
  {
    && Reportable(p.batch, p.start.conns.Keys)
    && forall f :: f in p.start.conns ==> p.start.conns[f].sock == f && p.start.conns[f] in p.start.status
  }

  /** The connection that report i is for. */
  ghost function Of(p: Pass, i: nat): (c: Connection)
    requires Proper(p) && i < |p.batch|
    ensures c in p.start.status && c.sock == p.batch[i].fd
    ensures p.batch[i].fd in p.start.conns && p.start.conns[p.batch[i].fd] == c
  {
    p.start.conns[p.batch[i].fd]
  }

  /** What report i does to its connection, as the pass has found it. */
  ghost function ByReport(p: Pass, i: nat): Handled
    requires Proper(p) && i < |p.batch|
  {
    Handle(p.start.status[Of(p, i)], p.batch[i], p.now)
  }

  /** The connections whose read handler the first n reports call for, in order. */
  ghost function Readers(p: Pass, n: nat): seq<Connection>
    requires Proper(p) && n <= |p.batch|
  {
    if n == 0 then []
    else Readers(p, n - 1) + (if p.batch[n - 1].input || p.batch[n - 1].hangup then [Of(p, n - 1)] else [])
  }

  /** The connections whose write handler they call for, in order. */
  ghost function Writers(p: Pass, n: nat): seq<Connection>
    requires Proper(p) && n <= |p.batch|
  {
    if n == 0 then []
    else
      var c := Of(p, n - 1);
      Writers(p, n - 1) +
      (if !c.listening && ReachesWriter(p.start.status[c], p.batch[n - 1], p.now) then [c] else [])
  }

  /** A read handler is called exactly for those reported readable or hung up, once each. */
  lemma {:induction false} ReadersAreTheReported(p: Pass, n: nat)
    requires Proper(p) && n <= |p.batch|
    ensures forall c :: c in Readers(p, n) <==>
              exists i :: 0 <= i < n && Of(p, i) == c && (p.batch[i].input || p.batch[i].hangup)
    ensures forall j, k :: 0 <= j < k < |Readers(p, n)| ==> Readers(p, n)[j] != Readers(p, n)[k]
  {
    if n > 0 {
      ReadersAreTheReported(p, n - 1);
      var some := Readers(p, n - 1);
      forall c
        ensures c in Readers(p, n) <==>
                exists i :: 0 <= i < n && Of(p, i) == c && (p.batch[i].input || p.batch[i].hangup)
      {
        if c in some {
          var i :| 0 <= i < n - 1 && Of(p, i) == c && (p.batch[i].input || p.batch[i].hangup);
        }
      }
      forall j | 0 <= j < |some|
        ensures some[j] != Of(p, n - 1)
      {
        assert some[j] in some;
      }
    }
  }

  /**
    A write handler is called exactly for those clients reported writable or hung up whose connection the read handler,
    if it was called, has left open.
  */
  lemma {:induction false} WritersAreTheReported(p: Pass, n: nat)
    requires Proper(p) && n <= |p.batch|
    ensures forall c :: c in Writers(p, n) <==> exists i :: 0 <= i < n && Of(p, i) == c && WantsOutput(p, i)
  {
    if n > 0 {
      WritersAreTheReported(p, n - 1);
      forall c
        ensures c in Writers(p, n) <==> exists i :: 0 <= i < n && Of(p, i) == c && WantsOutput(p, i)
      {
        if c in Writers(p, n - 1) {
          var i :| 0 <= i < n - 1 && Of(p, i) == c && WantsOutput(p, i);
        }
      }
    }
  }

  ghost predicate WantsOutput(p: Pass, i: nat)
    requires Proper(p) && i < |p.batch|
  {
    var e, c := p.batch[i], Of(p, i);
    && !c.listening && (e.output || e.hangup)
    && (e.input || e.hangup ==>
          var r := ReceiveAll(p.start.status[c].traffic, e.incoming); !r.outcome.Closed? && !r.outcome.Threw?)
  }

  /** None of the first n reports has closed the connection registered under f. */
  ghost predicate Stays(p: Pass, n: nat, f: int)
    requires Proper(p) && n <= |p.batch|
  {
    forall i :: 0 <= i < n && p.batch[i].fd == f ==> Of(p, i).listening || !ByReport(p, i).outcome.Closed?
  }

  /**
    The world after the first n reports: each has left its client as ByReport says, all other connections are as they
    were, the registered ones are those not closed and some newcomers, and these have not exchanged a byte.
  */
  ghost predicate HasServed(p: Pass, n: nat, w: World)
    requires Proper(p) && n <= |p.batch|
  {
    && (forall c :: c in p.start.status ==> c in w.status)
    && (forall i :: 0 <= i < n ==>
          w.status[Of(p, i)] == if Of(p, i).listening then p.start.status[Of(p, i)] else ByReport(p, i).status)
    && (forall c :: c in p.start.status && Unreported(p, n, c) ==> w.status[c] == p.start.status[c])
    && (forall c :: c in w.status && c !in p.start.status ==>
          w.status[c] == Status(NO_TRAFFIC, Clock(false, p.now)) && !c.listening)
    && (forall f :: f in p.start.conns ==> (Stays(p, n, f) <==> f in w.conns && w.conns[f] == p.start.conns[f]))
    && (forall f :: f in w.conns ==>
          (f in p.start.conns && w.conns[f] == p.start.conns[f]) || w.conns[f] !in p.start.status)
  }

  ghost predicate Unreported(p: Pass, n: nat, c: Connection)
    requires Proper(p) && n <= |p.batch|
  {
    forall i :: 0 <= i < n ==> Of(p, i) != c
  }

  lemma NothingServed(p: Pass)
    requires Proper(p)
    ensures HasServed(p, 0, p.start) && Readers(p, 0) == [] && Writers(p, 0) == []
  {
  }

  /** When the pass comes to report i its connection is as it was and where it was. */
  lemma NextReport(p: Pass, i: nat, w: World)
    requires Proper(p) && i < |p.batch| && HasServed(p, i, w)
    ensures var c := Of(p, i);
      && p.batch[i].fd in w.conns && w.conns[p.batch[i].fd] == c && c in w.status && w.status[c] == p.start.status[c]
  {
    hide ByReport;
    var c := Of(p, i);
    assert Unreported(p, i, c);
    assert Stays(p, i, p.batch[i].fd);
  }

  lemma ServedStep(p: Pass, i: nat, w: World, w': World)
    requires Proper(p) && i < |p.batch| && HasServed(p, i, w) && Effect(w, w', Of(p, i), ByReport(p, i), p.now)
    ensures HasServed(p, i + 1, w')
  {
    hide ByReport, Effect, Stays, Unreported, HasServed;
    ServedStatuses(p, i, w, w');
    ServedTable(p, i, w, w');
    SplitServed(p, i + 1, w');
  }

  /** The clauses of HasServed about statuses. */
  ghost predicate StatusesServed(p: Pass, n: nat, w: World)
    requires Proper(p) && n <= |p.batch|
  {
    && (forall c :: c in p.start.status ==> c in w.status)
    && (forall i :: 0 <= i < n ==>
          w.status[Of(p, i)] == if Of(p, i).listening then p.start.status[Of(p, i)] else ByReport(p, i).status)
    && (forall c :: c in p.start.status && Unreported(p, n, c) ==> w.status[c] == p.start.status[c])
    && (forall c :: c in w.status && c !in p.start.status ==>
          w.status[c] == Status(NO_TRAFFIC, Clock(false, p.now)) && !c.listening)
  }

  /** The clauses of HasServed about the table. */
  ghost predicate TableServed(p: Pass, n: nat, w: World)
    requires Proper(p) && n <= |p.batch|
  {
    && (forall f :: f in p.start.conns ==> (Stays(p, n, f) <==> f in w.conns && w.conns[f] == p.start.conns[f]))
    && (forall f :: f in w.conns ==>
          (f in p.start.conns && w.conns[f] == p.start.conns[f]) || w.conns[f] !in p.start.status)
  }

  lemma SplitServed(p: Pass, n: nat, w: World)
    requires Proper(p) && n <= |p.batch|
    ensures HasServed(p, n, w) <==> StatusesServed(p, n, w) && TableServed(p, n, w)
  {
  }

  lemma ServedStatuses(p: Pass, i: nat, w: World, w': World)
    requires Proper(p) && i < |p.batch| && HasServed(p, i, w) && Effect(w, w', Of(p, i), ByReport(p, i), p.now)
    ensures StatusesServed(p, i + 1, w')
  {
    hide ByReport, Stays;
    NextReport(p, i, w);
    var pc := Of(p, i);
    forall j | 0 <= j < i
      ensures w'.status[Of(p, j)] == if Of(p, j).listening then p.start.status[Of(p, j)] else ByReport(p, j).status
    {
      assert Of(p, j) != pc;
    }
    forall c | c in p.start.status && Unreported(p, i + 1, c)
      ensures w'.status[c] == p.start.status[c]
    {
      assert Unreported(p, i, c) && c != pc;
    }
  }

  lemma ServedTable(p: Pass, i: nat, w: World, w': World)
    requires Proper(p) && i < |p.batch| && HasServed(p, i, w) && Effect(w, w', Of(p, i), ByReport(p, i), p.now)
    ensures TableServed(p, i + 1, w')
  {
    hide ByReport, Unreported;
    NextReport(p, i, w);
    forall f | f in p.start.conns
      ensures Stays(p, i + 1, f) <==> f in w'.conns && w'.conns[f] == p.start.conns[f]
    {
      assert Stays(p, i + 1, f) <==>
             Stays(p, i, f) && (p.batch[i].fd == f ==> Of(p, i).listening || !ByReport(p, i).outcome.Closed?);
    }
  }

  lemma CallsStep(p: Pass, i: nat)
    requires Proper(p) && i < |p.batch|
    ensures p.readers + Readers(p, i + 1) ==
      p.readers + Readers(p, i) + (if p.batch[i].input || p.batch[i].hangup then [Of(p, i)] else [])
    ensures var c, r := Of(p, i), AfterRead(p.start.status[Of(p, i)], p.batch[i], p.now);
      p.writers + Writers(p, i + 1) == p.writers + Writers(p, i) +
      (if !c.listening && (p.batch[i].output || p.batch[i].hangup) && !Ended(r.outcome) then [c] else [])
  {
    hide AfterRead;
  }

  /** What epoll_wait reports of whatever is ready: registered descriptors, each once. */
  function Reported(ready: seq<Event>, registered: set<int>): (batch: seq<Event>)
    ensures Reportable(batch, registered)
    ensures Reportable(ready, registered) ==> batch == ready
  {
    if ready == [] then []
    else
      var n := |ready| - 1;
      var batch := Reported(ready[..n], registered);
      assert Reportable(ready, registered) ==> Reportable(ready[..n], registered);
      if ready[n].fd in registered && forall j :: 0 <= j < |batch| ==> batch[j].fd != ready[n].fd
      then batch + [ready[n]]
      else batch
  }

  /** A turn of the main loop: what is ready, the clock, and the order in which the sweep comes to the table. */
  datatype Round = Round(ready: seq<Event>, now: Time, order: seq<int>)

  /** One turn: its pass, how many reports were handled, the world when the sweep began, and the table it left. */
  datatype Lap = Lap(pass: Pass, served: nat, met: World, left: map<int, Connection>)

  /**
    A sweep closes exactly the clients in its order that are not exempt and have been quiet for more than 300 seconds,
    or since a time later than now, unless by almost the whole range of the clock.
  */
  ghost predicate Swept(w: World, left: map<int, Connection>, order: seq<int>, now: Time) {
    && (forall f :: f in left ==> f in w.conns && left[f] == w.conns[f])
    && (forall f :: f in w.conns ==> w.conns[f] in w.status)
    && (forall f :: f in w.conns ==>
          var k := w.status[w.conns[f]].clock;
          f !in left <==>
            && f in order && !k.longlive
            && if k.lasttime <= now then now - k.lasttime > 300
               else now + 0x1_0000_0000_0000_0000 - k.lasttime > 300)
  }

  /** The turn has served all its reports and then swept the table. */
  ghost predicate IsLap(l: Lap, t: Round)
    ensures IsLap(l, t) ==> Proper(l.pass) && l.served == |l.pass.batch|
  {
    && IsPassOf(l.pass, l.served, l.met, t) && l.served == |l.pass.batch|
    && (forall i :: 0 <= i < l.served ==> !Breaks(l.pass, i))
    && Swept(l.met, l.left, t.order, t.now)
  }

  /** The turn in which cal_IO throws ends the run there. */
  ghost predicate IsLastLap(l: Lap, t: Round)
    ensures IsLastLap(l, t) ==> Proper(l.pass) && l.served <= |l.pass.batch|
  {
    && IsPassOf(l.pass, l.served, l.met, t) && 0 < l.served <= |l.pass.batch| && Breaks(l.pass, l.served - 1)
    && (forall i :: 0 <= i < l.served - 1 ==> !Breaks(l.pass, i)) && l.left == l.met.conns
  }

  /** The pass p over what the turn reports has come to the world w after `served` of its reports. */
  ghost predicate IsPassOf(p: Pass, served: nat, w: World, t: Round)
    ensures IsPassOf(p, served, w, t) ==> Proper(p) && served <= |p.batch|
  {
    && Proper(p) && served <= |p.batch| && p.now == t.now
    && p.batch == Reported(t.ready, p.start.conns.Keys) && HasServed(p, served, w)
  }

  /** Report i makes cal_IO throw. */
  ghost predicate Breaks(p: Pass, i: nat)
    requires Proper(p) && i < |p.batch|
  {
    !Of(p, i).listening && ByReport(p, i).outcome.Threw?
  }

  /** Where a turn ends, the next one begins: tables, statuses and calls. */
  ghost predicate LeadsTo(l: Lap, w: World, readers: seq<Connection>, writers: seq<Connection>)
    requires Proper(l.pass) && l.served <= |l.pass.batch|
  {
    && w == World(l.left, l.met.status)
    && readers == l.pass.readers + Readers(l.pass, l.served) && writers == l.pass.writers + Writers(l.pass, l.served)
  }

  /** The laps of a run of these turns, one each; if it has crashed, the last lap is cut short and no turn follows. */
  ghost predicate AreLaps(laps: seq<Lap>, turns: seq<Round>, crashed: bool) {
    && (if crashed then 0 < |laps| <= |turns| else |laps| == |turns|)
    && (forall k :: 0 <= k < |laps| ==>
          if crashed && k == |laps| - 1 then IsLastLap(laps[k], turns[k]) else IsLap(laps[k], turns[k]))
    && forall k :: 0 < k < |laps| ==>
         LeadsTo(laps[k - 1], laps[k].pass.start, laps[k].pass.readers, laps[k].pass.writers)
  }

  /** The world and the handler calls before and after a run of these laps. */
  ghost predicate RunsFromTo(laps: seq<Lap>, w: World, readers: seq<Connection>, writers: seq<Connection>,
                             w': World, readers': seq<Connection>, writers': seq<Connection>)
    requires forall k :: 0 <= k < |laps| ==> Proper(laps[k].pass) && laps[k].served <= |laps[k].pass.batch|
  {
    if laps == [] then w' == w && readers' == readers && writers' == writers
    else
      && laps[0].pass.start == w && laps[0].pass.readers == readers && laps[0].pass.writers == writers
      && LeadsTo(laps[|laps| - 1], w', readers', writers')
  }

  lemma OneMoreLap(laps: seq<Lap>, turns: seq<Round>, l: Lap, crashed: bool,
                   w: World, readers: seq<Connection>, writers: seq<Connection>,
                   w': World, readers': seq<Connection>, writers': seq<Connection>)
    requires |laps| < |turns| && AreLaps(laps, turns[..|laps|], false)
    requires if crashed then IsLastLap(l, turns[|laps|]) else IsLap(l, turns[|laps|])
    requires RunsFromTo(laps, w, readers, writers, l.pass.start, l.pass.readers, l.pass.writers)
    requires LeadsTo(l, w', readers', writers')
    ensures AreLaps(laps + [l], turns[..|laps| + 1], crashed)
    ensures RunsFromTo(laps + [l], w, readers, writers, w', readers', writers')
  {
    hide IsLap, IsLastLap, LeadsTo;
    var longer := laps + [l];
    forall k | 0 <= k < |longer|
      ensures if crashed && k == |longer| - 1 then IsLastLap(longer[k], turns[k]) else IsLap(longer[k], turns[k])
    {
      if k < |laps| {
        assert longer[k] == laps[k] && turns[..|laps|][k] == turns[k];
      }
    }
  }

  /** The descriptors that acceptor takes on: all that accept returns until it fails for good. */
  function Admitted(answers: seq<AcceptAnswer>, taken: set<int>): seq<int> {
    if answers == [] then []
    else
      match answers[0]
      case AcceptFailed(Interrupted) => Admitted(answers[1..], taken)
      case AcceptFailed(_) => []
      case Accepted(fd) =>
        if fd < 0 || fd in taken then [] else [fd] + Admitted(answers[1..], taken + {fd})
  }

  /** The table holds what it held and the descriptors `fds`, which it did not hold. */
  ghost predicate Joined(before: map<int, Connection>, after: map<int, Connection>, fds: seq<int>) {
    (forall f :: f in after <==> f in before || f in fds) && forall f :: f in fds ==> f !in before
  }

  lemma NoneAdmitted(taken: set<int>)
    ensures Admitted([], taken) == []
  {
  }

  lemma AdmitTurn(done: seq<int>, answers: seq<AcceptAnswer>, i: nat, taken: set<int>)
    requires i < |answers|
    ensures done + Admitted(answers[i..], taken) ==
      var a, next := answers[i], answers[i + 1..];
      if a == AcceptFailed(Interrupted) then done + Admitted(next, taken)
      else if a.AcceptFailed? || a.fd < 0 || a.fd in taken then done
      else done + [a.fd] + Admitted(next, taken + {a.fd})
  {
    assert answers[i..][1..] == answers[i + 1..];
  }

  /** accept comes to answer number k: all answers before it are interruptions or numbers of no open socket. */
  ghost predicate ComesTo(answers: seq<AcceptAnswer>, taken: set<int>, k: nat) {
    && k <= |answers|
    && (forall j :: 0 <= j < k ==> answers[j] == AcceptFailed(Interrupted) || IsNew(answers, taken, j))
  }

  /** Answer j is a number of no open socket, those accepted before included. */
  ghost predicate IsNew(answers: seq<AcceptAnswer>, taken: set<int>, j: nat)
    requires j < |answers|
  {
    && answers[j].Accepted? && answers[j].fd >= 0 && answers[j].fd !in taken
    && forall i :: 0 <= i < j ==> answers[i] != answers[j]
  }

  /** acceptor takes on exactly the numbers that accept returns before it fails with anything but EINTR. */
  lemma {:induction false} AdmittedMeans(answers: seq<AcceptAnswer>, taken: set<int>, fd: int)
    ensures fd in Admitted(answers, taken) <==>
      exists k :: 0 <= k < |answers| && answers[k] == Accepted(fd) && ComesTo(answers, taken, k + 1)
    decreases |answers|
  {
    if answers != [] {
      var rest := answers[1..];
      assert forall j :: 0 <= j < |rest| ==> rest[j] == answers[j + 1];
      if answers[0] == AcceptFailed(Interrupted) {
        AdmittedMeans(rest, taken, fd);
        ComesToRest(answers, taken, taken);
      } else if answers[0].Accepted? && IsNew(answers, taken, 0) {
        AdmittedMeans(rest, taken + {answers[0].fd}, fd);
        ComesToRest(answers, taken, taken + {answers[0].fd});
        if fd == answers[0].fd {
          assert ComesTo(answers, taken, 0 + 1);
        }
      } else {
        assert forall k :: 0 < k <= |answers| ==> !ComesTo(answers, taken, k);
      }
      if k :| 0 <= k < |rest| && rest[k] == Accepted(fd) && ComesTo(answers, taken, k + 2) {
        assert answers[k + 1] == Accepted(fd) && ComesTo(answers, taken, (k + 1) + 1);
      }
    }
  }

  lemma ComesToRest(answers: seq<AcceptAnswer>, taken: set<int>, taken': set<int>)
    requires answers != []
    requires if answers[0] == AcceptFailed(Interrupted) then taken' == taken
             else answers[0].Accepted? && IsNew(answers, taken, 0) && taken' == taken + {answers[0].fd}
    ensures forall k :: 0 <= k < |answers| ==>
              (ComesTo(answers[1..], taken', k) <==> ComesTo(answers, taken, k + 1))
  {
    var rest := answers[1..];
    forall j | 0 <= j < |rest|
      ensures IsNew(rest, taken', j) <==> IsNew(answers, taken, j + 1)
    {
      assert rest[j] == answers[j + 1];
      assert forall i :: 0 <= i < j ==> rest[i] == answers[i + 1];
      assert forall i :: 0 < i < j + 1 ==> answers[i] == rest[i - 1];
    }
    forall k | 0 <= k < |answers|
      ensures ComesTo(rest, taken', k) <==> ComesTo(answers, taken, k + 1)
    {
      assert forall j :: 0 < j < k + 1 ==> answers[j] == rest[j - 1];
      if ComesTo(rest, taken', k) {
        forall j | 0 <= j < k + 1
          ensures answers[j] == AcceptFailed(Interrupted) || IsNew(answers, taken, j)
        {
          if j > 0 {
            assert rest[j - 1] == AcceptFailed(Interrupted) || IsNew(rest, taken', j - 1);
          }
        }
      }
      if ComesTo(answers, taken, k + 1) {
        forall j | 0 <= j < k
          ensures rest[j] == AcceptFailed(Interrupted) || IsNew(rest, taken', j)
        {
          assert answers[j + 1] == AcceptFailed(Interrupted) || IsNew(answers, taken, j + 1);
        }
      }
    }
  }


  class Server {
    const listener: int
    var conns: map<int, Connection>
    var epoll: map<int, Interest>        // what is registered with _ep
    ghost var open: set<int>             // the kernel's open sockets of this process
    ghost var all: set<Connection>       // every connection there ever was
    ghost var readers: seq<Connection>   // read handler calls made so far
    ghost var writers: seq<Connection>   // write handler calls made by dispatcher so far

    ghost predicate Wired()
      reads `conns, `epoll, `open, `all, all
    {
      && conns.Keys == epoll.Keys == open
      && (forall fd :: fd in conns ==> conns[fd] in all && conns[fd].sock == fd)
      && listener in conns && conns[listener].listening && conns[listener].longlive
      && (forall fd :: fd in conns && fd != listener ==> !conns[fd].listening)
      && (forall fd :: fd in epoll ==> epoll[fd] == InOnly)
    }

    /** No connection there ever was, open or closed, has lost a byte or sent one twice. */
    ghost predicate AllConserved()
      reads this, all
    {
      forall c :: c in all ==> Conserved(c.Exchanged())
    }

    /** The tables agree, and every connection there ever was, open or closed, has conserved its bytes. */
    ghost predicate Valid()
      reads `conns, `epoll, `open, `all, all
      ensures Valid() ==> Wired() && AllConserved() && conns.Keys == epoll.Keys
    {
      Wired() && forall c :: c in all ==> c.Sound()
    }

    constructor (listener: int)
      ensures Valid() && conns.Keys == {listener} && readers == [] && writers == []
      ensures fresh(all) && this.listener == listener
    {
      var c := new Connection(listener, true, true, 0);
      this.listener := listener;
      conns, epoll, open, all := map[listener := c], map[listener := InOnly], {listener}, {c};
      readers, writers := [], [];
      FreshIsConserved();
    }

    /** The status of every connection there ever was. */
    ghost function Statuses(): (status: map<Connection, Status>)
      reads `all, all
      ensures (forall c :: c in all ==> c in status) && (forall c :: c in status ==> c in all)
      ensures forall c :: c in all ==> status[c] == c.View()
    {
      map c | c in all :: c.View()
    }

    ghost function Now(): World
      reads `conns, `all, all
    {
      World(conns, Statuses())
    }

    method CloseFd(pc: Connection)
      requires Wired() && pc.sock in conns && conns[pc.sock] == pc && pc.sock != listener
      modifies this`conns, this`epoll, this`open
      ensures Wired()
      ensures conns == old(conns) - {pc.sock}
    {
      epoll := epoll - {pc.sock};
      open := open - {pc.sock};
      conns := conns - {pc.sock};
    }

    /** The body of acceptor's loop for one accepted descriptor. */
    method Admit(fd: int, now: Time)
      requires Wired() && fd !in conns
      modifies this`conns, this`epoll, this`open, this`all
      ensures Wired()
      ensures fd in conns && conns == old(conns)[fd := conns[fd]] && !conns[fd].listening
      ensures fresh(conns[fd]) && conns[fd].View() == Status(NO_TRAFFIC, Clock(false, now))
      ensures all == old(all) + {conns[fd]} && forall c :: c in old(all) ==> c.View() == old(c.View())
    {
      var pc := new Connection(fd, false, false, now);
      conns, epoll, open, all := conns[fd := pc], epoll[fd := InOnly], open + {fd}, all + {pc};
    }

    /** The tables only grew, by clients that have been quiet since now. */
    twostate predicate OnlyGrown(now: Time)
      reads this, all
    {
      && old(all) <= all
      && (forall c :: c in all && c !in old(all) ==>
            fresh(c) && c.View() == Status(NO_TRAFFIC, Clock(false, now)) && !c.listening)
      && (forall fd :: fd in old(conns) ==> fd in conns && conns[fd] == old(conns)[fd])
      && (forall fd :: fd in conns && fd !in old(conns) ==> conns[fd] !in old(all))
    }

    /** Accepts until accept fails with anything but EINTR. */
    method Acceptor(answers: seq<AcceptAnswer>, now: Time)
      requires Wired()
      modifies this`conns, this`epoll, this`open, this`all
      ensures Wired() && OnlyGrown(now) && Joined(old(conns), conns, Admitted(answers, old(conns.Keys)))
    {
      hide Admitted, Conserved, Healthy;
      ghost var done, taken: set<int> := [], conns.Keys;
      assert answers[0..] == answers && [] + Admitted(answers, taken) == Admitted(answers, taken);
      for i := 0 to |answers|
        invariant Wired() && OnlyGrown(now) && Joined(old(conns), conns, done)
        invariant forall fd :: fd in conns <==> fd in taken
        invariant done + Admitted(answers[i..], taken) == Admitted(answers, old(conns.Keys))
      {
        AdmitTurn(done, answers, i, taken);
        match answers[i] {
          case Accepted(number) =>
            if number < 0 || number in conns {
              return;   // not a descriptor that accept could return
            }
            Admit(number, now);
            done, taken := done + [number], taken + {number};
          case AcceptFailed(Interrupted) =>
          case AcceptFailed(_) => return;
        }
      }
      assert answers[|answers|..] == [];
      NoneAdmitted(taken);
    }

    /** Writes until the buffer is empty, write would block, or the connection breaks. */
    method Writer(pc: Connection, answers: seq<WriteAnswer>, now: Time) returns (outcome: Outcome)
      requires Wired() && pc.sock in conns && conns[pc.sock] == pc && !pc.listening
      modifies this`conns, this`epoll, this`open, pc
      ensures Wired()
      ensures var w := WriteAll(old(pc.outbuf), answers);
        outcome == w.outcome && pc.Exchanged() == old(pc.Exchanged()).(sent := old(pc.sent) + w.sent, outbuf := w.left)
      ensures conns == if outcome.Closed? then old(conns) - {pc.sock} else old(conns)
      ensures pc.longlive == (old(pc.longlive) && !outcome.Finished?)
      ensures pc.lasttime == if outcome.Finished? then now else old(pc.lasttime)
    {
      hide WriteAll;
      ghost var done := "";
      assert answers[0..] == answers;
      assert SentAfter("", WriteAll(pc.outbuf, answers)) == WriteAll(pc.outbuf, answers) by {
        assert "" + WriteAll(pc.outbuf, answers).sent == WriteAll(pc.outbuf, answers).sent;
      }
      var i := 0;
      while true
        invariant i <= |answers| && Wired() && conns == old(conns)
        invariant pc.longlive == old(pc.longlive) && pc.lasttime == old(pc.lasttime)
        invariant WriteAll(old(pc.outbuf), answers) == SentAfter(done, WriteAll(pc.outbuf, answers[i..]))
        invariant pc.sent == old(pc.sent) + done && pc.received == old(pc.received) && pc.inbuf == old(pc.inbuf)
        decreases |answers| - i
      {
        if i == |answers| {
          WriteNone(done, pc.outbuf, answers[i..]);
          return Blocked;
        }
        WriteTurn(done, pc.outbuf, answers, i);
        if answers[i].WriteFailed? {
          if answers[i].errno.Again? {
            return Blocked;
          }
          if answers[i].errno.Broken? {
            CloseFd(pc);
            return Closed;
          }
        } else {
          var n := answers[i].n;
          if n == 0 || n > |pc.outbuf| {
            CloseFd(pc);
            return Closed;
          }
          Associate(old(pc.sent), done, pc.outbuf[..n]);
          pc.sent := pc.sent + pc.outbuf[..n];
          done := done + pc.outbuf[..n];
          pc.outbuf := pc.outbuf[n..];
          if pc.outbuf == "" {
            break;
          }
        }
        i := i + 1;
      }
      epoll := epoll[pc.sock := if pc.outbuf != "" then InOut else InOnly];
      pc.SetTime(false, now);
      return Finished;
    }

    /** The middle of recver's loop: append what was read, call cal_IO, then the writer. */
    method ServeData(pc: Connection, data: string, writes: seq<WriteAnswer>, now: Time) returns (outcome: Outcome)
      requires Wired() && pc.sock in conns && conns[pc.sock] == pc && !pc.listening
      modifies this`conns, this`epoll, this`open, pc
      ensures Wired()
      ensures Received(pc.Exchanged(), outcome) == Serve(old(pc.Exchanged()), data, writes)
      ensures conns == if outcome.Closed? then old(conns) - {pc.sock} else old(conns)
      ensures pc.longlive == (old(pc.longlive) && !outcome.Finished?)
      ensures pc.lasttime == if outcome.Finished? then now else old(pc.lasttime)
    {
      hide Drain, WriteAll, ReceiveAll, Conserved, Healthy;
      pc.received := pc.received + data;
      var input := new Text(pc.inbuf + data);
      var output := new Text(pc.outbuf);
      var ok := CalIO(input, output);
      pc.inbuf, pc.outbuf := input.s, output.s;
      if !ok {
        return Threw;
      }
      outcome := Writer(pc, writes, now);
    }

    /** Reads and serves until read would block, the connection ends, or cal_IO throws. */
    method Recver(pc: Connection, script: ReadScript, now: Time) returns (outcome: Outcome)
      requires Wired() && pc.sock in conns && conns[pc.sock] == pc && !pc.listening
      modifies this`conns, this`epoll, this`open, pc
      ensures Wired()
      ensures Received(pc.Exchanged(), outcome) == ReceiveAll(old(pc.Exchanged()), script)
      ensures conns == if outcome.Closed? then old(conns) - {pc.sock} else old(conns)
      ensures outcome.Closed? ==> pc.sock !in conns && pc.sock !in epoll && pc.sock !in open
      ensures !outcome.Closed? ==> pc.sock in conns && pc.sock in epoll && pc.sock in open
      ensures script != [] && (script[0].0 == Bytes("") || script[0].0 == ReadFailed(Broken)) ==> outcome.Closed?
      ensures !pc.longlive && pc.lasttime == now
    {
      pc.SetTime(false, now);
      assert script[0..] == script;
      for i := 0 to |script|
        invariant Wired() && conns == old(conns) && !pc.longlive && pc.lasttime == now
        invariant ReceiveAll(old(pc.Exchanged()), script) == ReceiveAll(pc.Exchanged(), script[i..])
      {
        assert script[i..][1..] == script[i + 1..];
        match script[i].0 {
          case ReadFailed(Again) => return Blocked;
          case ReadFailed(Interrupted) =>
          case ReadFailed(Broken) =>
            CloseFd(pc);
            return Closed;
          case Bytes(data) =>
            if data == "" {
              CloseFd(pc);
              return Closed;
            }
            outcome := ServeData(pc, data, script[i].1, now);
            if outcome.Closed? || outcome.Threw? {
              return;
            }
        }
      }
      return Blocked;
    }

    /** A call of a connection's read handler, which is recver. */
    method CallRecver(pc: Connection, script: ReadScript, now: Time) returns (crashed: bool)
      requires Valid() && pc.sock in conns && conns[pc.sock] == pc && !pc.listening
      modifies this`conns, this`epoll, this`open, this`readers, pc
      ensures Wired() && AllConserved() && (!crashed ==> Valid())
      ensures var r := ReadHandler(old(pc.View()), script, now);
        Effect(old(Now()), Now(), pc, r, now) && crashed == r.outcome.Threw?
      ensures readers == old(readers) + [pc]
    {
      hide Conserved, Healthy, ReceiveAll, Effect;
      assert pc.Sound();
      ReceiveConserves(pc.Exchanged(), script);
      var outcome := LoggedRecver(pc, script, now);
      crashed := outcome.Threw?;
    }

    method LoggedRecver(pc: Connection, script: ReadScript, now: Time) returns (outcome: Outcome)
      requires Wired() && pc.sock in conns && conns[pc.sock] == pc && !pc.listening
      modifies this`conns, this`epoll, this`open, this`readers, pc
      ensures Wired() && readers == old(readers) + [pc]
      ensures var r := ReadHandler(old(pc.View()), script, now);
        Effect(old(Now()), Now(), pc, r, now) && pc.View() == r.status && outcome == r.outcome
    {
      hide ReceiveAll, Drain, Conserved, Healthy;
      hide Effect;
      ghost var w := Now();
      readers := readers + [pc];
      outcome := Recver(pc, script, now);
      OneClient(w, Now(), pc, ReadHandler(old(pc.View()), script, now), now);
    }

    /** A call of a connection's write handler. */
    method CallWriter(pc: Connection, answers: seq<WriteAnswer>, now: Time)
      requires Valid() && pc.sock in conns && conns[pc.sock] == pc && !pc.listening
      modifies this`conns, this`epoll, this`open, this`writers, pc
      ensures Valid()
      ensures var r := WriteHandler(old(pc.View()), answers, now);
        Effect(old(Now()), Now(), pc, r, now) && !r.outcome.Threw?
      ensures writers == old(writers) + [pc]
    {
      hide Conserved, Healthy, WriteAll, Effect;
      assert pc.Sound();
      FlushConserves(pc.Exchanged(), answers);
      LoggedWriter(pc, answers, now);
    }

    method LoggedWriter(pc: Connection, answers: seq<WriteAnswer>, now: Time)
      requires Wired() && pc.sock in conns && conns[pc.sock] == pc && !pc.listening
      modifies this`conns, this`epoll, this`open, this`writers, pc
      ensures Wired() && writers == old(writers) + [pc]
      ensures var r := WriteHandler(old(pc.View()), answers, now);
        Effect(old(Now()), Now(), pc, r, now) && pc.View() == r.status
    {
      hide WriteAll, Drain, Conserved, Healthy;
      hide Effect;
      ghost var w, r := Now(), WriteHandler(pc.View(), answers, now);
      writers := writers + [pc];
      var _ := Writer(pc, answers, now);
      OneClient(w, Now(), pc, r, now);
    }

    /** A call of the listener's read handler. */
    method CallAcceptor(pc: Connection, answers: seq<AcceptAnswer>, now: Time)
      requires Valid() && pc.sock in conns && conns[pc.sock] == pc && pc.listening
      modifies this`conns, this`epoll, this`open, this`all, this`readers
      ensures Valid() && old(all) <= all && fresh(all - old(all))
      ensures forall r :: Effect(old(Now()), Now(), pc, r, now)
      ensures Joined(old(conns), conns, Admitted(answers, old(conns.Keys)))
      ensures readers == old(readers) + [pc]
    {
      hide Conserved, Healthy, Joined, Admitted, Effect;
      FreshIsConserved();
      LoggedAcceptor(pc, answers, now);
      forall c | c in all
        ensures c.Sound()
      {
        if c in old(all) {
          assert old(c.Sound());
        }
      }
    }

    method LoggedAcceptor(pc: Connection, answers: seq<AcceptAnswer>, now: Time)
      requires Wired() && pc.sock in conns && conns[pc.sock] == pc && pc.listening
      modifies this`conns, this`epoll, this`open, this`all, this`readers
      ensures Wired() && OnlyGrown(now) && readers == old(readers) + [pc]
      ensures forall r :: Effect(old(Now()), Now(), pc, r, now)
      ensures Joined(old(conns), conns, Admitted(answers, old(conns.Keys)))
    {
      hide Joined, Admitted;
      readers := readers + [pc];
      Acceptor(answers, now);
    }

    /** The first half of dispatcher's loop body. */
    method OnReadable(e: Event, now: Time) returns (crashed: bool)
      requires Valid() && e.fd in conns && conns[e.fd].sock == e.fd
      modifies `conns, `epoll, `open, `all, `readers, all
      ensures Wired() && AllConserved() && (!crashed ==> Valid()) && old(all) <= all && fresh(all - old(all))
      ensures var pc, r := old(conns)[e.fd], ReadHandler(old(conns[e.fd].View()), e.incoming, now);
        && Effect(old(Now()), Now(), pc, r, now)
        && crashed == (!pc.listening && r.outcome.Threw?)
        && readers == old(readers) + [pc]
        && (pc.listening ==> Joined(old(conns), conns, Admitted(e.arrivals, old(conns.Keys))))
    {
      hide Valid, Effect, ReadHandler, Conserved, Admitted, Joined;
      var pc := conns[e.fd];
      crashed := false;
      if pc.listening {
        CallAcceptor(pc, e.arrivals, now);
      } else {
        crashed := CallRecver(pc, e.incoming, now);
      }
    }

    /** The second half: nothing if the connection is gone or has no write handler. */
    method OnWritable(ghost pc: Connection, e: Event, now: Time) returns (ghost r: Handled)
      requires Valid() && pc in all && pc.sock == e.fd && (e.fd in conns ==> conns[e.fd] == pc)
      modifies `conns, `epoll, `open, `writers, all
      ensures Valid() && Effect(old(Now()), Now(), pc, r, now) && all == old(all)
      ensures if old(e.fd in conns) && !pc.listening
              then r == WriteHandler(old(pc.View()), e.outgoing, now) && writers == old(writers) + [pc]
                   && !r.outcome.Threw?
              else conns == old(conns) && writers == old(writers)
                   && r == Handled(old(pc.View()), if old(e.fd in conns) then Blocked else Closed)
    {
      hide Effect, WriteHandler;
      if e.fd in conns && !conns[e.fd].listening {
        r := WriteHandler(pc.View(), e.outgoing, now);
        CallWriter(conns[e.fd], e.outgoing, now);
      } else {
        r := Handled(pc.View(), if e.fd in conns then Blocked else Closed);
        NoEffect(Now(), pc, r, now);
      }
    }

    /** The body of dispatcher's loop: the read handler, then the write handler if the connection is still there. */
    method Dispatch(e: Event, now: Time) returns (crashed: bool)
      requires Valid() && e.fd in conns && conns[e.fd] in all && conns[e.fd].sock == e.fd
      modifies this, all
      ensures Wired() && AllConserved() && (!crashed ==> Valid()) && old(all) <= all && fresh(all - old(all))
      ensures var pc, r := old(conns)[e.fd], Handle(old(conns[e.fd].View()), e, now);
        Effect(old(Now()), Now(), pc, r, now) && crashed == (!pc.listening && r.outcome.Threw?)
      ensures e.input || e.hangup ==> readers == old(readers) + [old(conns)[e.fd]]
      ensures !e.input && !e.hangup ==> readers == old(readers)
      ensures var pc, c := old(conns)[e.fd], old(conns[e.fd].Exchanged());
        var r := if e.input || e.hangup then ReceiveAll(c, e.incoming) else Received(c, Blocked);
        if !pc.listening && (e.output || e.hangup) && !r.outcome.Closed? && !r.outcome.Threw?
        then writers == old(writers) + [pc] && pc.Exchanged() == Flush(r.traffic, e.outgoing).traffic
        else writers == old(writers) && pc.Exchanged() == if pc.listening then c else r.traffic
      ensures old(conns)[e.fd].listening ==>
        Joined(old(conns), conns, if e.input || e.hangup then Admitted(e.arrivals, old(conns.Keys)) else [])
    {
      hide Valid, Wired, ReadHandler, WriteHandler, ReceiveAll, Flush, Conserved, Effect, Admitted;
      ghost var pc, w0, s := conns[e.fd], Now(), conns[e.fd].View();
      crashed := false;
      ghost var r := Handled(s, Blocked);
      NoEffect(w0, pc, r, now);
      if e.input || e.hangup {
        r := ReadHandler(s, e.incoming, now);
        crashed := OnReadable(e, now);
      }
      EffectOnIt(w0, Now(), pc, r, now);
      ghost var w1 := Now();
      if !crashed && (e.output || e.hangup) {
        ghost var r1 := r;
        r := OnWritable(pc, e, now);
        TwoEffects(w0, w1, Now(), pc, r1, r, now);
        EffectOnIt(w0, Now(), pc, r, now);
      }
      SameEffect(w0, Now(), pc, r, Handle(s, e, now), now);
      HandleMeans(s, e, now);
    }

    /** The pass that begins now. */
    ghost function Begin(batch: seq<Event>, now: Time): Pass
      reads this, all
    {
      Pass(batch, now, Now(), readers, writers)
    }

    /** The first n reports of the pass have been served, and the handler calls made are theirs. */
    ghost predicate Served(p: Pass, n: nat)
      requires Proper(p) && n <= |p.batch|
      reads this, all
    {
      && HasServed(p, n, Now())
      && readers == p.readers + Readers(p, n) && writers == p.writers + Writers(p, n)
    }

    lemma BeginServed(batch: seq<Event>, now: Time)
      requires Valid() && Reportable(batch, conns.Keys)
      ensures var p := Begin(batch, now); Proper(p) && Served(p, 0)
    {
      hide HasServed;
      NothingServed(Begin(batch, now));
    }

    /** The turn of dispatcher's loop for report number i. */
    method Turn(ghost p: Pass, e: Event, ghost i: nat, now: Time) returns (crashed: bool)
      requires Proper(p) && i < |p.batch| && p.batch[i] == e && p.now == now && Valid() && Served(p, i)
      modifies this, all
      ensures Wired() && AllConserved() && (!crashed ==> Valid()) && old(all) <= all && fresh(all - old(all))
      ensures Served(p, i + 1) && crashed == Breaks(p, i)
    {
      hide Valid, Wired, AllConserved, HasServed, Effect, Reportable, Readers, Writers, Conserved, ReceiveAll, Flush;
      ghost var w := Now();
      NextReport(p, i, w);
      CallsStep(p, i);
      HandleMeans(p.start.status[Of(p, i)], e, now);
      crashed := Dispatch(e, now);
      ServedStep(p, i, w, Now());
    }

    /** dispatcher's loop. */
    method DispatchAll(ghost p: Pass, batch: seq<Event>, now: Time) returns (crashed: bool, ghost served: nat)
      requires Proper(p) && p.batch == batch && p.now == now && Valid() && Served(p, 0)
      modifies this, all
      ensures Wired() && AllConserved() && (!crashed ==> Valid()) && old(all) <= all && fresh(all - old(all))
      ensures served <= |batch| && Served(p, served)
      ensures if crashed then served > 0 && Breaks(p, served - 1) else served == |batch|
      ensures forall i :: 0 <= i < (if crashed then served - 1 else served) ==> !Breaks(p, i)
    {
      hide Valid, Wired, AllConserved, Proper, Served, Breaks;
      crashed, served := false, 0;
      for i := 0 to |batch|
        invariant Valid() && Served(p, i) && old(all) <= all && fresh(all - old(all))
        invariant forall j :: 0 <= j < i ==> !Breaks(p, j)
      {
        crashed := Turn(p, batch[i], i, now);
        served := i + 1;
        if crashed {
          return;
        }
      }
      served := |batch|;
    }

    /**
      One pass over the ready descriptors. Whatever is closed and accepted on the way, every handler call is made
      on the connection that was registered under the reported number when the pass began, while it is still
      registered; the calls made, and what they leave of every connection, are those of the reports one by one.
    */
    method Dispatcher(batch: seq<Event>, now: Time) returns (crashed: bool, ghost served: nat)
      requires Valid() && Reportable(batch, conns.Keys)
      modifies this, all
      ensures Wired() && AllConserved() && (!crashed ==> Valid()) && old(all) <= all && fresh(all - old(all))
      ensures served <= |batch| && Proper(old(Begin(batch, now))) && Served(old(Begin(batch, now)), served)
      ensures var p := old(Begin(batch, now));
        && (if crashed then served > 0 && Breaks(p, served - 1) else served == |batch|)
        && forall i :: 0 <= i < (if crashed then served - 1 else served) ==> !Breaks(p, i)
    {
      hide Valid, Wired, AllConserved, Proper, Served, Breaks;
      BeginServed(batch, now);
      crashed, served := DispatchAll(Begin(batch, now), batch, now);
    }

    /** The body of run's sweep: close a connection that has been quiet for too long. */
    method Expire(fd: int, now: Time)
      requires Valid() && fd in conns
      modifies `conns, `epoll, `open
      ensures Valid()
      ensures conns == if TimesOut(old(conns[fd].View().clock), now) then old(conns) - {fd} else old(conns)
    {
      if TimesOut(Clock(conns[fd].longlive, conns[fd].lasttime), now) {
        CloseFd(conns[fd]);
      }
    }

    /**
      run's sweep over a snapshot of the table, whose keys come in some order: close exactly the connections
      that have been quiet for too long.
    */
    method Sweep(order: seq<int>, now: Time)
      requires Valid()
      modifies `conns, `epoll, `open
      ensures Valid()
      ensures Swept(old(Now()), conns, order, now)
    {
      ghost var w := Now();
      AllListed();
      SweepOut(order, now);
      forall fd | fd in old(conns)
        ensures var k := old(conns[fd].View().clock);
          TimesOut(k, now) <==>
            && !k.longlive
            && if k.lasttime <= now then now - k.lasttime > 300
               else now + 0x1_0000_0000_0000_0000 - k.lasttime > 300
      {
        TimesOutMeans(old(conns[fd].View().clock), now);
      }
    }

    method SweepOut(order: seq<int>, now: Time)
      requires Valid()
      modifies `conns, `epoll, `open
      ensures Valid()
      ensures forall fd :: fd in old(conns) ==>
                (fd !in conns <==> fd in order && TimesOut(old(conns[fd].View().clock), now))
      ensures forall fd :: fd in conns ==> fd in old(conns) && conns[fd] == old(conns)[fd]
    {
      hide Valid, Wired, TimesOut;
      for i := 0 to |order|
        invariant Valid() && forall fd :: fd in conns ==> fd in old(conns) && conns[fd] == old(conns)[fd]
        invariant forall fd :: fd in old(conns) ==>
                    (fd !in conns <==> fd in order[..i] && TimesOut(old(conns[fd].View().clock), now))
      {
        if order[i] in conns {
          Expire(order[i], now);
        }
      }
    }

    lemma AllListed()
      requires Wired()
      ensures forall f :: f in conns ==> conns[f] in all
    {
    }

    /** The first half of a turn: wait, and dispatch if something is ready. */
    method WaitAndDispatch(t: Round) returns (crashed: bool, ghost p: Pass, ghost served: nat)
      requires Valid()
      modifies this, all
      ensures Wired() && AllConserved() && (!crashed ==> Valid()) && old(all) <= all && fresh(all - old(all))
      ensures IsPassOf(p, served, Now(), t)
      ensures if crashed then served > 0 && Breaks(p, served - 1) else served == |p.batch|
      ensures forall i :: 0 <= i < (if crashed then served - 1 else served) ==> !Breaks(p, i)
      ensures p.start == old(Now()) && p.readers == old(readers) && p.writers == old(writers)
      ensures readers == p.readers + Readers(p, served) && writers == p.writers + Writers(p, served)
    {
      hide Valid, Wired, AllConserved, HasServed, Reportable, Conserved, Readers, Writers, Breaks, Proper;
      var batch := Reported(t.ready, epoll.Keys);
      p := Begin(batch, t.now);
      BeginServed(batch, t.now);
      crashed, served := false, 0;
      if |batch| > 0 {
        crashed, served := Dispatcher(batch, t.now);
      }
    }

    /** One turn of the main loop. */
    method Around(t: Round) returns (crashed: bool, ghost l: Lap)
      requires Valid()
      modifies this, all
      ensures Wired() && AllConserved() && (!crashed ==> Valid()) && old(all) <= all && fresh(all - old(all))
      ensures if crashed then IsLastLap(l, t) else IsLap(l, t)
      ensures l.pass.start == old(Now()) && l.pass.readers == old(readers) && l.pass.writers == old(writers)
      ensures LeadsTo(l, Now(), readers, writers)
    {
      hide Valid, Wired, AllConserved, IsPassOf, Readers, Writers, Breaks, HasServed, Proper, Swept;
      ghost var p, served;
      crashed, p, served := WaitAndDispatch(t);
      ghost var met := Now();
      if !crashed {
        Sweep(t.order, t.now);
      }
      l := Lap(p, served, met, conns);
    }

    /**
      Any number of turns of the main loop, with any ready sets, kernel answers, clock readings and table orders: every
      turn serves what was reported and then sweeps, and begins where the one before it ended.
    */
    method Run(turns: seq<Round>) returns (crashed: bool, ghost laps: seq<Lap>)
      requires Valid()
      modifies this, all
      ensures Wired() && AllConserved() && (!crashed ==> Valid())
      ensures old(all) <= all && fresh(all - old(all))
      ensures |laps| <= |turns| && AreLaps(laps, turns[..|laps|], crashed) && (!crashed ==> |laps| == |turns|)
      ensures RunsFromTo(laps, old(Now()), old(readers), old(writers), Now(), readers, writers)
    {
      hide Valid, Wired, AllConserved, IsLap, IsLastLap, LeadsTo;
      crashed, laps := false, [];
      for i := 0 to |turns|
        invariant Valid() && old(all) <= all && fresh(all - old(all))
        invariant |laps| == i && AreLaps(laps, turns[..i], false)
        invariant RunsFromTo(laps, old(Now()), old(readers), old(writers), Now(), readers, writers)
      {
        ghost var l;
        crashed, l := Around(turns[i]);
        OneMoreLap(laps, turns, l, crashed, old(Now()), old(readers), old(writers), Now(), readers, writers);
        laps := laps + [l];
        if crashed {
          return;
        }
      }
    }
  }
}
