/** The protocol stream: requests on lines, and the bodies of puts between them. */
module Requests {
  import opened Ids
  import opened Text
  import Base64
  import opened Buffered
  import opened BodyStream

  predicate IsJsonSpace(b: Byte) {
    b == 32 || b == 10 || b == 13 || b == 9
  }

  function DropSpace(rest: Bytes): Bytes {
    if rest != [] && IsJsonSpace(rest[0]) then DropSpace(rest[1..]) else rest
  }

  /** The spaces go, whichever of the four they are, and nothing after them. */
  lemma {:induction false} DropsSpaces(spaces: Bytes, text: Bytes)
    requires forall i :: 0 <= i < |spaces| ==> spaces[i] in {32, 10, 13, 9}
    requires text == [] || text[0] !in {32, 10, 13, 9}
    ensures DropSpace(spaces + text) == text
  {
    if spaces == [] {
      assert spaces + text == text;
    } else {
      DropsSpaces(spaces[1..], text);
      assert (spaces + text)[1..] == spaces[1..] + text;
    }
  }

  method SkipWhitespace(br: BufReader) returns (e: Option<Err>)
    requires br.Valid()
    modifies br, br.buf
    ensures br.Valid() && br.rest == DropSpace(old(br.rest))
    ensures e == if DropSpace(old(br.rest)) == [] then Some(br.endErr) else None
  {
    while true
      invariant br.Valid() && DropSpace(br.rest) == DropSpace(old(br.rest))
      decreases |br.rest|
    {
      ghost var rest := br.rest;
      var b;
      b, e := br.ReadByte();
      if e.Some? {
        return;
      }
      assert rest[0] == b && rest[1..] == br.rest;
      if IsJsonSpace(b) {
        continue;
      }
      e := br.UnreadByte();
      return;
    }
  }

  method NewJsonStringReader(br: BufReader) returns (r: JsonStringReader?, e: Option<Err>)
    requires br.Valid()
    modifies br, br.buf
    ensures br.Valid()
    ensures
      var text := DropSpace(old(br.rest));
      if text == [] then r == null && e == Some(br.endErr)
      else if text[0] != 34 then r == null && e == Some(NotAString)
      else e.None? && r != null && fresh(r) && r.br == br && r.Valid() && !r.done && r.pending == [] &&
           Splits(text[1..], r.Undelivered(), r.after)
  {
    e := SkipWhitespace(br);
    if e.Some? {
      return null, e;
    }
    ghost var text := br.rest;
    var b;
    b, e := br.ReadByte();
    assert text[0] == b && text[1..] == br.rest;
    if b != QUOTE {
      return null, Some(NotAString);
    }
    r := new JsonStringReader(br);
  }

  lemma LineGrows(line: Bytes, part: Bytes, delim: Byte, tail: Bytes)
    requires delim !in line
    ensures IsLine(part, delim) ==> IsLine(line + part, delim)
    ensures delim !in part ==> delim !in line + part
    ensures line + (part + tail) == line + part + tail
  {
    if IsLine(part, delim) {
      assert (line + part)[..|line + part| - 1] == line + part[..|part| - 1];
    }
  }

  method ReadBytes(br: BufReader, delim: Byte) returns (line: Bytes, e: Option<Err>)
    requires br.Valid()
    modifies br, br.buf
    ensures br.Valid() && line + br.rest == old(br.rest)
    ensures e.None? ==> IsLine(line, delim)
    ensures e.Some? ==> e == Some(br.endErr) && delim !in line && br.rest == []
  {
    line := [];
    ghost var all := br.rest;
    while true
      invariant br.Valid() && line + br.rest == all && delim !in line
      decreases |br.rest|
    {
      ghost var rest := br.rest;
      var lo, hi;
      ghost var got;
      lo, hi, e, got := br.ReadSlice(delim);
      var part := br.buf[lo..hi];
      LineGrows(line, part, delim, br.rest);
      line := line + part;
      if e != Some(BufferFull) {
        return;
      }
    }
  }

  /** The first line that is not blank, trimmed, what follows it, and whether it ended. */
  datatype Line = Line(text: Bytes, rest: Bytes, ended: bool)

  function NextLine(rest: Bytes): Option<Line>
    decreases |rest|, 1
  {
    LineAt(rest, IndexByte(rest, NEWLINE))
  }

  /** The same, once it is known where the first line ends. */
  function LineAt(rest: Bytes, i: nat): Option<Line>
    decreases |rest|, 0
  {
    if i < |rest| then
      if TrimSpace(rest[..i + 1]) == [] then NextLine(rest[i + 1..])
      else Some(Line(TrimSpace(rest[..i + 1]), rest[i + 1..], true))
    else if TrimSpace(rest) == [] then None
    else Some(Line(TrimSpace(rest), [], false))
  }

  lemma NextOnLine(line: Bytes, tail: Bytes)
    requires IsLine(line, NEWLINE)
    ensures NextLine(line + tail) ==
      if TrimSpace(line) == [] then NextLine(tail) else Some(Line(TrimSpace(line), tail, true))
  {
    var rest := line + tail;
    assert rest[..|line| - 1] == line[..|line| - 1];
    FirstIndex(rest, NEWLINE, |line| - 1);
    assert rest[..|line|] == line && rest[|line|..] == tail;
    assert NextLine(rest) == LineAt(rest, |line| - 1);
  }

  lemma NextAtEnd(line: Bytes)
    requires NEWLINE !in line
    ensures NextLine(line) == if TrimSpace(line) == [] then None else Some(Line(TrimSpace(line), [], false))
  {
    assert IndexByte(line, NEWLINE) == |line|;
    assert NextLine(line) == LineAt(line, |line|);
  }

  /** Reads lines until one is not blank. A source that ends after an unterminated line still
      has that line, with the source's error if it failed. */
  method ReadLine(br: BufReader) returns (line: Bytes, e: Option<Err>)
    requires br.Valid()
    modifies br, br.buf
    ensures br.Valid()
    ensures match NextLine(old(br.rest))
            case None => line == [] && e == Some(br.endErr) && br.rest == []
            case Some(next) =>
              line == next.text && line != [] && br.rest == next.rest &&
              e == if next.ended then None else Some(br.endErr)
  {
    ghost var next := NextLine(br.rest);
    while true
      invariant br.Valid() && NextLine(br.rest) == next
      decreases |br.rest|
    {
      ghost var rest := br.rest;
      line, e := ReadBytes(br, NEWLINE);
      if e.None? {
        NextOnLine(line, br.rest);
      } else {
        assert line == rest;
        NextAtEnd(line);
      }
      line := TrimSpace(line);
      if line != [] || e.Some? {
        return;
      }
    }
  }

  /******* Requests *******/

  datatype Command = Get | Put | Close | Other

  datatype Request = Request(id: int, command: Command, action: Bytes, output: Bytes, bodySize: int)

  /** What lines decode to; one that is not there is no request. */
  type Decoder = map<Bytes, Request>

  const NO_REQUEST := Request(0, Other, [], [], 0)

  /** How the next request reads: a source that merely ended is no error after a line. */
  function HowItReads(decode: Decoder, next: Option<Line>, endErr: Err): Option<Err> {
    match next
    case None => Some(endErr)
    case Some(line) =>
      if line.text !in decode then Some(Malformed)
      else if !line.ended && endErr.Failed? then Some(Failed)
      else None
  }

  /** Reads one request: its line decodes, or the stream is given up. */
  method ReadRequest(br: BufReader, decode: Decoder) returns (req: Request, e: Option<Err>)
    requires br.Valid()
    modifies br, br.buf
    ensures br.Valid()
    ensures
      var next := NextLine(old(br.rest));
      && e == HowItReads(decode, next, br.endErr)
      && (e.None? ==> req == decode[next.value.text])
      && br.rest == if next.Some? then next.value.rest else []
  {
    var line;
    line, e := ReadLine(br);
    req := NO_REQUEST;
    if line == [] {
      return;
    }
    if line !in decode {
      return req, Some(Malformed);
    }
    req := decode[line];
    if e == Some(Eof) {
      e := None;
    }
  }

  /** What the store gets to answer, or why the request is refused before it does. */
  datatype Reply = Handled(body: Option<Bytes>) | Refused(why: Err)

  /** A put takes a body off the stream only once its ids are there and its size is
      positive. */
  predicate TakesBody(req: Request) {
    req.command.Put? && req.action != [] && req.output != [] && req.bodySize > 0
  }

  function ReplyTo(req: Request, body: Option<Bytes>): Reply {
    match req.command
    case Get => if req.action == [] then Refused(NoId) else Handled(None)
    case Put =>
      if req.action == [] || req.output == [] then Refused(NoId)
      else if req.bodySize < 0 then Refused(NegativeSize)
      else if req.bodySize == 0 then Handled(Some([]))
      else if body.None? then Refused(Eof)
      else if |body.value| != req.bodySize then Refused(WrongSize)
      else Handled(body)
    case Close => Handled(None)
    case Other => Refused(UnknownCommand)
  }

  /** The body of a closed JSON string without escapes, and what follows it. */
  function ClosedBody(text: Bytes): Option<(Bytes, Bytes)> {
    if text == [] || text[0] != QUOTE then None else
    var i := IndexByte(text[1..], QUOTE);
    if i == |text| - 1 then None else Some((text[1..][..i], text[1..][i + 1..]))
  }

  lemma ClosedBodySplits(text: Bytes, body: Bytes, after: Option<Bytes>)
    requires text != [] && text[0] == QUOTE && Splits(text[1..], body, after)
    ensures ClosedBody(text) == if after.Some? then Some((body, after.value)) else None
    ensures after.None? ==> body == text[1..]
  {
    SplitIndex(text[1..], body, after);
    if after.Some? {
      assert text[1..][|body| + 1..] == after.value;
    }
  }

  /** A body that was read: what it decodes to, if that has the size announced. */
  function Received(text: Bytes, bodySize: int): Reply {
    match Base64.Decode(text)
    case None => Refused(BadBase64)
    case Some(body) => if |body| == bodySize then Handled(Some(body)) else Refused(WrongSize)
  }

  /** It is handled exactly if it decodes to something of that size. */
  predicate IsReceived(text: Bytes, bodySize: int, reply: Reply) {
    match reply
    case Handled(body) => body.Some? && Base64.Decode(text) == body && |body.value| == bodySize
    case Refused(why) =>
      if Base64.Decode(text).None? then why == BadBase64
      else why == WrongSize && |Base64.Decode(text).value| != bodySize
  }

  /** What the reply and the rest of the stream are when a body is taken off this text by a
      reader with a buffer of this size. */
  predicate BodyTaken(text: Bytes, bodySize: int, size: nat, endErr: Err, reply: Reply, rest: Bytes)
    requires size > 0
  {
    if text == [] then reply == Refused(endErr)
    else if text[0] != 34 then reply == Refused(NotAString)
    else match ClosedBody(text)
      case Some((body, tail)) =>
        if 92 in body then reply.Refused? else IsReceived(body, bodySize, reply) && rest == tail
      case None =>
        var seen := Seen(text[1..], false, size);
        if 92 in seen then reply.Refused?
        else rest == [] && if endErr.Eof? then IsReceived(seen, bodySize, reply) else reply.Refused?
  }

  /** Takes a put's body off the stream and decodes it. A put that fails on its body reads on
      to the body's end. */
  method ReadBody(br: BufReader, bodySize: int, size: nat -> nat) returns (reply: Reply)
    requires br.Valid() && forall k :: size(k) > 0
    modifies br, br.buf
    ensures br.Valid() && BodyTaken(DropSpace(old(br.rest)), bodySize, br.buf.Length, br.endErr, reply, br.rest)
  {
    ghost var text := DropSpace(br.rest);
    var r, e := NewJsonStringReader(br);
    if e.Some? {
      return Refused(e.value);
    }
    ClosedBodySplits(text, r.Undelivered(), r.after);
    assert r.Undelivered() == r.coming && r.Examined() == r.ToSee();
    var got;
    got, e := r.Drain(size);
    if e.None? {
      return Received(got, bodySize);
    }
    reply := Refused(e.value);
    got, e := r.Drain(size);
  }

  /** What a request is told, and where it leaves the stream: only a put with both ids and a
      size above zero takes anything off it. */
  predicate IsReply(req: Request, before: Bytes, size: nat, endErr: Err, reply: Reply, after: Bytes)
    requires size > 0
  {
    match req.command
    case Get => reply == (if req.action == [] then Refused(NoId) else Handled(None)) && after == before
    case Close => reply == Handled(None) && after == before
    case Other => reply == Refused(UnknownCommand) && after == before
    case Put =>
      if req.action == [] || req.output == [] then reply == Refused(NoId) && after == before
      else if req.bodySize < 0 then reply == Refused(NegativeSize) && after == before
      else if req.bodySize == 0 then reply == Handled(Some([])) && after == before
      else BodyTaken(DropSpace(before), req.bodySize, size, endErr, reply, after)
  }

  method Handle(br: BufReader, req: Request, size: nat -> nat) returns (reply: Reply)
    requires br.Valid() && forall k :: size(k) > 0
    modifies br, br.buf
    ensures br.Valid() && IsReply(req, old(br.rest), br.buf.Length, br.endErr, reply, br.rest)
  {
    if TakesBody(req) {
      reply := ReadBody(br, req.bodySize, size);
    } else {
      reply := ReplyTo(req, None);
    }
  }

  /******* What a client sends is what is served *******/

  /** A request's line, and the content of the body if it sends one. */
  datatype Message = Message(line: Bytes, body: Option<Bytes>)

  /** A request line with nothing to trim, and a body exactly where the request takes one. */
  predicate WellFormed(decode: Decoder, m: Message) {
    && m.line != [] && LeadingSpace(m.line) == 0 && TrailingSpace(m.line) == 0 && NEWLINE !in m.line
    && m.line in decode && (m.body.Some? <==> TakesBody(decode[m.line]))
  }

  predicate AllWellFormed(decode: Decoder, ms: seq<Message>) {
    ms == [] || (WellFormed(decode, ms[0]) && AllWellFormed(decode, ms[1..]))
  }

  lemma {:induction false} WellFormedAt(decode: Decoder, ms: seq<Message>, i: nat)
    requires AllWellFormed(decode, ms) && i < |ms|
    ensures WellFormed(decode, ms[i])
  {
    if i > 0 {
      var j: nat := i - 1;
      WellFormedAt(decode, ms[1..], j);
    }
  }

  function Encode(m: Message): Bytes {
    m.line + [10] +
      match m.body { case None => [] case Some(b) => [34] + Base64.Encode(b) + [34] + [10] }
  }

  /** What follows a message's line. */
  function AfterLine(m: Message, tail: Bytes): Bytes {
    match m.body
    case None => tail
    case Some(b) => [QUOTE] + Base64.Encode(b) + [QUOTE] + ([NEWLINE] + tail)
  }

  lemma EncodeWithTail(m: Message, tail: Bytes)
    ensures Encode(m) + tail == m.line + [NEWLINE] + AfterLine(m, tail)
    ensures DropSpace(AfterLine(m, tail)) == AfterLine(m, tail) || m.body.None?
  {
  }

  /** The messages from the i-th on, one after another, and whatever follows them. */
  function EncodeFrom(ms: seq<Message>, i: nat, tail: Bytes): Bytes
    decreases |ms| - i
  {
    if i < |ms| then Encode(ms[i]) + EncodeFrom(ms, i + 1, tail) else tail
  }

  lemma NextOfMessage(line: Bytes, lead: Bytes, tail: Bytes)
    requires line != [] && LeadingSpace(line) == 0 && TrailingSpace(line) == 0 && NEWLINE !in line
    requires lead == [] || lead == [NEWLINE]
    ensures NextLine(lead + (line + [NEWLINE] + tail)) == Some(Line(line, tail, true))
  {
    var whole := line + [NEWLINE];
    TrimLine(line);
    assert whole[..|whole| - 1] == line;
    NextOnLine(whole, tail);
    NextAfterLead(lead, whole + tail);
  }

  lemma NextAfterLead(lead: Bytes, tail: Bytes)
    requires lead == [] || lead == [NEWLINE]
    ensures NextLine(lead + tail) == NextLine(tail)
  {
    if lead == [NEWLINE] {
      TrimNewline();
      assert lead[..0] == [];
      NextOnLine(lead, tail);
    } else {
      assert lead + tail == tail;
    }
  }

  predicate IsClose(decode: Decoder, m: Message) {
    m.line in decode && decode[m.line].command.Close?
  }

  /** The end of the input is how a client shuts the helper down. */
  function EndOf(e: Option<Err>): Option<Err> {
    if e == Some(Eof) then None else e
  }

  /** What the client hears of a message, under the id it asked with. */
  function Answer(decode: Decoder, m: Message): (int, Reply)
  {
    var req := if m.line in decode then decode[m.line] else NO_REQUEST;
    (req.id, ReplyTo(req, m.body))
  }

  /** What the client hears: of a get or a close, that it was handled; of a put, what was
      stored, which is the content sent; and each refusal exactly where it is due. */
  ghost predicate IsHeard(req: Request, body: Option<Bytes>, reply: Reply) {
    var named := req.action != [] && req.output != [];
    && (reply == Handled(None) <==> (req.command.Get? && req.action != []) || req.command.Close?)
    && (reply == Refused(NoId) <==> (req.command.Get? && req.action == []) || (req.command.Put? && !named))
    && (reply == Refused(NegativeSize) <==> req.command.Put? && named && req.bodySize < 0)
    && (reply == Refused(UnknownCommand) <==> req.command.Other?)
    && (reply == Refused(WrongSize) <==>
          req.command.Put? && named && req.bodySize > 0 && body.Some? && |body.value| != req.bodySize)
    && (reply == Handled(Some([])) <==> req.command.Put? && named && req.bodySize == 0)
    && (forall b :: b != [] ==>
          (reply == Handled(Some(b)) <==> req.command.Put? && named && body == Some(b) && |b| == req.bodySize))
  }

  lemma AnswerIsHeard(decode: Decoder, m: Message)
    requires WellFormed(decode, m)
    ensures Answer(decode, m).0 == decode[m.line].id && IsHeard(decode[m.line], m.body, Answer(decode, m).1)
  {
  }

  lemma BodyOfMessage(rest: Bytes, body: Bytes, tail: Bytes)
    requires QUOTE !in body && rest == [QUOTE] + body + [QUOTE] + tail
    ensures DropSpace(rest) == rest && ClosedBody(rest) == Some((body, tail))
  {
    assert rest[1..] == body + [QUOTE] + tail;
    SplitsIsJoined(rest[1..], body, Some(tail));
    ClosedBodySplits(rest, body, Some(tail));
  }

  /** A body that was sent is the one that is taken. */
  lemma SentIsTaken(body: Bytes, bodySize: int, size: nat, endErr: Err, before: Bytes, tail: Bytes, reply: Reply,
                    after: Bytes)
    requires size > 0 && before == [QUOTE] + Base64.Encode(body) + [QUOTE] + tail
    requires BodyTaken(DropSpace(before), bodySize, size, endErr, reply, after)
    ensures reply == (if |body| == bodySize then Handled(Some(body)) else Refused(WrongSize)) && after == tail
  {
    Base64.EncodingIsQuotable(body);
    Base64.RoundTrip(body);
    BodyOfMessage(before, Base64.Encode(body), tail);
  }

  lemma ReplyIsAnswer(decode: Decoder, sent: Message, tail: Bytes, size: nat, endErr: Err, reply: Reply, after: Bytes)
      returns (lead: Bytes)
    requires size > 0 && WellFormed(decode, sent)
    requires IsReply(decode[sent.line], AfterLine(sent, tail), size, endErr, reply, after)
    ensures (decode[sent.line].id, reply) == Answer(decode, sent) && after == lead + tail
    ensures (lead == [] || lead == [NEWLINE]) && (decode[sent.line].command.Close? ==> lead == [])
  {
    lead := if sent.body.Some? then [NEWLINE] else [];
    if sent.body.Some? {
      SentIsTaken(sent.body.value, decode[sent.line].bodySize, size, endErr, AfterLine(sent, tail), lead + tail, reply,
                  after);
    } else {
      assert lead + tail == tail;
    }
  }

  /** Handles a request that was sent, and its body if it takes one: the stream is left at
      the end of it, for any buffer, any chunks and any read sizes. */
  method HandleSent(br: BufReader, decode: Decoder, req: Request, size: nat -> nat,
                    ghost sent: Message, ghost tail: Bytes)
      returns (reply: Reply, ghost lead: Bytes)
    requires br.Valid() && forall k :: size(k) > 0
    requires WellFormed(decode, sent) && decode[sent.line] == req && br.rest == AfterLine(sent, tail)
    modifies br, br.buf
    ensures br.Valid() && (req.id, reply) == Answer(decode, sent)
    ensures (lead == [] || lead == [NEWLINE]) && (req.command.Close? ==> lead == []) && br.rest == lead + tail
  {
    reply := Handle(br, req, size);
    lead := ReplyIsAnswer(decode, sent, tail, br.buf.Length, br.endErr, reply, br.rest);
  }

  /** What the next message on the stream reads as, after what the last one left. */
  lemma NextSent(decode: Decoder, sent: seq<Message>, n: nat, lead: Bytes, tail: Bytes)
    requires n <= |sent| && (lead == [] || lead == [NEWLINE])
    requires n < |sent| ==> WellFormed(decode, sent[n])
    ensures NextLine(lead + EncodeFrom(sent, n, tail)) ==
      if n == |sent| then NextLine(tail)
      else Some(Line(sent[n].line, AfterLine(sent[n], EncodeFrom(sent, n + 1, tail)), true))
  {
    NextAfterLead(lead, EncodeFrom(sent, n, tail));
    if n < |sent| {
      var later := EncodeFrom(sent, n + 1, tail);
      EncodeWithTail(sent[n], later);
      NextOfMessage(sent[n].line, [], AfterLine(sent[n], later));
      assert [] + EncodeFrom(sent, n, tail) == EncodeFrom(sent, n, tail);
      assert [] + (sent[n].line + [NEWLINE] + AfterLine(sent[n], later)) ==
             sent[n].line + [NEWLINE] + AfterLine(sent[n], later);
    }
  }

  lemma SentReads(decode: Decoder, sent: Message, tail: Bytes, endErr: Err)
    requires WellFormed(decode, sent)
    ensures HowItReads(decode, Some(Line(sent.line, AfterLine(sent, tail), true)), endErr).None?
  {
  }

  predicate OnStream(rest: Bytes, lead: Bytes, sent: Bytes) {
    (lead == [] || lead == [NEWLINE]) && rest == lead + sent
  }

  /** What a turn at the n-th message comes to: how the stream ends after the last, and
      otherwise that message's answer, with the stream at the next. */
  ghost predicate Turned(decode: Decoder, sent: seq<Message>, n: nat, tail: Bytes, endErr: Err,
                         req: Request, reply: Reply, e: Option<Err>, rest: Bytes, lead: Bytes)
  {
    && n <= |sent|
    && if n == |sent| then e.Some? && e == HowItReads(decode, NextLine(tail), endErr) else
       && e.None? && (req.id, reply) == Answer(decode, sent[n]) && (req.command.Close? <==> IsClose(decode, sent[n]))
       && OnStream(rest, lead, EncodeFrom(sent, n + 1, tail))
       && (req.command.Close? ==> rest == EncodeFrom(sent, n + 1, tail))
  }

  /** Reads and handles the next request, if the stream has one. */
  method ServeNext(br: BufReader, decode: Decoder, size: nat -> nat,
                   ghost sent: seq<Message>, ghost n: nat, ghost lead: Bytes, ghost tail: Bytes)
      returns (req: Request, reply: Reply, e: Option<Err>, ghost lead': Bytes)
    requires br.Valid() && forall k :: size(k) > 0
    requires n <= |sent| && AllWellFormed(decode, sent)
    requires OnStream(br.rest, lead, EncodeFrom(sent, n, tail)) && HowItReads(decode, NextLine(tail), br.endErr).Some?
    modifies br, br.buf
    ensures br.Valid() && Turned(decode, sent, n, tail, br.endErr, req, reply, e, br.rest, lead')
  {
    if n < |sent| {
      WellFormedAt(decode, sent, n);
    }
    NextSent(decode, sent, n, lead, tail);
    if n < |sent| {
      SentReads(decode, sent[n], EncodeFrom(sent, n + 1, tail), br.endErr);
    }
    req, e := ReadRequest(br, decode);
    reply, lead' := Refused(Malformed), lead;
    if e.None? {
      assert n < |sent|;
      reply, lead' := HandleSent(br, decode, req, size, sent[n], EncodeFrom(sent, n + 1, tail));
      assert lead' == [] ==> lead' + EncodeFrom(sent, n + 1, tail) == EncodeFrom(sent, n + 1, tail);
    }
  }

  /** The answers to the first n messages, in order. */
  function Answers(decode: Decoder, ms: seq<Message>, n: nat): seq<(int, Reply)>
    requires n <= |ms|
  {
    if n == 0 then [] else Answers(decode, ms, n - 1) + [Answer(decode, ms[n - 1])]
  }

  /** None of the first n messages is a close. */
  predicate NoneCloses(decode: Decoder, ms: seq<Message>, n: nat)
    requires n <= |ms|
  {
    n == 0 || (NoneCloses(decode, ms, n - 1) && !IsClose(decode, ms[n - 1]))
  }

  /** Every answer is written or still to be written, once. */
  ghost predicate Balanced(written: seq<(int, Reply)>, open: seq<(int, Reply)>, answers: seq<(int, Reply)>) {
    multiset(written) + multiset(open) == multiset(answers)
  }

  /** One more answer: what it adds to those given, and to those still to be given. */
  lemma {:induction false} OneMoreAnswer(decode: Decoder, sent: seq<Message>, n: nat)
    requires n < |sent|
    ensures Answers(decode, sent, n + 1) == Answers(decode, sent, n) + [Answer(decode, sent[n])]
    ensures NoneCloses(decode, sent, n + 1) <==> NoneCloses(decode, sent, n) && !IsClose(decode, sent[n])
  {
  }

  /** Gets are answered by workers of their own, so their answers may be written late, in any
      order; every other answer is written at once, and a close's after all of them. `late`
      picks the get, if any, whose answer is written next. */
  method Write(decode: Decoder, command: Command, answer: (int, Reply), late: nat,
               written: seq<(int, Reply)>, open: seq<(int, Reply)>, ghost sent: seq<Message>, ghost n: nat)
      returns (written': seq<(int, Reply)>, open': seq<(int, Reply)>)
    requires n < |sent| && answer == Answer(decode, sent[n]) && (command.Close? <==> IsClose(decode, sent[n]))
    requires NoneCloses(decode, sent, n) && Balanced(written, open, Answers(decode, sent, n))
    ensures Balanced(written', open', Answers(decode, sent, n + 1))
    ensures command.Close? ==> open' == [] && written' != [] && written'[|written'| - 1] == answer
    ensures !command.Close? ==> NoneCloses(decode, sent, n + 1)
  {
    OneMoreAnswer(decode, sent, n);
    written', open' := written, open;
    match command
    case Close =>
      written', open' := written + open + [answer], [];
    case Get =>
      open' := open + [answer];
      written', open' := WriteLate(late, written, open');
    case _ =>
      written' := written + [answer];
      written', open' := WriteLate(late, written', open);
  }

  method WriteLate(late: nat, written: seq<(int, Reply)>, open: seq<(int, Reply)>)
      returns (written': seq<(int, Reply)>, open': seq<(int, Reply)>)
    ensures multiset(written') + multiset(open') == multiset(written) + multiset(open)
  {
    written', open' := written, open;
    if late < |open| {
      assert open == open[..late] + [open[late]] + open[late + 1..];
      written', open' := written + [open[late]], open[..late] + open[late + 1..];
    }
  }

  /** What a conversation of n requests comes to: each is answered once, none but the last is
      a close, and a close's answer is the last. Without one, all were served. */
  predicate Ends(decode: Decoder, sent: seq<Message>, n: nat, tail: Bytes, endErr: Err,
                 written: seq<(int, Reply)>, e: Option<Err>, rest: Bytes)
  {
    && n <= |sent| && multiset(written) == multiset(Answers(decode, sent, n))
    && (n > 0 ==> NoneCloses(decode, sent, n - 1))
    && if n > 0 && IsClose(decode, sent[n - 1])
       then e.None? && rest == EncodeFrom(sent, n, tail) &&
            written != [] && written[|written| - 1] == Answer(decode, sent[n - 1])
       else
         && n == |sent|
         && match HowItReads(decode, NextLine(tail), endErr)
            case Some(Eof) => e.None?
            case failure => e == failure
  }

  lemma {:induction false} EndsAfterAll(decode: Decoder, sent: seq<Message>, tail: Bytes, endErr: Err,
                                        written: seq<(int, Reply)>, open: seq<(int, Reply)>, rest: Bytes)
    requires NoneCloses(decode, sent, |sent|) && Balanced(written, open, Answers(decode, sent, |sent|))
    ensures Ends(decode, sent, |sent|, tail, endErr, written + open, EndOf(HowItReads(decode, NextLine(tail), endErr)),
                 rest)
  {
  }

  lemma {:induction false} EndsWithClose(decode: Decoder, sent: seq<Message>, n: nat, tail: Bytes, endErr: Err,
                                         written: seq<(int, Reply)>, rest: Bytes)
    requires n < |sent| && NoneCloses(decode, sent, n) && IsClose(decode, sent[n])
    requires Balanced(written, [], Answers(decode, sent, n + 1)) && rest == EncodeFrom(sent, n + 1, tail)
    requires written != [] && written[|written| - 1] == Answer(decode, sent[n])
    ensures Ends(decode, sent, n + 1, tail, endErr, written, None, rest)
  {
  }

  /** The conversation goes on at the n-th message. */
  ghost predicate GoesOn(decode: Decoder, sent: seq<Message>, n: nat, tail: Bytes,
                         written: seq<(int, Reply)>, open: seq<(int, Reply)>, rest: Bytes, lead: Bytes)
  {
    && n <= |sent| && NoneCloses(decode, sent, n) && Balanced(written, open, Answers(decode, sent, n))
    && OnStream(rest, lead, EncodeFrom(sent, n, tail))
  }

  /** Where the loop stands: at its end, or before the n-th message. */
  ghost predicate Stands(decode: Decoder, sent: seq<Message>, n: nat, tail: Bytes, endErr: Err,
                         written: seq<(int, Reply)>, open: seq<(int, Reply)>, done: bool, e: Option<Err>,
                         rest: Bytes, lead: Bytes)
  {
    if done then Ends(decode, sent, n, tail, endErr, written, e, rest)
    else GoesOn(decode, sent, n, tail, written, open, rest, lead)
  }

  /** Writes what a turn of the loop calls for; the last turn, all that was still to be
      written. */
  method Conclude(decode: Decoder, req: Request, reply: Reply, readErr: Option<Err>, late: nat,
                  written: seq<(int, Reply)>, open: seq<(int, Reply)>, ghost sent: seq<Message>, ghost n: nat,
                  ghost tail: Bytes, ghost endErr: Err, ghost rest: Bytes, ghost lead: Bytes)
      returns (written': seq<(int, Reply)>, open': seq<(int, Reply)>, done: bool, e: Option<Err>, ghost n': nat)
    requires Turned(decode, sent, n, tail, endErr, req, reply, readErr, rest, lead)
    requires NoneCloses(decode, sent, n) && Balanced(written, open, Answers(decode, sent, n))
    ensures Stands(decode, sent, n', tail, endErr, written', open', done, e, rest, lead) && (!done ==> n' == n + 1)
  {
    if readErr.Some? {
      EndsAfterAll(decode, sent, tail, endErr, written, open, rest);
      return written + open, [], true, EndOf(readErr), n;
    }
    written', open' := Write(decode, req.command, (req.id, reply), late, written, open, sent, n);
    done, e, n' := req.command.Close?, None, n + 1;
    if done {
      EndsWithClose(decode, sent, n, tail, endErr, written', rest);
    }
  }

  /** A whole conversation: every request up to the first close is answered once, in terms
      of exactly what was sent, and a close last of all. Without one it ends as the stream
      does: well where it merely ends, and with an error where the source fails or the
      next line is no request. */
  method Serve(br: BufReader, decode: Decoder, size: nat -> nat, late: seq<nat>,
               ghost sent: seq<Message>, ghost tail: Bytes)
      returns (written: seq<(int, Reply)>, e: Option<Err>, ghost n: nat)
    requires br.Valid() && forall k :: size(k) > 0
    requires AllWellFormed(decode, sent)
    requires br.rest == EncodeFrom(sent, 0, tail) && HowItReads(decode, NextLine(tail), br.endErr).Some?
    modifies br, br.buf
    ensures br.Valid() && Ends(decode, sent, n, tail, br.endErr, written, e, br.rest)
  {
    written, e, n := [], None, 0;
    var open: seq<(int, Reply)>, k := [], 0;
    ghost var lead: Bytes := [];
    var done := false;
    assert [] + br.rest == br.rest;
    while !done
      invariant br.Valid() && Stands(decode, sent, n, tail, br.endErr, written, open, done, e, br.rest, lead)
      decreases !done, |sent| - n
    {
      var pick := if k < |late| then late[k] else 0;
      var req, reply, readErr;
      req, reply, readErr, lead := ServeNext(br, decode, size, sent, n, lead, tail);
      written, open, done, e, n :=
        Conclude(decode, req, reply, readErr, pick, written, open, sent, n, tail, br.endErr, br.rest, lead);
      k := k + 1;
    }
  }

  /******* A body that nobody takes *******/

  /** A put that is refused for a missing id leaves its body on the stream, where it is read
      as the next request: unless that string is one, the conversation ends there. */
  lemma RefusedBodyEnds(decode: Decoder, body: Bytes, more: Bytes, endErr: Err)
    requires [QUOTE] + Base64.Encode(body) + [QUOTE] !in decode
    ensures HowItReads(decode, NextLine([QUOTE] + Base64.Encode(body) + [QUOTE] + [NEWLINE] + more), endErr) ==
      Some(Malformed)
  {
    var text := [QUOTE] + Base64.Encode(body) + [QUOTE];
    Base64.EncodingIsQuotable(body);
    PlainEndsDoNotTrim(text);
    NextOfMessage(text, [], more);
    assert [] + (text + [NEWLINE] + more) == text + [NEWLINE] + more;
  }

  /** So a client that sends such a body hears of everything up to that put, and of nothing
      after it. */
  method ServeRefusedBody(br: BufReader, decode: Decoder, size: nat -> nat, late: seq<nat>,
                          ghost sent: seq<Message>, ghost body: Bytes, ghost more: Bytes)
      returns (written: seq<(int, Reply)>, e: Option<Err>)
    requires br.Valid() && forall k :: size(k) > 0
    requires sent != [] && AllWellFormed(decode, sent) && NoneCloses(decode, sent, |sent|)
    requires [QUOTE] + Base64.Encode(body) + [QUOTE] !in decode
    requires br.rest == EncodeFrom(sent, 0, [QUOTE] + Base64.Encode(body) + [QUOTE] + [NEWLINE] + more)
    modifies br, br.buf
    ensures br.Valid() && e == Some(Malformed) && multiset(written) == multiset(Answers(decode, sent, |sent|))
  {
    RefusedBodyEnds(decode, body, more, br.endErr);
    ghost var n;
    written, e, n := Serve(br, decode, size, late, sent,
                           [QUOTE] + Base64.Encode(body) + [QUOTE] + [NEWLINE] + more);
    if n > 0 {
      NotCloseAt(decode, sent, |sent|, n - 1);
    }
  }

  lemma {:induction false} NotCloseAt(decode: Decoder, ms: seq<Message>, n: nat, i: nat)
    requires i < n <= |ms| && NoneCloses(decode, ms, n)
    ensures !IsClose(decode, ms[i])
  {
    if i < n - 1 {
      NotCloseAt(decode, ms, n - 1, i);
    }
  }
}
