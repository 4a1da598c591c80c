/** What the NATS client sends: the encoder over a writer that may fail, and why its output has one reading. */
module NatsClient {
  import opened Bytes
  import opened Options
  import opened NatsWire
  import opened Nom

  datatype ClientOperation =
    | Connect(json: seq<byte>)
    | Pub(subject: seq<byte>, replyTo: Option<seq<byte>>, payload: seq<byte>)
    | Hpub(subject: seq<byte>, replyTo: Option<seq<byte>>, headers: seq<byte>, payload: seq<byte>)
    | Sub(subject: seq<byte>, queueGroup: Option<seq<byte>>, sid: nat)
    | Unsub(sid: nat, maxMessages: Option<nat>)
    | Ping
    | Pong

  const CONNECT: seq<byte> := [67, 79, 78, 78, 69, 67, 84, 32]
  const PUB: seq<byte> := [80, 85, 66, 32]
  const SUB: seq<byte> := [83, 85, 66, 32]
  const UNSUB: seq<byte> := [85, 78, 83, 85, 66, 32]

  // ---------------------------------------------------------------------------------------------
  // The bytes of an operation
  // ---------------------------------------------------------------------------------------------

  function Optional(token: Option<seq<byte>>): seq<byte> {
    if token.Some? then token.value + SPACE else []
  }

  function Limit(max: Option<nat>): seq<byte> {
    if max.Some? then SPACE + Decimal(max.value) else []
  }

  function Encoded(op: ClientOperation): seq<byte>
    requires !op.Hpub?
  {
    match op
    case Connect(json) => CONNECT + (json + CRLF)
    case Pub(subject, replyTo, payload) =>
      PUB + (subject + (SPACE + (Optional(replyTo) + (Decimal(|payload|) + (CRLF + (payload + CRLF))))))
    case Sub(subject, queueGroup, sid) => SUB + (subject + (SPACE + (Optional(queueGroup) + (Decimal(sid) + CRLF))))
    case Unsub(sid, maxMessages) => UNSUB + (Decimal(sid) + (Limit(maxMessages) + CRLF))
    case Ping => PING + CRLF
    case Pong => PONG + CRLF
  }

  // ---------------------------------------------------------------------------------------------
  // The encoder
  // ---------------------------------------------------------------------------------------------

  /** Success, a failed write, or an operation that is not implemented. */
  datatype Outcome = Written | Failed | Unimplemented {
    predicate IsFailure() {
      !Written?
    }

    function PropagateFailure(): Outcome
      requires IsFailure()
    {
      this
    }
  }

  /** A writer that takes `room` more bytes; a write that does not fit is done as far as it goes and fails. */
  class Writer {
    var bytes: seq<byte>
    var room: nat

    constructor (room: nat)
      ensures bytes == [] && this.room == room
    {
      bytes, this.room := [], room;
    }

    /** `rest` is what the caller is going to write next; it only serves to say how far the whole has come. */
    method WriteAll(data: seq<byte>, ghost rest: seq<byte>) returns (r: Outcome)
      modifies this
      ensures r == if |data| <= old(room) then Written else Failed
      ensures |bytes| + room == |old(bytes)| + old(room)
      ensures r.Written? ==> bytes + rest == old(bytes) + (data + rest)
      ensures r.Failed? ==> bytes <= old(bytes) + (data + rest) && room == 0
    {
      if |data| <= room {
        bytes, room := bytes + data, room - |data|;
        return Written;
      }
      bytes, room := bytes + data[..room], 0;
      return Failed;
    }
  }

  /**
   `ClientOperation::encode`. It succeeds exactly if everything fits, and in any case the writer has received
   as much of the operation's bytes, in order, as it had room for.
   */
  method Encode(op: ClientOperation, writer: Writer) returns (r: Outcome)
    modifies writer
    ensures op.Hpub? ==> r.Unimplemented? && writer.bytes == old(writer.bytes) && writer.room == old(writer.room)
    ensures !op.Hpub? ==>
      WrittenAsFarAsFits(old(writer.bytes), old(writer.room), Encoded(op), r, writer.bytes, writer.room)
  {
    hide Optional, Limit, Decimal;
    match op {
      case Connect(json) =>
        :- EncodeConnect(json, writer);
      case Pub(subject, replyTo, payload) =>
        :- EncodePub(subject, replyTo, payload, writer);
      case Hpub(_, _, _, _) =>
        return Unimplemented;
      case Sub(subject, queueGroup, sid) =>
        :- EncodeSub(subject, queueGroup, sid, writer);
      case Unsub(sid, maxMessages) =>
        :- EncodeUnsub(sid, maxMessages, writer);
      case Ping =>
        :- writer.WriteAll(PING, CRLF);
      case Pong =>
        :- writer.WriteAll(PONG, CRLF);
    }
    :- writer.WriteAll(CRLF, []);
    assert writer.bytes + [] == writer.bytes;
    return Written;
  }

  /** Everything of `CONNECT` but the final line end. */
  method EncodeConnect(json: seq<byte>, writer: Writer) returns (r: Outcome)
    modifies writer
    ensures Advanced(old(writer.bytes), old(writer.room), Encoded(Connect(json)), CRLF, r, writer.bytes, writer.room)
  {
    hide Decimal;
    :- writer.WriteAll(CONNECT, json + CRLF);
    :- writer.WriteAll(json, CRLF);
    return Written;
  }

  /** Everything of `SUB` but the final line end. */
  method EncodeSub(subject: seq<byte>, queueGroup: Option<seq<byte>>, sid: nat, writer: Writer) returns (r: Outcome)
    modifies writer
    ensures Advanced(old(writer.bytes), old(writer.room), Encoded(Sub(subject, queueGroup, sid)), CRLF, r,
                     writer.bytes, writer.room)
  {
    hide Optional, Decimal;
    :- EncodeTokens(SUB, subject, queueGroup, writer, Decimal(sid) + CRLF);
    :- writer.WriteAll(Decimal(sid), CRLF);
    return Written;
  }

  /** Everything of `PUB` but the final line end. */
  method EncodePub(subject: seq<byte>, replyTo: Option<seq<byte>>, payload: seq<byte>, writer: Writer)
    returns (r: Outcome)
    modifies writer
    ensures Advanced(old(writer.bytes), old(writer.room), Encoded(Pub(subject, replyTo, payload)), CRLF, r,
                     writer.bytes, writer.room)
  {
    hide Decimal;
    :- EncodeTokens(PUB, subject, replyTo, writer, Decimal(|payload|) + (CRLF + (payload + CRLF)));
    :- writer.WriteAll(Decimal(|payload|), CRLF + (payload + CRLF));
    :- writer.WriteAll(CRLF, payload + CRLF);
    :- writer.WriteAll(payload, CRLF);
    return Written;
  }

  /** Everything of `UNSUB` but the final line end. */
  method EncodeUnsub(sid: nat, maxMessages: Option<nat>, writer: Writer) returns (r: Outcome)
    modifies writer
    ensures Advanced(old(writer.bytes), old(writer.room), Encoded(Unsub(sid, maxMessages)), CRLF, r,
                     writer.bytes, writer.room)
  {
    hide Decimal;
    :- writer.WriteAll(UNSUB, Decimal(sid) + (Limit(maxMessages) + CRLF));
    :- writer.WriteAll(Decimal(sid), Limit(maxMessages) + CRLF);
    if maxMessages.Some? {
      assert Limit(maxMessages) + CRLF == SPACE + (Decimal(maxMessages.value) + CRLF);
      :- writer.WriteAll(SPACE, Decimal(maxMessages.value) + CRLF);
      :- writer.WriteAll(Decimal(maxMessages.value), CRLF);
    } else {
      assert Limit(maxMessages) + CRLF == CRLF;
    }
    return Written;
  }

  /** The common start of `PUB` and `SUB`: the command, a token, and an optional second one. */
  method EncodeTokens(command: seq<byte>, token: seq<byte>, second: Option<seq<byte>>, writer: Writer,
                      ghost rest: seq<byte>)
    returns (r: Outcome)
    modifies writer
    ensures Advanced(old(writer.bytes), old(writer.room),
                     command + (token + (SPACE + (Optional(second) + rest))), rest, r, writer.bytes, writer.room)
  {
    ghost var tail := Optional(second) + rest;
    :- writer.WriteAll(command, token + (SPACE + tail));
    :- writer.WriteAll(token, SPACE + tail);
    :- writer.WriteAll(SPACE, tail);
    if second.Some? {
      assert tail == second.value + (SPACE + rest);
      :- writer.WriteAll(second.value, SPACE + rest);
      :- writer.WriteAll(SPACE, rest);
    } else {
      assert tail == rest;
    }
    return Written;
  }

  /** Of `whole`, everything but `rest` has been added, or there was no room for that and the writer is full. */
  ghost predicate Advanced(before: seq<byte>, room: nat, whole: seq<byte>, rest: seq<byte>, r: Outcome,
                           after: seq<byte>, left: nat) {
    && !r.Unimplemented?
    && |after| + left == |before| + room
    && (r.Written? ==> after + rest == before + whole)
    && (r.Failed? ==> after <= before + whole && left == 0 && |whole| - |rest| > room)
  }

  /** As much of `whole` as fits has been added, and the outcome says whether that was all. */
  ghost predicate WrittenAsFarAsFits(before: seq<byte>, room: nat, whole: seq<byte>, r: Outcome,
                                     after: seq<byte>, left: nat) {
    && r == (if |whole| <= room then Written else Failed)
    && after <= before + whole
    && |after| + left == |before| + room
    && (r.Failed? ==> left == 0)
    && (r.Written? ==> after == before + whole)
  }

  // ---------------------------------------------------------------------------------------------
  // Reading it back
  // ---------------------------------------------------------------------------------------------

  predicate IsTokenByte(b: byte) {
    b != 32 && b != 13 && b != 10
  }

  /** Tokens are not empty and hold no space, carriage return or line feed; JSON holds no carriage return. */
  predicate IsToken(s: seq<byte>) {
    |s| > 0 && forall i :: 0 <= i < |s| ==> IsTokenByte(s[i])
  }

  predicate WellFormed(op: ClientOperation) {
    match op
    case Connect(json) => forall i :: 0 <= i < |json| ==> NotCr(json[i])
    case Pub(subject, replyTo, payload) =>
      IsToken(subject) && (replyTo.Some? ==> IsToken(replyTo.value)) && |payload| < U64_LIMIT
    case Hpub(_, _, _, _) => false
    case Sub(subject, queueGroup, sid) =>
      IsToken(subject) && (queueGroup.Some? ==> IsToken(queueGroup.value)) && sid < U64_LIMIT
    case Unsub(sid, maxMessages) => sid < U64_LIMIT && (maxMessages.Some? ==> maxMessages.value < U64_LIMIT)
    case _ => true
  }

  /** A token is the optional one if a space ends it; otherwise it is not there. */
  function ReadOptional(b: seq<byte>): Parsed<Option<seq<byte>>> {
    var (rest, token) :- TakeWhile1(IsTokenByte, b);
    if Tag(SPACE, rest).Done? then Done(Tag(SPACE, rest).rest, Some(token)) else Done(b, None)
  }

  function ReadTokens(b: seq<byte>): Parsed<(seq<byte>, Option<seq<byte>>)> {
    var (b, token) :- TakeWhile1(IsTokenByte, b);
    var (b, _) :- Tag(SPACE, b);
    var (b, second) :- ReadOptional(b);
    Done(b, (token, second))
  }

  function ReadEnd(b: seq<byte>, op: ClientOperation): Parsed<ClientOperation> {
    var (b, _) :- Tag(CRLF, b);
    Done(b, op)
  }

  function ReadConnect(b: seq<byte>): Parsed<ClientOperation> {
    var (b, _) :- Tag(CONNECT, b);
    var n := Span(NotCr, b);
    ReadEnd(b[n..], Connect(b[..n]))
  }

  function ReadPub(b: seq<byte>): Parsed<ClientOperation> {
    var (b, _) :- Tag(PUB, b);
    var (b, tokens) :- ReadTokens(b);
    var (b, size) :- U64(b);
    var (b, _) :- Tag(CRLF, b);
    var (b, payload) :- Take(size, b);
    ReadEnd(b, Pub(tokens.0, tokens.1, payload))
  }

  function ReadSub(b: seq<byte>): Parsed<ClientOperation> {
    var (b, _) :- Tag(SUB, b);
    var (b, tokens) :- ReadTokens(b);
    var (b, sid) :- U64(b);
    ReadEnd(b, Sub(tokens.0, tokens.1, sid))
  }

  function ReadLimit(b: seq<byte>): Parsed<Option<nat>> {
    if !Tag(SPACE, b).Done? then Done(b, None)
    else
      var (b, max) :- U64(Tag(SPACE, b).rest);
      Done(b, Some(max))
  }

  function ReadUnsub(b: seq<byte>): Parsed<ClientOperation> {
    var (b, _) :- Tag(UNSUB, b);
    var (b, sid) :- U64(b);
    var (b, max) :- ReadLimit(b);
    ReadEnd(b, Unsub(sid, max))
  }

  function ReadWord(word: seq<byte>, op: ClientOperation, b: seq<byte>): Parsed<ClientOperation> {
    var (b, _) :- Tag(word, b);
    ReadEnd(b, op)
  }

  /** A reader of the documented client grammar: at most one alternative applies. */
  function Read(b: seq<byte>): Parsed<ClientOperation> {
    if Tag(CONNECT, b).Done? then ReadConnect(b)
    else if Tag(PUB, b).Done? then ReadPub(b)
    else if Tag(SUB, b).Done? then ReadSub(b)
    else if Tag(UNSUB, b).Done? then ReadUnsub(b)
    else if Tag(PING, b).Done? then ReadWord(PING, Ping, b)
    else ReadWord(PONG, Pong, b)
  }

  /** An absent optional token: what follows is a number and the end of the line. */
  lemma OptionalReads(second: Option<seq<byte>>, n: nat, tail: seq<byte>)
    requires second.Some? ==> IsToken(second.value)
    ensures ReadOptional(Optional(second) + (Decimal(n) + (CRLF + tail))) == Done(Decimal(n) + (CRLF + tail), second)
  {
    hide Tag, TakeWhile1;
    var number := Decimal(n) + (CRLF + tail);
    match second {
      case Some(token) =>
        assert Optional(second) + number == token + (SPACE + number);
        TakesOver(IsTokenByte, token, SPACE + number);
        TagReads(SPACE, number);
      case None =>
        assert Optional(second) + number == number;
        TakesOver(IsTokenByte, Decimal(n), CRLF + tail);
        TagFails(SPACE, CRLF + tail, 0);
    }
  }

  lemma TokensRead(token: seq<byte>, second: Option<seq<byte>>, n: nat, tail: seq<byte>)
    requires IsToken(token) && (second.Some? ==> IsToken(second.value))
    ensures ReadTokens(token + (SPACE + (Optional(second) + (Decimal(n) + (CRLF + tail)))))
         == Done(Decimal(n) + (CRLF + tail), (token, second))
  {
    hide Tag, TakeWhile1, ReadOptional;
    var more := Optional(second) + (Decimal(n) + (CRLF + tail));
    TakesOver(IsTokenByte, token, SPACE + more);
    TagReads(SPACE, more);
    OptionalReads(second, n, tail);
  }

  lemma ConnectReads(json: seq<byte>, tail: seq<byte>)
    requires WellFormed(Connect(json))
    ensures ReadConnect(CONNECT + (json + (CRLF + tail))) == Done(tail, Connect(json))
  {
    hide Tag;
    var line := json + (CRLF + tail);
    TagReads(CONNECT, line);
    SpanOver(NotCr, json, CRLF + tail);
    assert line[|json|..] == CRLF + tail && line[..|json|] == json;
    TagReads(CRLF, tail);
  }

  lemma PubReads(op: ClientOperation, tail: seq<byte>)
    requires op.Pub? && WellFormed(op)
    ensures ReadPub(Encoded(op) + tail) == Done(tail, op)
  {
    hide Tag, ReadTokens, U64;
    var end := CRLF + tail;
    var payload := op.payload + end;
    var number := Decimal(|op.payload|) + (CRLF + payload);
    var tokens := op.subject + (SPACE + (Optional(op.replyTo) + number));
    assert Encoded(op) + tail == PUB + tokens;
    TagReads(PUB, tokens);
    TokensRead(op.subject, op.replyTo, |op.payload|, payload);
    DecimalRoundTrip(|op.payload|, CRLF + payload);
    TagReads(CRLF, payload);
    assert payload[|op.payload|..] == end && payload[..|op.payload|] == op.payload;
    TagReads(CRLF, tail);
  }

  lemma SubReads(op: ClientOperation, tail: seq<byte>)
    requires op.Sub? && WellFormed(op)
    ensures ReadSub(Encoded(op) + tail) == Done(tail, op)
  {
    hide Tag, ReadTokens, U64;
    var tokens := op.subject + (SPACE + (Optional(op.queueGroup) + (Decimal(op.sid) + (CRLF + tail))));
    assert Encoded(op) + tail == SUB + tokens;
    TagReads(SUB, tokens);
    TokensRead(op.subject, op.queueGroup, op.sid, tail);
    DecimalRoundTrip(op.sid, CRLF + tail);
    TagReads(CRLF, tail);
  }

  lemma UnsubReads(op: ClientOperation, tail: seq<byte>)
    requires op.Unsub? && WellFormed(op)
    ensures ReadUnsub(Encoded(op) + tail) == Done(tail, op)
  {
    hide Tag, U64;
    var end := CRLF + tail;
    var limit := Limit(op.maxMessages) + end;
    assert Encoded(op) + tail == UNSUB + (Decimal(op.sid) + limit);
    TagReads(UNSUB, Decimal(op.sid) + limit);
    DecimalRoundTrip(op.sid, limit);
    TagReads(CRLF, tail);
    match op.maxMessages {
      case Some(max) =>
        assert limit == SPACE + (Decimal(max) + end);
        TagReads(SPACE, Decimal(max) + end);
        DecimalRoundTrip(max, end);
      case None =>
        assert limit == end;
        TagFails(SPACE, end, 0);
    }
  }

  lemma WordReads(op: ClientOperation, tail: seq<byte>)
    requires op.Ping? || op.Pong?
    ensures Read(Encoded(op) + tail) == Done(tail, op)
  {
    hide Tag, ReadConnect, ReadPub, ReadSub, ReadUnsub;
    var b := Encoded(op) + tail;
    match op {
      case Ping =>
        assert b == PING + (CRLF + tail) && b[0] == PING[0] && b[1] == PING[1];
        TagFails(CONNECT, b, 0);
        TagFails(PUB, b, 1);
        TagFails(SUB, b, 0);
        TagFails(UNSUB, b, 0);
        TagReads(PING, CRLF + tail);
        TagReads(CRLF, tail);
      case Pong =>
        assert b == PONG + (CRLF + tail) && b[0] == PONG[0] && b[1] == PONG[1];
        TagFails(CONNECT, b, 0);
        TagFails(PUB, b, 1);
        TagFails(SUB, b, 0);
        TagFails(UNSUB, b, 0);
        TagFails(PING, b, 1);
        TagReads(PONG, CRLF + tail);
        TagReads(CRLF, tail);
    }
  }

  /** The reader recovers an encoded operation and stops exactly behind it. */
  lemma ReadsBack(op: ClientOperation, tail: seq<byte>)
    requires WellFormed(op)
    ensures Read(Encoded(op) + tail) == Done(tail, op)
  {
    hide Tag, ReadConnect, ReadPub, ReadSub, ReadUnsub;
    var b := Encoded(op) + tail;
    match op {
      case Connect(json) =>
        assert b == CONNECT + (json + (CRLF + tail));
        TagReads(CONNECT, json + (CRLF + tail));
        ConnectReads(json, tail);
      case Pub(_, _, _) =>
        assert b[0] == PUB[0];
        assert b == PUB + b[|PUB|..];
        TagFails(CONNECT, b, 0);
        TagReads(PUB, b[|PUB|..]);
        PubReads(op, tail);
      case Sub(_, _, _) =>
        assert b[0] == SUB[0];
        assert b == SUB + b[|SUB|..];
        TagFails(CONNECT, b, 0);
        TagFails(PUB, b, 0);
        TagReads(SUB, b[|SUB|..]);
        SubReads(op, tail);
      case Unsub(_, _) =>
        assert b[0] == UNSUB[0];
        assert b == UNSUB + b[|UNSUB|..];
        TagFails(CONNECT, b, 0);
        TagFails(PUB, b, 0);
        TagFails(SUB, b, 0);
        TagReads(UNSUB, b[|UNSUB|..]);
        UnsubReads(op, tail);
      case _ => WordReads(op, tail);
    }
  }

  /** No encoding is a prefix of another, whatever follows the two: the operations agree and so do the remainders. */
  lemma EncodingIsPrefixFree(a: ClientOperation, b: ClientOperation, s: seq<byte>, t: seq<byte>)
    requires WellFormed(a) && WellFormed(b) && Encoded(a) + s == Encoded(b) + t
    ensures a == b && s == t
  {
    ReadsBack(a, s);
    ReadsBack(b, t);
  }

  function EncodedAll(ops: seq<ClientOperation>): seq<byte>
    requires forall op :: op in ops ==> WellFormed(op)
  {
    if ops == [] then []
    else
      assert WellFormed(ops[0]);
      Encoded(ops[0]) + EncodedAll(ops[1..])
  }

  /** A stream of encodings has one reading. */
  lemma {:induction false} StreamHasOneReading(a: seq<ClientOperation>, b: seq<ClientOperation>)
    requires (forall op :: op in a ==> WellFormed(op)) && (forall op :: op in b ==> WellFormed(op))
    requires EncodedAll(a) == EncodedAll(b)
    ensures a == b
  {
    hide Encoded, WellFormed;
    if a != [] && b != [] {
      EncodingIsPrefixFree(a[0], b[0], EncodedAll(a[1..]), EncodedAll(b[1..]));
      StreamHasOneReading(a[1..], b[1..]);
      assert a == [a[0]] + a[1..] && b == [b[0]] + b[1..];
    } else if a != [] {
      EncodingIsNotEmpty(a[0]);
    } else if b != [] {
      EncodingIsNotEmpty(b[0]);
    }
  }

  lemma EncodingIsNotEmpty(op: ClientOperation)
    requires WellFormed(op)
    ensures Encoded(op) != []
  {}
}
