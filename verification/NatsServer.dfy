/** What the NATS server sends: the streaming decoder, and the documented grammar as a printer. */
module NatsServer {
  import opened Bytes
  import opened Options
  import opened NatsWire
  import opened Nom

  /** Texts are sequences of UTF-8 bytes. */
  datatype ServerOperation =
    | Info(json: seq<byte>)
    | Msg(subject: seq<byte>, sid: nat, replyTo: Option<seq<byte>>, payload: seq<byte>)
    | Ok
    | Err(message: seq<byte>)
    | Ping
    | Pong

  datatype Decoded = Decoded(operation: ServerOperation, size: nat) | BufferTooSmall | InvalidProtocol

  const INFO: seq<byte> := [73, 78, 70, 79]
  const MSG: seq<byte> := [77, 83, 71]
  const PLUS_OK: seq<byte> := [43, 79, 75]
  const MINUS_ERR: seq<byte> := [45, 69, 82, 82, 32]

  predicate IsSpace(b: byte) {
    b == 32 || b == 9
  }

  /** Letters, `.`, `*` and `>`. */
  predicate IsSubject(b: byte) {
    65 <= b <= 90 || 97 <= b <= 122 || b == 46 || b == 42 || b == 62
  }

  // ---------------------------------------------------------------------------------------------
  // The decoder
  // ---------------------------------------------------------------------------------------------

  function ParseNewline(b: seq<byte>): Parsed<()> {
    Tag(CRLF, b)
  }

  function ParseWhitespace(b: seq<byte>): Parsed<seq<byte>> {
    TakeWhile1(IsSpace, b)
  }

  function ParseSubject(b: seq<byte>): Parsed<seq<byte>> {
    AsText(TakeWhile1(IsSubject, b))
  }

  function ParseLine(b: seq<byte>): Parsed<seq<byte>> {
    AsText(TakeWhile1(NotCr, b))
  }

  function ParseReply(b: seq<byte>): Parsed<seq<byte>> {
    var (b, subject) :- ParseSubject(b);
    var (b, _) :- ParseWhitespace(b);
    Done(b, subject)
  }

  /** `opt`: a failure is an absent value, and nothing is consumed. */
  function ParseOptionalReply(b: seq<byte>): Parsed<Option<seq<byte>>> {
    match ParseReply(b)
    case Done(rest, subject) => Done(rest, Some(subject))
    case Incomplete => Incomplete
    case Error => Done(b, None)
  }

  function ParsePayload(b: seq<byte>): Parsed<seq<byte>> {
    var (b, size) :- U64(b);
    var (b, _) :- ParseNewline(b);
    Take(size, b)
  }

  function ParseInfo(b: seq<byte>): Parsed<ServerOperation> {
    var (b, _) :- TagNoCase(INFO, b);
    var (b, _) :- ParseWhitespace(b);
    var (b, json) :- ParseLine(b);
    Done(b, Info(json))
  }

  function ParseMsg(b: seq<byte>): Parsed<ServerOperation> {
    var (b, _) :- TagNoCase(MSG, b);
    var (b, _) :- ParseWhitespace(b);
    var (b, subject) :- ParseSubject(b);
    var (b, _) :- ParseWhitespace(b);
    ParseDelivery(b, subject)
  }

  /** The part of `MSG` after the subject. */
  function ParseDelivery(b: seq<byte>, subject: seq<byte>): Parsed<ServerOperation> {
    var (b, sid) :- U64(b);
    var (b, _) :- ParseWhitespace(b);
    var (b, replyTo) :- ParseOptionalReply(b);
    var (b, payload) :- ParsePayload(b);
    Done(b, Msg(subject, sid, replyTo, payload))
  }

  function ParseOk(b: seq<byte>): Parsed<ServerOperation> {
    var (b, _) :- TagNoCase(PLUS_OK, b);
    Done(b, Ok)
  }

  function ParseErr(b: seq<byte>): Parsed<ServerOperation> {
    var (b, _) :- TagNoCase(MINUS_ERR, b);
    var (b, message) :- ParseLine(b);
    Done(b, Err(message))
  }

  function ParsePing(b: seq<byte>): Parsed<ServerOperation> {
    var (b, _) :- TagNoCase(PING, b);
    Done(b, Ping)
  }

  function ParsePong(b: seq<byte>): Parsed<ServerOperation> {
    var (b, _) :- TagNoCase(PONG, b);
    Done(b, Pong)
  }

  function ParseAny(b: seq<byte>): Parsed<ServerOperation> {
    Alt(ParseInfo(b), Alt(ParseMsg(b), Alt(ParseOk(b), Alt(ParseErr(b), Alt(ParsePing(b), ParsePong(b))))))
  }

  function ParseServerOperation(b: seq<byte>): Parsed<ServerOperation> {
    var (b, operation) :- ParseAny(b);
    var (b, _) :- ParseNewline(b);
    Done(b, operation)
  }

  /** `ServerOperation::decode`. */
  function Decode(b: seq<byte>): Decoded {
    match ParseServerOperation(b)
    case Done(rest, operation) => if |rest| <= |b| then Decoded(operation, |b| - |rest|) else InvalidProtocol
    case Incomplete => BufferTooSmall
    case Error => InvalidProtocol
  }

  // ---------------------------------------------------------------------------------------------
  // Stability of the decoder
  // ---------------------------------------------------------------------------------------------

  /** A stable parser followed by one that is stable on what the first leaves. */
  lemma Then<T(!new), U(!new)>(b: seq<byte>, r: Parsed<T>, r': Parsed<T>, q: Parsed<U>, q': Parsed<U>, ext: seq<byte>)
    requires r.Done? && Stable(b, r, r', ext) && Stable(r.rest, q, q', ext)
    ensures r' == Done(r.rest + ext, r.value) && Stable(b, q, q', ext)
  {}

  lemma LineStable(b: seq<byte>, ext: seq<byte>)
    ensures Stable(b, ParseLine(b), ParseLine(b + ext), ext)
  {
    TakeWhile1Stable(NotCr, b, ext);
    AsTextStable(b, TakeWhile1(NotCr, b), TakeWhile1(NotCr, b + ext), ext);
  }

  lemma SubjectStable(b: seq<byte>, ext: seq<byte>)
    ensures Stable(b, ParseSubject(b), ParseSubject(b + ext), ext)
  {
    TakeWhile1Stable(IsSubject, b, ext);
    AsTextStable(b, TakeWhile1(IsSubject, b), TakeWhile1(IsSubject, b + ext), ext);
  }

  lemma ReplyStable(b: seq<byte>, ext: seq<byte>)
    ensures Stable(b, ParseOptionalReply(b), ParseOptionalReply(b + ext), ext)
  {
    SubjectStable(b, ext);
    if ParseSubject(b).Done? {
      TakeWhile1Stable(IsSpace, ParseSubject(b).rest, ext);
    }
  }

  lemma PayloadStable(b: seq<byte>, ext: seq<byte>)
    ensures Stable(b, ParsePayload(b), ParsePayload(b + ext), ext)
  {
    hide U64, Tag, Take;
    U64Stable(b, ext);
    if U64(b).Done? {
      var m := U64(b).rest;
      TagStable(CRLF, m, ext);
      if ParseNewline(m).Done? {
        var n, size := ParseNewline(m).rest, U64(b).value;
        TakeStable(size, n, ext);
        Then(m, ParseNewline(m), ParseNewline(m + ext), Take(size, n), Take(size, n + ext), ext);
        Then(b, U64(b), U64(b + ext), Take(size, n), Take(size, n + ext), ext);
      }
    }
  }

  lemma InfoStable(b: seq<byte>, ext: seq<byte>)
    ensures Stable(b, ParseInfo(b), ParseInfo(b + ext), ext)
  {
    hide TagNoCase, TakeWhile1, ParseLine;
    TagNoCaseStable(INFO, b, ext);
    if TagNoCase(INFO, b).Done? {
      var m := TagNoCase(INFO, b).rest;
      TakeWhile1Stable(IsSpace, m, ext);
      if ParseWhitespace(m).Done? {
        var n := ParseWhitespace(m).rest;
        LineStable(n, ext);
        Then(m, ParseWhitespace(m), ParseWhitespace(m + ext), ParseLine(n), ParseLine(n + ext), ext);
        Then(b, TagNoCase(INFO, b), TagNoCase(INFO, b + ext), ParseLine(n), ParseLine(n + ext), ext);
      }
    }
  }

  lemma DeliveryStable(b: seq<byte>, subject: seq<byte>, ext: seq<byte>)
    ensures Stable(b, ParseDelivery(b, subject), ParseDelivery(b + ext, subject), ext)
  {
    hide U64, TakeWhile1, ParseOptionalReply, ParsePayload;
    U64Stable(b, ext);
    if U64(b).Done? {
      var m := U64(b).rest;
      TakeWhile1Stable(IsSpace, m, ext);
      if ParseWhitespace(m).Done? {
        var n := ParseWhitespace(m).rest;
        ReplyStable(n, ext);
        if ParseOptionalReply(n).Done? {
          var o := ParseOptionalReply(n).rest;
          PayloadStable(o, ext);
          var q, q' := ParsePayload(o), ParsePayload(o + ext);
          Then(n, ParseOptionalReply(n), ParseOptionalReply(n + ext), q, q', ext);
          Then(m, ParseWhitespace(m), ParseWhitespace(m + ext), q, q', ext);
          Then(b, U64(b), U64(b + ext), q, q', ext);
        }
      }
    }
  }

  lemma MsgStable(b: seq<byte>, ext: seq<byte>)
    ensures Stable(b, ParseMsg(b), ParseMsg(b + ext), ext)
  {
    hide TagNoCase, TakeWhile1, ParseSubject, ParseDelivery;
    TagNoCaseStable(MSG, b, ext);
    if TagNoCase(MSG, b).Done? {
      var m := TagNoCase(MSG, b).rest;
      TakeWhile1Stable(IsSpace, m, ext);
      if ParseWhitespace(m).Done? {
        var n := ParseWhitespace(m).rest;
        SubjectStable(n, ext);
        if ParseSubject(n).Done? {
          var o, subject := ParseSubject(n).rest, ParseSubject(n).value;
          TakeWhile1Stable(IsSpace, o, ext);
          if ParseWhitespace(o).Done? {
            var p := ParseWhitespace(o).rest;
            DeliveryStable(p, subject, ext);
            var q, q' := ParseDelivery(p, subject), ParseDelivery(p + ext, subject);
            Then(o, ParseWhitespace(o), ParseWhitespace(o + ext), q, q', ext);
            Then(n, ParseSubject(n), ParseSubject(n + ext), q, q', ext);
            Then(m, ParseWhitespace(m), ParseWhitespace(m + ext), q, q', ext);
            Then(b, TagNoCase(MSG, b), TagNoCase(MSG, b + ext), q, q', ext);
          }
        }
      }
    }
  }

  lemma ErrStable(b: seq<byte>, ext: seq<byte>)
    ensures Stable(b, ParseErr(b), ParseErr(b + ext), ext)
  {
    TagNoCaseStable(MINUS_ERR, b, ext);
    if TagNoCase(MINUS_ERR, b).Done? {
      LineStable(TagNoCase(MINUS_ERR, b).rest, ext);
    }
  }

  lemma AltStable<T(!new)>(b: seq<byte>, p: Parsed<T>, p': Parsed<T>, q: Parsed<T>, q': Parsed<T>, ext: seq<byte>)
    requires Stable(b, p, p', ext) && Stable(b, q, q', ext)
    ensures Stable(b, Alt(p, q), Alt(p', q'), ext)
  {}

  lemma AnyStable(b: seq<byte>, ext: seq<byte>)
    ensures Stable(b, ParseAny(b), ParseAny(b + ext), ext)
  {
    InfoStable(b, ext);
    MsgStable(b, ext);
    ErrStable(b, ext);
    TagNoCaseStable(PLUS_OK, b, ext);
    TagNoCaseStable(PING, b, ext);
    TagNoCaseStable(PONG, b, ext);
    var c := b + ext;
    var pong, pong' := ParsePong(b), ParsePong(c);
    var ping, ping' := Alt(ParsePing(b), pong), Alt(ParsePing(c), pong');
    var err, err' := Alt(ParseErr(b), ping), Alt(ParseErr(c), ping');
    var ok, ok' := Alt(ParseOk(b), err), Alt(ParseOk(c), err');
    var msg, msg' := Alt(ParseMsg(b), ok), Alt(ParseMsg(c), ok');
    AltStable(b, ParsePing(b), ParsePing(c), pong, pong', ext);
    AltStable(b, ParseErr(b), ParseErr(c), ping, ping', ext);
    AltStable(b, ParseOk(b), ParseOk(c), err, err', ext);
    AltStable(b, ParseMsg(b), ParseMsg(c), ok, ok', ext);
    AltStable(b, ParseInfo(b), ParseInfo(c), msg, msg', ext);
  }

  lemma OperationStable(b: seq<byte>, ext: seq<byte>)
    ensures Stable(b, ParseServerOperation(b), ParseServerOperation(b + ext), ext)
    ensures ParseServerOperation(b).Done? ==> |ParseServerOperation(b).rest| < |b|
  {
    hide ParseAny, Tag;
    AnyStable(b, ext);
    if ParseAny(b).Done? {
      var m := ParseAny(b).rest;
      TagStable(CRLF, m, ext);
      TagTakes(CRLF, m);
      Then(b, ParseAny(b), ParseAny(b + ext), ParseNewline(m), ParseNewline(m + ext), ext);
    }
  }

  lemma TagTakes(tag: seq<byte>, b: seq<byte>)
    ensures Tag(tag, b).Done? ==> |Tag(tag, b).rest| == |b| - |tag|
  {}

  /**
   A verdict on a buffer is final: appending any bytes changes neither a decoded operation and its size nor the
   rejection of the buffer; and every decoded operation takes at least one byte of the buffer.
   */
  lemma DecodeIsStable(b: seq<byte>, ext: seq<byte>)
    ensures Decode(b).Decoded? ==> Decode(b + ext) == Decode(b) && 0 < Decode(b).size <= |b|
    ensures Decode(b).InvalidProtocol? ==> Decode(b + ext).InvalidProtocol?
  {
    hide ParseServerOperation;
    OperationStable(b, ext);
    OperationStable(b + ext, []);
  }

  // ---------------------------------------------------------------------------------------------
  // The documented grammar, printed
  // ---------------------------------------------------------------------------------------------

  /** A token that the decoder takes for a subject. */
  predicate IsToken(s: seq<byte>) {
    |s| > 0 && forall i :: 0 <= i < |s| ==> IsSubject(s[i])
  }

  /** A text up to the end of its line. */
  predicate IsLine(s: seq<byte>) {
    |s| > 0 && Utf8(s) && forall i :: 0 <= i < |s| ==> NotCr(s[i])
  }

  predicate WellFormed(op: ServerOperation) {
    match op
    case Info(json) => IsLine(json) && !IsSpace(json[0])
    case Msg(subject, sid, replyTo, payload) =>
      IsToken(subject) && sid < U64_LIMIT && (replyTo.Some? ==> IsToken(replyTo.value)) && |payload| < U64_LIMIT
    case Err(message) => IsLine(message)
    case _ => true
  }

  function PrintReply(replyTo: Option<seq<byte>>): seq<byte> {
    if replyTo.Some? then replyTo.value + SPACE else []
  }

  function PrintPayload(payload: seq<byte>): seq<byte> {
    Decimal(|payload|) + (CRLF + payload)
  }

  /** An operation without its final line end. */
  function PrintBody(op: ServerOperation): seq<byte> {
    match op
    case Info(json) => INFO + (SPACE + json)
    case Msg(subject, sid, replyTo, payload) =>
      MSG + (SPACE + (subject + (SPACE + (Decimal(sid) + (SPACE + (PrintReply(replyTo) + PrintPayload(payload)))))))
    case Ok => PLUS_OK
    case Err(message) => MINUS_ERR + message
    case Ping => PING
    case Pong => PONG
  }

  function Print(op: ServerOperation): seq<byte> {
    PrintBody(op) + CRLF
  }

  lemma SpaceReads(tail: seq<byte>)
    requires tail != [] && !IsSpace(tail[0])
    ensures ParseWhitespace(SPACE + tail) == Done(tail, SPACE)
  {}

  lemma TokenReads(token: seq<byte>, tail: seq<byte>)
    requires IsToken(token) && tail != [] && !IsSubject(tail[0])
    ensures ParseSubject(token + tail) == Done(tail, token)
  {
    TakesOver(IsSubject, token, tail);
    AsciiIsUtf8(token);
  }

  lemma LineReads(line: seq<byte>, tail: seq<byte>)
    requires IsLine(line)
    ensures ParseLine(line + (CRLF + tail)) == Done(CRLF + tail, line)
  {
    TakesOver(NotCr, line, CRLF + tail);
  }

  lemma PayloadReads(payload: seq<byte>, tail: seq<byte>)
    requires |payload| < U64_LIMIT
    ensures ParsePayload(PrintPayload(payload) + tail) == Done(tail, payload)
  {
    hide Tag;
    var size := Decimal(|payload|);
    assert PrintPayload(payload) + tail == size + (CRLF + (payload + tail));
    DecimalRoundTrip(|payload|, CRLF + (payload + tail));
    TagReads(CRLF, payload + tail);
    assert (payload + tail)[|payload|..] == tail && (payload + tail)[..|payload|] == payload;
  }

  lemma ReplyReads(replyTo: Option<seq<byte>>, tail: seq<byte>)
    requires replyTo.Some? ==> IsToken(replyTo.value)
    requires tail != [] && !IsSpace(tail[0]) && !IsSubject(tail[0])
    ensures ParseOptionalReply(PrintReply(replyTo) + tail) == Done(tail, replyTo)
  {
    match replyTo {
      case Some(token) =>
        assert PrintReply(replyTo) + tail == token + (SPACE + tail);
        TokenReads(token, SPACE + tail);
        SpaceReads(tail);
      case None =>
        assert PrintReply(replyTo) + tail == tail;
        assert Span(IsSubject, tail) == 0;
    }
  }

  lemma InfoReads(json: seq<byte>, tail: seq<byte>)
    requires WellFormed(Info(json))
    ensures ParseInfo(PrintBody(Info(json)) + (CRLF + tail)) == Done(CRLF + tail, Info(json))
  {
    hide TagNoCase, TakeWhile1, ParseLine;
    var line := json + (CRLF + tail);
    assert PrintBody(Info(json)) + (CRLF + tail) == INFO + (SPACE + line);
    TagReads(INFO, SPACE + line);
    SpaceReads(line);
    LineReads(json, tail);
  }

  lemma DeliveryReads(op: ServerOperation, tail: seq<byte>)
    requires op.Msg? && WellFormed(op)
    ensures ParseDelivery(Decimal(op.sid) + (SPACE + (PrintReply(op.replyTo) + PrintPayload(op.payload))) + tail,
                          op.subject)
         == Done(tail, op)
  {
    hide U64, TakeWhile1, ParseOptionalReply, ParsePayload;
    var payload := PrintPayload(op.payload) + tail;
    var reply := PrintReply(op.replyTo) + payload;
    assert Decimal(op.sid) + (SPACE + (PrintReply(op.replyTo) + PrintPayload(op.payload))) + tail
        == Decimal(op.sid) + (SPACE + reply);
    assert IsDigit(payload[0]) by {
      assert payload[0] == Decimal(|op.payload|)[0];
    }
    assert !IsSpace(reply[0]) by {
      assert reply[0] == if op.replyTo.Some? then op.replyTo.value[0] else payload[0];
    }
    DecimalRoundTrip(op.sid, SPACE + reply);
    SpaceReads(reply);
    ReplyReads(op.replyTo, payload);
    PayloadReads(op.payload, tail);
  }

  lemma MsgReads(op: ServerOperation, tail: seq<byte>)
    requires op.Msg? && WellFormed(op)
    ensures ParseMsg(PrintBody(op) + tail) == Done(tail, op)
  {
    hide TagNoCase, TakeWhile1, ParseSubject, ParseDelivery;
    var delivery := Decimal(op.sid) + (SPACE + (PrintReply(op.replyTo) + PrintPayload(op.payload))) + tail;
    var subject := op.subject + (SPACE + delivery);
    assert PrintBody(op) + tail == MSG + (SPACE + subject);
    assert delivery[0] == Decimal(op.sid)[0] && subject[0] == op.subject[0];
    TagReads(MSG, SPACE + subject);
    SpaceReads(subject);
    TokenReads(op.subject, SPACE + delivery);
    SpaceReads(delivery);
    DeliveryReads(op, tail);
  }

  lemma ErrReads(message: seq<byte>, tail: seq<byte>)
    requires IsLine(message)
    ensures ParseErr(PrintBody(Err(message)) + (CRLF + tail)) == Done(CRLF + tail, Err(message))
  {
    hide TagNoCase, ParseLine;
    assert PrintBody(Err(message)) + (CRLF + tail) == MINUS_ERR + (message + (CRLF + tail));
    TagReads(MINUS_ERR, message + (CRLF + tail));
    LineReads(message, tail);
  }

  /** The first bytes tell the operations apart, so that all earlier alternatives fail. */
  lemma AnyReads(op: ServerOperation, tail: seq<byte>)
    requires WellFormed(op)
    ensures ParseAny(PrintBody(op) + (CRLF + tail)) == Done(CRLF + tail, op)
  {
    hide TagNoCase, TakeWhile1, ParseLine, ParseSubject, ParseDelivery;
    var b := PrintBody(op) + (CRLF + tail);
    match op {
      case Info(json) => InfoReads(json, tail);
      case Msg(_, _, _, _) =>
        assert b[0] == MSG[0];
        TagNoCaseFails(INFO, b, 0);
        MsgReads(op, CRLF + tail);
      case Ok =>
        assert b[0] == PLUS_OK[0];
        TagNoCaseFails(INFO, b, 0);
        TagNoCaseFails(MSG, b, 0);
        TagReads(PLUS_OK, CRLF + tail);
      case Err(message) =>
        assert b[0] == MINUS_ERR[0];
        TagNoCaseFails(INFO, b, 0);
        TagNoCaseFails(MSG, b, 0);
        TagNoCaseFails(PLUS_OK, b, 0);
        ErrReads(message, tail);
      case Ping =>
        assert b[0] == PING[0];
        TagNoCaseFails(INFO, b, 0);
        TagNoCaseFails(MSG, b, 0);
        TagNoCaseFails(PLUS_OK, b, 0);
        TagNoCaseFails(MINUS_ERR, b, 0);
        TagReads(PING, CRLF + tail);
      case Pong =>
        assert b[0] == PONG[0] && b[1] == PONG[1];
        TagNoCaseFails(INFO, b, 0);
        TagNoCaseFails(MSG, b, 0);
        TagNoCaseFails(PLUS_OK, b, 0);
        TagNoCaseFails(MINUS_ERR, b, 0);
        TagNoCaseFails(PING, b, 1);
        TagReads(PONG, CRLF + tail);
    }
  }

  /** Decoding what the grammar prints, whatever bytes follow, gives the operation and its length. */
  lemma RoundTrip(op: ServerOperation, tail: seq<byte>)
    requires WellFormed(op)
    ensures Decode(Print(op) + tail) == Decoded(op, |Print(op)|)
  {
    hide ParseAny, Tag, PrintBody, WellFormed;
    assert Print(op) + tail == PrintBody(op) + (CRLF + tail);
    AnyReads(op, tail);
    TagReads(CRLF, tail);
  }

  /** Every proper prefix of a printed operation asks for more input. */
  lemma PrefixIsTooSmall(op: ServerOperation, n: nat)
    requires WellFormed(op) && n < |Print(op)|
    ensures Decode(Print(op)[..n]).BufferTooSmall?
  {
    hide Decode, Print, WellFormed;
    var b, rest := Print(op)[..n], Print(op)[n..];
    assert b + rest == Print(op) + [];
    RoundTrip(op, []);
    DecodeIsStable(b, rest);
  }

  /** Every proper prefix of anything that is decoded asks for more input, too. */
  lemma AcceptedPrefixIsTooSmall(b: seq<byte>, n: nat)
    requires Decode(b).Decoded? && n < Decode(b).size
    ensures n < |b| && Decode(b[..n]).BufferTooSmall?
  {
    hide Decode;
    DecodeIsStable(b, []);
    assert b[..n] + b[n..] == b;
    DecodeIsStable(b[..n], b[n..]);
  }

  lemma LineIsLine(b: seq<byte>)
    ensures ParseLine(b).Done? ==> IsLine(ParseLine(b).value)
  {}

  lemma SubjectIsToken(b: seq<byte>)
    ensures ParseSubject(b).Done? ==> IsToken(ParseSubject(b).value)
  {}

  lemma InfoIsWellFormed(b: seq<byte>)
    ensures ParseInfo(b).Done? ==> WellFormed(ParseInfo(b).value)
  {}

  lemma PayloadIsBounded(b: seq<byte>)
    ensures ParsePayload(b).Done? ==> |ParsePayload(b).value| < U64_LIMIT
  {
    U64Stable(b, []);
  }

  lemma MsgIsWellFormed(b: seq<byte>)
    ensures ParseMsg(b).Done? ==> WellFormed(ParseMsg(b).value)
  {
    hide TagNoCase, TakeWhile1, ParseSubject, ParsePayload, U64;
    if ParseMsg(b).Done? {
      var (m, _) := TagNoCase(MSG, b).Extract();
      var (n, _) := ParseWhitespace(m).Extract();
      var (o, _) := ParseSubject(n).Extract();
      SubjectIsToken(n);
      var (p, _) := ParseWhitespace(o).Extract();
      var (q, _) := U64(p).Extract();
      U64Stable(p, []);
      var (r, _) := ParseWhitespace(q).Extract();
      SubjectIsToken(r);
      var (u, _) := ParseOptionalReply(r).Extract();
      PayloadIsBounded(u);
    }
  }

  /** The decoder accepts well-formed operations only, so whatever it accepts can be printed and decoded again. */
  lemma AcceptsWellFormed(b: seq<byte>)
    ensures Decode(b).Decoded? ==> WellFormed(Decode(b).operation)
    ensures Decode(b).Decoded? ==>
      Decode(Print(Decode(b).operation)) == Decoded(Decode(b).operation, |Print(Decode(b).operation)|)
  {
    hide TagNoCase, TakeWhile1, ParseInfo, ParseMsg, Tag;
    InfoIsWellFormed(b);
    MsgIsWellFormed(b);
    if TagNoCase(MINUS_ERR, b).Done? {
      LineIsLine(TagNoCase(MINUS_ERR, b).rest);
    }
    if Decode(b).Decoded? {
      assert WellFormed(Decode(b).operation);
      RoundTrip(Decode(b).operation, []);
      assert Print(Decode(b).operation) + [] == Print(Decode(b).operation);
    }
  }

  // ---------------------------------------------------------------------------------------------
  // Decoding a stream
  // ---------------------------------------------------------------------------------------------

  /** The operations decoded so far, what is left to decode, and whether that has been rejected. */
  datatype Stream = Stream(operations: seq<ServerOperation>, pending: seq<byte>, rejected: bool)

  function Prepend(op: ServerOperation, s: Stream): Stream {
    s.(operations := [op] + s.operations)
  }

  /** Decodes as long as it goes. */
  function DecodeAll(b: seq<byte>): Stream
    decreases |b|
  {
    DecodeIsStable(b, []);
    match Decode(b)
    case BufferTooSmall => Stream([], b, false)
    case InvalidProtocol => Stream([], b, true)
    case Decoded(op, size) =>
      Prepend(op, DecodeAll(b[size..]))
  }

  /** A chunk arrives. */
  function Feed(s: Stream, chunk: seq<byte>): Stream {
    if s.rejected then s.(pending := s.pending + chunk)
    else
      var r := DecodeAll(s.pending + chunk);
      r.(operations := s.operations + r.operations)
  }

  function FeedAll(s: Stream, chunks: seq<seq<byte>>): Stream
    decreases |chunks|
  {
    if chunks == [] then s else FeedAll(Feed(s, chunks[0]), chunks[1..])
  }

  function Flatten(chunks: seq<seq<byte>>): seq<byte> {
    if chunks == [] then [] else chunks[0] + Flatten(chunks[1..])
  }

  lemma FeedPrepends(op: ServerOperation, s: Stream, chunk: seq<byte>)
    ensures Feed(Prepend(op, s), chunk) == Prepend(op, Feed(s, chunk))
  {
    hide DecodeAll;
    var more := DecodeAll(s.pending + chunk);
    assert [op] + (s.operations + more.operations) == ([op] + s.operations) + more.operations;
  }

  lemma DecodeAllUnfolds(b: seq<byte>)
    ensures Decode(b).Decoded? ==>
      Decode(b).size <= |b| && DecodeAll(b) == Prepend(Decode(b).operation, DecodeAll(b[Decode(b).size..]))
  {
    hide Decode;
    DecodeIsStable(b, []);
  }

  lemma {:induction false} DecodeAllExtends(b: seq<byte>, ext: seq<byte>)
    ensures DecodeAll(b + ext) == Feed(DecodeAll(b), ext)
    decreases |b|
  {
    hide Decode;
    DecodeIsStable(b, ext);
    DecodeIsStable(b, []);
    match Decode(b) {
      case BufferTooSmall =>
      case InvalidProtocol =>
      case Decoded(op, size) =>
        DecodeAllExtends(b[size..], ext);
        DecodeAllUnfolds(b);
        DecodeAllUnfolds(b + ext);
        assert (b + ext)[size..] == b[size..] + ext;
        hide DecodeAll, Feed, Prepend;
        FeedPrepends(op, DecodeAll(b[size..]), ext);
    }
  }

  lemma {:induction false} FeedAllExtends(b: seq<byte>, chunks: seq<seq<byte>>)
    ensures FeedAll(DecodeAll(b), chunks) == DecodeAll(b + Flatten(chunks))
    decreases |chunks|
  {
    hide DecodeAll, Feed;
    if chunks == [] {
      assert b + [] == b;
    } else {
      DecodeAllExtends(b, chunks[0]);
      FeedAllExtends(b + chunks[0], chunks[1..]);
      assert b + (chunks[0] + Flatten(chunks[1..])) == (b + chunks[0]) + Flatten(chunks[1..]);
    }
  }

  /** However a stream is cut into chunks, decoding it chunk by chunk gives what decoding it at once gives. */
  lemma ChunkingIsIrrelevant(chunks: seq<seq<byte>>)
    ensures FeedAll(Stream([], [], false), chunks) == DecodeAll(Flatten(chunks))
  {
    assert Decode([]).BufferTooSmall?;
    FeedAllExtends([], chunks);
    assert [] + Flatten(chunks) == Flatten(chunks);
  }

  function PrintAll(ops: seq<ServerOperation>): seq<byte> {
    if ops == [] then [] else Print(ops[0]) + PrintAll(ops[1..])
  }

  /** A printed sequence of operations is decoded to that sequence, with nothing left. */
  lemma {:induction false} StreamRoundTrip(ops: seq<ServerOperation>)
    requires forall op :: op in ops ==> WellFormed(op)
    ensures DecodeAll(PrintAll(ops)) == Stream(ops, [], false)
  {
    hide Print, WellFormed;
    if ops == [] {
      assert Decode([]).BufferTooSmall?;
    } else {
      RoundTrip(ops[0], PrintAll(ops[1..]));
      StreamRoundTrip(ops[1..]);
      DecodeIsStable(PrintAll(ops), []);
      assert (Print(ops[0]) + PrintAll(ops[1..]))[|Print(ops[0])|..] == PrintAll(ops[1..]);
    }
  }
}
