/**
 The NATS protocol byte by byte: what the decoder accepts and what the encoder writes, said in literal bytes and in
 none of the constants and character classes that the codec is made of.
 */
module NatsLiterals {
  import opened Bytes
  import opened Options
  import opened NatsWire
  import opened Nom
  import opened NatsServer
  import C = NatsClient

  // ---------------------------------------------------------------------------------------------
  // The server's language
  // ---------------------------------------------------------------------------------------------

  /** Spaces and tabs. */
  predicate IsGap(s: seq<byte>) {
    s != [] && forall i :: 0 <= i < |s| ==> s[i] == 32 || s[i] == 9
  }

  /** A letter, a full stop, `*` or `>`. */
  predicate IsNameByte(b: byte) {
    65 <= b <= 90 || 97 <= b <= 122 || b == 46 || b == 42 || b == 62
  }

  predicate IsName(s: seq<byte>) {
    s != [] && forall i :: 0 <= i < |s| ==> IsNameByte(s[i])
  }

  /** Digits that denote `n`, which fits 64 bits. */
  predicate IsNumber(s: seq<byte>, n: nat) {
    s != [] && AllDigits(s) && Value(s) == n && n < 0x1_0000_0000_0000_0000
  }

  predicate IsText(s: seq<byte>) {
    s != [] && Utf8(s) && forall i :: 0 <= i < |s| ==> s[i] != 13
  }

  predicate StartsInfo(b: seq<byte>) {
    && |b| >= 4 && (b[0] == 73 || b[0] == 105) && (b[1] == 78 || b[1] == 110)
    && (b[2] == 70 || b[2] == 102) && (b[3] == 79 || b[3] == 111)
  }

  predicate StartsMsg(b: seq<byte>) {
    |b| >= 3 && (b[0] == 77 || b[0] == 109) && (b[1] == 83 || b[1] == 115) && (b[2] == 71 || b[2] == 103)
  }

  predicate StartsOk(b: seq<byte>) {
    |b| >= 3 && b[0] == 43 && (b[1] == 79 || b[1] == 111) && (b[2] == 75 || b[2] == 107)
  }

  predicate StartsErr(b: seq<byte>) {
    && |b| >= 5 && b[0] == 45 && (b[1] == 69 || b[1] == 101) && (b[2] == 82 || b[2] == 114)
    && (b[3] == 82 || b[3] == 114) && b[4] == 32
  }

  predicate StartsPing(b: seq<byte>) {
    && |b| >= 4 && (b[0] == 80 || b[0] == 112) && (b[1] == 73 || b[1] == 105)
    && (b[2] == 78 || b[2] == 110) && (b[3] == 71 || b[3] == 103)
  }

  predicate StartsPong(b: seq<byte>) {
    && |b| >= 4 && (b[0] == 80 || b[0] == 112) && (b[1] == 79 || b[1] == 111)
    && (b[2] == 78 || b[2] == 110) && (b[3] == 71 || b[3] == 103)
  }

  /** `s` is JSON behind white space. */
  predicate IsInfo(s: seq<byte>, gap: seq<byte>, json: seq<byte>) {
    IsGap(gap) && IsText(json) && json[0] != 32 && json[0] != 9 && s == gap + json
  }

  /** The variable parts of a `MSG`: its white space and its numbers. The last gap is there if the reply subject is. */
  datatype Spelling = Spelling(gap: seq<byte>, gap': seq<byte>, sid: seq<byte>, gap'': seq<byte>, reply: seq<byte>,
                               size: seq<byte>)

  /** `s` is what follows `MSG`, up to the last line end. */
  predicate IsMsg(s: seq<byte>, op: ServerOperation, p: Spelling) {
    && op.Msg?
    && IsGap(p.gap) && IsName(op.subject) && IsGap(p.gap') && IsNumber(p.sid, op.sid) && IsGap(p.gap'')
    && IsReply(p.reply, op.replyTo) && IsNumber(p.size, |op.payload|)
    && s == p.gap + (op.subject + (p.gap' + (p.sid + (p.gap'' + (p.reply + (p.size + ([13, 10] + op.payload)))))))
  }

  /** A reply subject with white space behind it, or nothing. */
  predicate IsReply(s: seq<byte>, replyTo: Option<seq<byte>>) {
    if replyTo.None? then s == []
    else IsName(replyTo.value) && replyTo.value <= s && IsGap(s[|replyTo.value|..])
  }

  /** `b` is the operation without its last line end. */
  ghost predicate IsBody(b: seq<byte>, op: ServerOperation) {
    match op
    case Info(json) => StartsInfo(b) && exists gap :: IsInfo(b[4..], gap, json)
    case Msg(_, _, _, _) => StartsMsg(b) && exists p :: IsMsg(b[3..], op, p)
    case Ok => StartsOk(b) && |b| == 3
    case Err(message) => StartsErr(b) && IsText(message) && b[5..] == message
    case Ping => StartsPing(b) && |b| == 4
    case Pong => StartsPong(b) && |b| == 4
  }

  // ---------------------------------------------------------------------------------------------
  // What the parsers accept
  // ---------------------------------------------------------------------------------------------

  lemma TagParts(tag: seq<byte>, b: seq<byte>)
    ensures TagNoCase(tag, b).Done? <==>
      |tag| <= |b| && forall i :: 0 <= i < |tag| ==> Lower(b[i]) == Lower(tag[i])
    ensures TagNoCase(tag, b).Done? ==> TagNoCase(tag, b).rest == b[|tag|..]
  {}

  lemma InfoStart(b: seq<byte>)
    ensures TagNoCase(INFO, b).Done? <==> StartsInfo(b)
  {
    hide TagNoCase;
    TagParts(INFO, b);
  }

  lemma MsgStart(b: seq<byte>)
    ensures TagNoCase(MSG, b).Done? <==> StartsMsg(b)
  {
    hide TagNoCase;
    TagParts(MSG, b);
  }

  lemma OkStart(b: seq<byte>)
    ensures TagNoCase(PLUS_OK, b).Done? <==> StartsOk(b)
  {
    hide TagNoCase;
    TagParts(PLUS_OK, b);
  }

  lemma ErrStart(b: seq<byte>)
    ensures TagNoCase(MINUS_ERR, b).Done? <==> StartsErr(b)
  {
    hide TagNoCase;
    TagParts(MINUS_ERR, b);
  }

  lemma PingStart(b: seq<byte>)
    ensures TagNoCase(PING, b).Done? <==> StartsPing(b)
  {
    hide TagNoCase;
    TagParts(PING, b);
  }

  lemma PongStart(b: seq<byte>)
    ensures TagNoCase(PONG, b).Done? <==> StartsPong(b)
  {
    hide TagNoCase;
    TagParts(PONG, b);
  }

  lemma StartParts(b: seq<byte>)
    ensures TagNoCase(INFO, b).Done? <==> StartsInfo(b)
    ensures TagNoCase(MSG, b).Done? <==> StartsMsg(b)
    ensures TagNoCase(PLUS_OK, b).Done? <==> StartsOk(b)
    ensures TagNoCase(MINUS_ERR, b).Done? <==> StartsErr(b)
    ensures TagNoCase(PING, b).Done? <==> StartsPing(b)
    ensures TagNoCase(PONG, b).Done? <==> StartsPong(b)
  {
    hide TagNoCase;
    InfoStart(b);
    MsgStart(b);
    OkStart(b);
    ErrStart(b);
    PingStart(b);
    PongStart(b);
  }

  lemma GapParts(b: seq<byte>)
    requires ParseWhitespace(b).Done?
    ensures var (rest, gap) := ParseWhitespace(b).Extract();
      IsGap(gap) && gap + rest == b && rest != [] && rest[0] != 32 && rest[0] != 9
  {}

  lemma NameParts(b: seq<byte>)
    requires ParseSubject(b).Done?
    ensures var (rest, name) := ParseSubject(b).Extract(); IsName(name) && name + rest == b
  {}

  lemma TextParts(b: seq<byte>)
    requires ParseLine(b).Done?
    ensures var (rest, text) := ParseLine(b).Extract(); IsText(text) && text + rest == b
  {}

  lemma InfoParts(b: seq<byte>) returns (gap: seq<byte>)
    requires ParseInfo(b).Done?
    ensures var (rest, op) := ParseInfo(b).Extract();
      StartsInfo(b) && op.Info? && IsInfo(gap + op.json, gap, op.json) && b[4..] == (gap + op.json) + rest
  {
    StartParts(b);
    TagParts(INFO, b);
    hide TagNoCase;
    GapParts(b[4..]);
    var (m, g) := ParseWhitespace(b[4..]).Extract();
    gap := g;
    TextParts(m);
  }

  lemma ReplyParts(b: seq<byte>) returns (reply: seq<byte>)
    requires ParseOptionalReply(b).Done?
    ensures var (rest, replyTo) := ParseOptionalReply(b).Extract(); IsReply(reply, replyTo) && reply + rest == b
  {
    hide TakeWhile1, ParseSubject, ParseWhitespace;
    if ParseReply(b).Done? {
      NameParts(b);
      var (m, name) := ParseSubject(b).Extract();
      GapParts(m);
      var (_, gap) := ParseWhitespace(m).Extract();
      reply := name + gap;
      assert reply[|name|..] == gap && reply[..|name|] == name;
    } else {
      reply := [];
    }
  }

  lemma PayloadParts(b: seq<byte>) returns (size: seq<byte>)
    requires ParsePayload(b).Done?
    ensures var (rest, payload) := ParsePayload(b).Extract();
      IsNumber(size, |payload|) && size + ([13, 10] + (payload + rest)) == b
  {
    NumberParts(b);
    var (m, n) := U64(b).Extract();
    size := b[..Span(IsDigit, b)];
    hide U64;
    var (o, _) := ParseNewline(m).Extract();
    assert m == [13, 10] + o;
    assert o == o[..n] + o[n..];
  }

  lemma DeliveryParts(b: seq<byte>, subject: seq<byte>) returns (p: Spelling)
    requires ParseDelivery(b, subject).Done?
    ensures var (rest, op) := ParseDelivery(b, subject).Extract();
      && op.Msg? && op.subject == subject
      && IsNumber(p.sid, op.sid) && IsGap(p.gap'') && IsReply(p.reply, op.replyTo) && IsNumber(p.size, |op.payload|)
      && b == p.sid + (p.gap'' + (p.reply + (p.size + ([13, 10] + (op.payload + rest)))))
  {
    NumberParts(b);
    var sid := b[..Span(IsDigit, b)];
    hide U64, ParseWhitespace, ParseOptionalReply, ParsePayload;
    var (m, _) := U64(b).Extract();
    GapParts(m);
    var (o, gap) := ParseWhitespace(m).Extract();
    var reply := ReplyParts(o);
    var (q, _) := ParseOptionalReply(o).Extract();
    var size := PayloadParts(q);
    p := Spelling([], [], sid, gap, reply, size);
  }

  lemma MsgParts(b: seq<byte>) returns (p: Spelling, s: seq<byte>)
    requires ParseMsg(b).Done?
    ensures var (rest, op) := ParseMsg(b).Extract();
      StartsMsg(b) && op.Msg? && IsMsg(s, op, p) && b[3..] == s + rest
  {
    StartParts(b);
    TagParts(MSG, b);
    hide TagNoCase, ParseWhitespace, ParseSubject, ParseDelivery;
    GapParts(b[3..]);
    var (m, gap) := ParseWhitespace(b[3..]).Extract();
    NameParts(m);
    var (o, subject) := ParseSubject(m).Extract();
    GapParts(o);
    var (q, gap') := ParseWhitespace(o).Extract();
    var d := DeliveryParts(q, subject);
    p := d.(gap := gap, gap' := gap');
    var (rest, op) := ParseMsg(b).Extract();
    s := p.gap + (op.subject + (p.gap' + (p.sid + (p.gap'' + (p.reply + (p.size + ([13, 10] + op.payload)))))));
    SpellingTail(p, op.subject, op.payload, rest);
  }

  lemma SpellingTail(p: Spelling, subject: seq<byte>, payload: seq<byte>, rest: seq<byte>)
    ensures p.gap + (subject + (p.gap' + (p.sid + (p.gap'' + (p.reply + (p.size + ([13, 10] + (payload + rest))))))))
         == p.gap + (subject + (p.gap' + (p.sid + (p.gap'' + (p.reply + (p.size + ([13, 10] + payload))))))) + rest
  {
    var s1 := [13, 10] + payload;
    assert [13, 10] + (payload + rest) == s1 + rest;
    var s2 := p.size + s1;
    assert p.size + (s1 + rest) == s2 + rest;
    var s3 := p.reply + s2;
    assert p.reply + (s2 + rest) == s3 + rest;
    var s4 := p.gap'' + s3;
    assert p.gap'' + (s3 + rest) == s4 + rest;
    var s5 := p.sid + s4;
    assert p.sid + (s4 + rest) == s5 + rest;
    var s6 := p.gap' + s5;
    assert p.gap' + (s5 + rest) == s6 + rest;
    var s7 := subject + s6;
    assert subject + (s6 + rest) == s7 + rest;
    assert p.gap + (s7 + rest) == (p.gap + s7) + rest;
  }

  lemma ErrParts(b: seq<byte>)
    requires ParseErr(b).Done?
    ensures var (rest, op) := ParseErr(b).Extract();
      StartsErr(b) && op.Err? && IsText(op.message) && b[5..] == op.message + rest
  {
    StartParts(b);
    TagParts(MINUS_ERR, b);
    hide TagNoCase;
    TextParts(b[5..]);
  }

  lemma CutTail(b: seq<byte>, k: nat, s: seq<byte>, rest: seq<byte>)
    requires k <= |b| && b[k..] == s + rest
    ensures k + |s| + |rest| == |b| && b[..|b| - |rest|][k..] == s && b[|b| - |rest|..] == rest
  {
    assert b == b[..k] + (s + rest);
  }

  lemma WordParts(b: seq<byte>)
    ensures ParseOk(b).Done? ==> ParseOk(b) == Done(b[3..], Ok) && StartsOk(b)
    ensures ParsePing(b).Done? ==> ParsePing(b) == Done(b[4..], Ping) && StartsPing(b)
    ensures ParsePong(b).Done? ==> ParsePong(b) == Done(b[4..], Pong) && StartsPong(b)
  {
    StartParts(b);
    TagParts(PLUS_OK, b);
    TagParts(PING, b);
    TagParts(PONG, b);
    hide TagNoCase;
  }

  /** Whatever an operation is parsed from is its body, in some spelling. */
  lemma AnyParts(b: seq<byte>)
    requires ParseAny(b).Done?
    ensures var (rest, op) := ParseAny(b).Extract();
      |rest| <= |b| && rest == b[|b| - |rest|..] && IsBody(b[..|b| - |rest|], op)
  {
    hide ParseInfo, ParseMsg, ParseOk, ParseErr, ParsePing, ParsePong, IsInfo, IsMsg;
    var (rest, op) := ParseAny(b).Extract();
    if ParseInfo(b).Done? {
      var gap := InfoParts(b);
      CutTail(b, 4, gap + op.json, rest);
      assert IsInfo(b[..|b| - |rest|][4..], gap, op.json);
      InfoStarts(b[..|b| - |rest|], b);
    } else if ParseMsg(b).Done? && ParseAny(b) == ParseMsg(b) {
      var p, s := MsgParts(b);
      CutTail(b, 3, s, rest);
      assert IsMsg(b[..|b| - |rest|][3..], op, p);
      InfoStarts(b[..|b| - |rest|], b);
    } else if ParseOk(b).Done? && ParseAny(b) == ParseOk(b) {
      WordParts(b);
      CutTail(b, 3, [], rest);
    } else if ParseErr(b).Done? && ParseAny(b) == ParseErr(b) {
      ErrParts(b);
      CutTail(b, 5, op.message, rest);
    } else if ParsePing(b).Done? && ParseAny(b) == ParsePing(b) {
      WordParts(b);
      CutTail(b, 4, [], rest);
    } else {
      WordParts(b);
      CutTail(b, 4, [], rest);
    }
  }

  /** A prefix of sufficient length starts alike. */
  lemma InfoStarts(a: seq<byte>, b: seq<byte>)
    requires a <= b
    ensures |a| >= 4 && StartsInfo(b) ==> StartsInfo(a)
    ensures |a| >= 3 && StartsMsg(b) ==> StartsMsg(a)
  {}

  // ---------------------------------------------------------------------------------------------
  // What the parsers must accept
  // ---------------------------------------------------------------------------------------------

  lemma GapReads(gap: seq<byte>, tail: seq<byte>)
    requires IsGap(gap) && tail != [] && tail[0] != 32 && tail[0] != 9
    ensures ParseWhitespace(gap + tail) == Done(tail, gap)
  {
    TakesOver(IsSpace, gap, tail);
  }

  lemma NameReads(name: seq<byte>, tail: seq<byte>)
    requires IsName(name) && tail != [] && !IsNameByte(tail[0])
    ensures ParseSubject(name + tail) == Done(tail, name)
  {
    TakesOver(IsSubject, name, tail);
    AsciiIsUtf8(name);
  }

  lemma TextReads(text: seq<byte>, tail: seq<byte>)
    requires IsText(text) && tail != [] && tail[0] == 13
    ensures ParseLine(text + tail) == Done(tail, text)
  {
    TakesOver(NotCr, text, tail);
  }

  lemma InfoBodyReads(b: seq<byte>, gap: seq<byte>, json: seq<byte>, tail: seq<byte>)
    requires StartsInfo(b) && IsInfo(b[4..], gap, json) && tail != [] && tail[0] == 13
    ensures ParseInfo(b + tail) == Done(tail, Info(json))
  {
    var x := b + tail;
    StartParts(x);
    TagParts(INFO, x);
    hide TagNoCase, ParseWhitespace, ParseLine;
    assert x[4..] == gap + (json + tail);
    assert (json + tail)[0] == json[0];
    GapReads(gap, json + tail);
    TextReads(json, tail);
  }

  lemma ReplyBodyReads(reply: seq<byte>, replyTo: Option<seq<byte>>, tail: seq<byte>)
    requires IsReply(reply, replyTo) && tail != [] && IsDigit(tail[0])
    ensures ParseOptionalReply(reply + tail) == Done(tail, replyTo)
  {
    match replyTo {
      case Some(name) =>
        var gap := reply[|name|..];
        assert reply + tail == name + (gap + tail);
        assert (gap + tail)[0] == gap[0];
        NameReads(name, gap + tail);
        GapReads(gap, tail);
      case None =>
        assert reply + tail == tail;
        assert Span(IsSubject, tail) == 0;
    }
  }

  lemma PayloadBodyReads(size: seq<byte>, payload: seq<byte>, tail: seq<byte>)
    requires IsNumber(size, |payload|)
    ensures ParsePayload(size + ([13, 10] + (payload + tail))) == Done(tail, payload)
  {
    hide Tag, U64;
    NumberReads(size, [13, 10] + (payload + tail));
    TagReads(CRLF, payload + tail);
    assert (payload + tail)[|payload|..] == tail && (payload + tail)[..|payload|] == payload;
  }

  lemma DeliveryBodyReads(op: ServerOperation, p: Spelling, tail: seq<byte>)
    requires op.Msg? && IsNumber(p.sid, op.sid) && IsGap(p.gap'') && IsReply(p.reply, op.replyTo)
    requires IsNumber(p.size, |op.payload|)
    ensures ParseDelivery(p.sid + (p.gap'' + (p.reply + (p.size + ([13, 10] + (op.payload + tail))))), op.subject)
         == Done(tail, op)
  {
    hide U64, ParseWhitespace, ParseOptionalReply, ParsePayload;
    var payload := p.size + ([13, 10] + (op.payload + tail));
    var reply := p.reply + payload;
    assert payload[0] == p.size[0];
    assert reply[0] != 32 && reply[0] != 9 by {
      assert reply[0] == if p.reply == [] then payload[0] else p.reply[0];
    }
    assert (p.gap'' + reply)[0] == p.gap''[0];
    NumberReads(p.sid, p.gap'' + reply);
    GapReads(p.gap'', reply);
    ReplyBodyReads(p.reply, op.replyTo, payload);
    PayloadBodyReads(p.size, op.payload, tail);
  }

  lemma MsgBodyReads(b: seq<byte>, op: ServerOperation, p: Spelling, tail: seq<byte>)
    requires StartsMsg(b) && IsMsg(b[3..], op, p)
    ensures ParseMsg(b + tail) == Done(tail, op)
  {
    var x := b + tail;
    StartParts(x);
    TagParts(MSG, x);
    hide TagNoCase, ParseWhitespace, ParseSubject, ParseDelivery;
    var delivery := p.sid + (p.gap'' + (p.reply + (p.size + ([13, 10] + (op.payload + tail)))));
    SpellingTail(p, op.subject, op.payload, tail);
    assert x[3..] == b[3..] + tail;
    assert x[3..] == p.gap + (op.subject + (p.gap' + delivery));
    assert (op.subject + (p.gap' + delivery))[0] == op.subject[0] && delivery[0] == p.sid[0];
    assert (p.gap' + delivery)[0] == p.gap'[0];
    GapReads(p.gap, op.subject + (p.gap' + delivery));
    NameReads(op.subject, p.gap' + delivery);
    GapReads(p.gap', delivery);
    DeliveryBodyReads(op, p, tail);
  }

  lemma ErrBodyReads(b: seq<byte>, message: seq<byte>, tail: seq<byte>)
    requires StartsErr(b) && IsText(message) && b[5..] == message && tail != [] && tail[0] == 13
    ensures ParseErr(b + tail) == Done(tail, Err(message))
  {
    var x := b + tail;
    StartParts(x);
    TagParts(MINUS_ERR, x);
    hide TagNoCase, ParseLine;
    assert x[5..] == message + tail;
    TextReads(message, tail);
  }

  lemma WordBodyReads(b: seq<byte>, tail: seq<byte>)
    ensures StartsOk(b) && |b| == 3 ==> ParseOk(b + tail) == Done(tail, Ok)
    ensures StartsPing(b) && |b| == 4 ==> ParsePing(b + tail) == Done(tail, Ping)
    ensures StartsPong(b) && |b| == 4 ==> ParsePong(b + tail) == Done(tail, Pong)
  {
    var x := b + tail;
    StartParts(x);
    TagParts(PLUS_OK, x);
    TagParts(PING, x);
    TagParts(PONG, x);
    hide TagNoCase;
    assert x[|b|..] == tail;
  }

  /** The first two bytes decide which alternative it is. */
  lemma OthersFail(b: seq<byte>)
    requires |b| >= 2
    ensures b[0] != 73 && b[0] != 105 ==> ParseInfo(b).Error?
    ensures b[0] != 77 && b[0] != 109 ==> ParseMsg(b).Error?
    ensures b[0] != 43 ==> ParseOk(b).Error?
    ensures b[0] != 45 ==> ParseErr(b).Error?
    ensures b[1] != 73 && b[1] != 105 ==> ParsePing(b).Error?
  {
    if b[0] != 73 && b[0] != 105 {
      TagNoCaseFails(INFO, b, 0);
    }
    if b[0] != 77 && b[0] != 109 {
      TagNoCaseFails(MSG, b, 0);
    }
    if b[0] != 43 {
      TagNoCaseFails(PLUS_OK, b, 0);
    }
    if b[0] != 45 {
      TagNoCaseFails(MINUS_ERR, b, 0);
    }
    if b[1] != 73 && b[1] != 105 {
      TagNoCaseFails(PING, b, 1);
    }
    hide TagNoCase;
  }

  lemma AnyBodyReads(b: seq<byte>, op: ServerOperation, tail: seq<byte>)
    requires IsBody(b, op) && tail != [] && tail[0] == 13
    ensures ParseAny(b + tail) == Done(tail, op)
  {
    hide ParseInfo, ParseMsg, ParseOk, ParseErr, ParsePing, ParsePong, IsInfo, IsMsg;
    OthersFail(b + tail);
    match op {
      case Info(json) =>
        var gap :| IsInfo(b[4..], gap, json);
        InfoBodyReads(b, gap, json, tail);
      case Msg(_, _, _, _) =>
        var p :| IsMsg(b[3..], op, p);
        MsgBodyReads(b, op, p, tail);
      case Err(message) => ErrBodyReads(b, message, tail);
      case _ => WordBodyReads(b, tail);
    }
  }

  /**
   The decoder, exactly: it decodes `op` from the first `n` bytes if and only if these bytes are `op` in one of the
   spellings of the protocol, with a line end behind it.
   */
  lemma DecodesExactly(b: seq<byte>, op: ServerOperation, n: nat)
    ensures Decode(b) == Decoded(op, n) <==>
      2 <= n <= |b| && IsBody(b[..n - 2], op) && b[n - 2..n] == [13, 10]
  {
    hide ParseAny, Tag, IsBody;
    if Decode(b) == Decoded(op, n) {
      AnyParts(b);
      var (m, _) := ParseAny(b).Extract();
      NewlineParts(m);
      assert b[n - 2..n] == m[..2];
    }
    if 2 <= n <= |b| && IsBody(b[..n - 2], op) && b[n - 2..n] == [13, 10] {
      assert b == b[..n - 2] + ([13, 10] + b[n..]);
      AnyBodyReads(b[..n - 2], op, [13, 10] + b[n..]);
      TagReads(CRLF, b[n..]);
    }
  }

  lemma NewlineParts(b: seq<byte>)
    requires ParseNewline(b).Done?
    ensures |b| >= 2 && b[..2] == [13, 10] && ParseNewline(b).rest == b[2..]
  {}

  /** The three operations without arguments, byte by byte, whatever follows them. */
  lemma WordsDecode(tail: seq<byte>)
    ensures Decode([80, 73, 78, 71, 13, 10] + tail) == Decoded(Ping, 6)
    ensures Decode([80, 79, 78, 71, 13, 10] + tail) == Decoded(Pong, 6)
    ensures Decode([43, 79, 75, 13, 10] + tail) == Decoded(Ok, 5)
  {
    hide Decode;
    DecodesExactly([80, 73, 78, 71, 13, 10] + tail, Ping, 6);
    DecodesExactly([80, 79, 78, 71, 13, 10] + tail, Pong, 6);
    DecodesExactly([43, 79, 75, 13, 10] + tail, Ok, 5);
  }

  // ---------------------------------------------------------------------------------------------
  // What the client writes
  // ---------------------------------------------------------------------------------------------

  /** The decimal digits of `n`, without a leading zero. */
  predicate IsPlainNumber(s: seq<byte>, n: nat) {
    s != [] && AllDigits(s) && Value(s) == n && (s[0] == 48 ==> s == [48])
  }

  lemma DecimalIsPlain(n: nat)
    ensures IsPlainNumber(Decimal(n), n)
  {
    DecimalIsCanonical(n);
  }

  function Spaced(token: Option<seq<byte>>): seq<byte> {
    if token.Some? then token.value + [32] else []
  }

  /** `s` is what the client has to write for `op`. */
  ghost predicate IsWritten(s: seq<byte>, op: C.ClientOperation) {
    match op
    case Connect(json) => s == [67, 79, 78, 78, 69, 67, 84, 32] + (json + [13, 10])
    case Pub(_, _, payload) => exists size :: IsPlainNumber(size, |payload|) && IsPub(s, op, size)
    case Hpub(_, _, _, _) => false
    case Sub(_, _, sid) => exists number :: IsPlainNumber(number, sid) && IsSub(s, op, number)
    case Unsub(sid, max) =>
      exists number, limit :: IsPlainNumber(number, sid) && IsLimit(limit, max) && IsUnsub(s, number, limit)
    case Ping => s == [80, 73, 78, 71, 13, 10]
    case Pong => s == [80, 79, 78, 71, 13, 10]
  }

  predicate IsPub(s: seq<byte>, op: C.ClientOperation, size: seq<byte>)
    requires op.Pub?
  {
    s == [80, 85, 66, 32] + (op.subject + ([32] + (Spaced(op.replyTo) + (size + ([13, 10] + (op.payload + [13, 10]))))))
  }

  predicate IsSub(s: seq<byte>, op: C.ClientOperation, number: seq<byte>)
    requires op.Sub?
  {
    s == [83, 85, 66, 32] + (op.subject + ([32] + (Spaced(op.queueGroup) + (number + [13, 10]))))
  }

  predicate IsUnsub(s: seq<byte>, number: seq<byte>, limit: seq<byte>) {
    s == [85, 78, 83, 85, 66, 32] + (number + (limit + [13, 10]))
  }

  /** A space and the number, or nothing. */
  predicate IsLimit(s: seq<byte>, max: Option<nat>) {
    if max.None? then s == [] else |s| > 1 && s[0] == 32 && IsPlainNumber(s[1..], max.value)
  }

  lemma LimitLiterally(max: Option<nat>)
    ensures IsLimit(C.Limit(max), max)
  {
    if max.Some? {
      DecimalIsPlain(max.value);
      assert C.Limit(max)[1..] == Decimal(max.value);
    }
  }

  /** The encoding of an operation, byte by byte. */
  lemma EncodesLiterally(op: C.ClientOperation)
    requires !op.Hpub?
    ensures IsWritten(C.Encoded(op), op)
  {
    hide Decimal, IsPlainNumber;
    match op {
      case Pub(_, _, payload) =>
        DecimalIsPlain(|payload|);
        assert IsPub(C.Encoded(op), op, Decimal(|payload|));
      case Sub(_, _, sid) =>
        DecimalIsPlain(sid);
        assert IsSub(C.Encoded(op), op, Decimal(sid));
      case Unsub(sid, max) =>
        DecimalIsPlain(sid);
        LimitLiterally(max);
        assert IsUnsub(C.Encoded(op), Decimal(sid), C.Limit(max));
      case _ =>
    }
  }
}
