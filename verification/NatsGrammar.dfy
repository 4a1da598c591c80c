/** Where the NATS decoder differs from the grammar that its documentation gives. */
module NatsGrammar {
  import opened Bytes
  import opened NatsWire
  import opened Nom
  import opened NatsServer

  /** An operation survives being printed and decoded if and only if it is well-formed. */
  lemma DecodesPrintedExactly(op: ServerOperation)
    ensures Decode(Print(op)) == Decoded(op, |Print(op)|) <==> WellFormed(op)
  {
    hide Decode;
    if WellFormed(op) {
      RoundTrip(op, []);
      assert Print(op) + [] == Print(op);
    }
    AcceptsWellFormed(Print(op));
  }

  lemma FailsAsMsg(b: seq<byte>)
    requires ParseMsg(b).Error? && |b| > 0 && b[0] == MSG[0]
    ensures Decode(b).InvalidProtocol?
  {
    hide TagNoCase, ParseMsg;
    TagNoCaseFails(INFO, b, 0);
    TagNoCaseFails(PLUS_OK, b, 0);
    TagNoCaseFails(MINUS_ERR, b, 0);
    TagNoCaseFails(PING, b, 0);
    TagNoCaseFails(PONG, b, 0);
  }

  /** A subject ends at the first byte that is no letter, `.`, `*` or `>`: without white space there, nothing helps. */
  lemma OtherSubjectFails(token: seq<byte>, x: byte, rest: seq<byte>)
    requires IsToken(token) && !IsSubject(x) && !IsSpace(x)
    ensures Decode(MSG + (SPACE + (token + ([x] + rest)))).InvalidProtocol?
  {
    var subject := token + ([x] + rest);
    hide TagNoCase, ParseSubject;
    TagReads(MSG, SPACE + subject);
    assert subject[0] == token[0];
    SpaceReads(subject);
    TokenReads(token, [x] + rest);
    assert ParseMsg(MSG + (SPACE + subject)).Error?;
    FailsAsMsg(MSG + (SPACE + subject));
  }

  /** A subscription identifier starts with a digit. */
  lemma OtherSidFails(token: seq<byte>, x: byte, rest: seq<byte>)
    requires IsToken(token) && !IsDigit(x) && !IsSpace(x)
    ensures Decode(MSG + (SPACE + (token + (SPACE + ([x] + rest))))).InvalidProtocol?
  {
    var sid := [x] + rest;
    var subject := token + (SPACE + sid);
    hide TagNoCase, ParseSubject;
    TagReads(MSG, SPACE + subject);
    assert subject[0] == token[0];
    SpaceReads(subject);
    TokenReads(token, SPACE + sid);
    SpaceReads(sid);
    assert U64(sid).Error?;
    assert ParseMsg(MSG + (SPACE + subject)).Error?;
    FailsAsMsg(MSG + (SPACE + subject));
  }

  /** `MSG a1 1 0`, with an empty payload, and `MSG a x 0`: both are in the documented grammar. */
  lemma AlphanumericsFail()
    ensures Decode([77, 83, 71, 32, 97, 49, 32, 49, 32, 48, 13, 10, 13, 10]).InvalidProtocol?
    ensures Decode([77, 83, 71, 32, 97, 32, 120, 32, 48, 13, 10, 13, 10]).InvalidProtocol?
  {
    hide Decode;
    OtherSubjectFails([97], 49, [32, 49, 32, 48, 13, 10, 13, 10]);
    assert MSG + (SPACE + ([97] + ([49] + [32, 49, 32, 48, 13, 10, 13, 10])))
        == [77, 83, 71, 32, 97, 49, 32, 49, 32, 48, 13, 10, 13, 10];
    OtherSidFails([97], 120, [32, 48, 13, 10, 13, 10]);
    assert MSG + (SPACE + ([97] + (SPACE + ([120] + [32, 48, 13, 10, 13, 10]))))
        == [77, 83, 71, 32, 97, 32, 120, 32, 48, 13, 10, 13, 10];
  }

  lemma EmptyLineFails(b: seq<byte>)
    requires b != [] && !NotCr(b[0])
    ensures ParseLine(b).Error?
  {}

  /** An `INFO` without JSON and an `-ERR` without a message are rejected. */
  lemma EmptyTextFails()
    ensures Decode(Print(Info([]))).InvalidProtocol? && Decode(Print(Err([]))).InvalidProtocol?
  {
    hide TagNoCase, ParseLine;
    var info, err := Print(Info([])), Print(Err([]));
    assert info == INFO + (SPACE + CRLF) && err == MINUS_ERR + CRLF;
    EmptyLineFails(CRLF);
    TagReads(INFO, SPACE + CRLF);
    SpaceReads(CRLF);
    TagNoCaseFails(MSG, info, 0);
    TagNoCaseFails(PLUS_OK, info, 0);
    TagNoCaseFails(MINUS_ERR, info, 0);
    TagNoCaseFails(PING, info, 0);
    TagNoCaseFails(PONG, info, 0);
    TagNoCaseFails(INFO, err, 0);
    TagNoCaseFails(MSG, err, 0);
    TagNoCaseFails(PLUS_OK, err, 0);
    TagReads(MINUS_ERR, CRLF);
    TagNoCaseFails(PING, err, 0);
    TagNoCaseFails(PONG, err, 0);
  }

  /** Spaces and tabs at the start of JSON are not preserved: the decoder takes them for the separator. */
  lemma InfoLosesLeadingSpace(spaces: seq<byte>, json: seq<byte>)
    requires (forall i :: 0 <= i < |spaces| ==> IsSpace(spaces[i])) && WellFormed(Info(json))
    ensures Decode(Print(Info(spaces + json))) == Decoded(Info(json), |Print(Info(spaces + json))|)
  {
    hide Decode, ParseInfo;
    SpacedInfoReads(SPACE + spaces, json);
    Reassociates(INFO, SPACE, spaces, json, CRLF);
    InfoDecides(Print(Info(spaces + json)), json);
  }

  lemma Reassociates(a: seq<byte>, b: seq<byte>, c: seq<byte>, d: seq<byte>, e: seq<byte>)
    ensures (a + (b + (c + d))) + e == a + ((b + c) + (d + e))
  {
    assert b + (c + d) == (b + c) + d;
    assert (a + ((b + c) + d)) + e == a + (((b + c) + d) + e);
    assert ((b + c) + d) + e == (b + c) + (d + e);
  }

  lemma InfoDecides(b: seq<byte>, json: seq<byte>)
    requires ParseInfo(b) == Done(CRLF, Info(json)) && |b| >= 2
    ensures Decode(b) == Decoded(Info(json), |b|)
  {
    hide ParseInfo, ParseMsg, ParseOk, ParseErr, ParsePing, ParsePong, Tag;
    assert CRLF + [] == CRLF;
    TagReads(CRLF, []);
  }

  lemma SpacedInfoReads(spaces: seq<byte>, json: seq<byte>)
    requires |spaces| > 0 && (forall i :: 0 <= i < |spaces| ==> IsSpace(spaces[i])) && WellFormed(Info(json))
    ensures ParseInfo(INFO + (spaces + (json + CRLF))) == Done(CRLF, Info(json))
  {
    hide TagNoCase, TakeWhile1, ParseLine;
    var line := json + CRLF;
    assert CRLF + [] == CRLF && line[0] == json[0];
    TagReads(INFO, spaces + line);
    TakesOver(IsSpace, spaces, line);
    LineReads(json, []);
  }
}
