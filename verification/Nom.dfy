/** Bytes, UTF-8, decimal numbers, and the streaming parsers of the `nom` crate that the NATS codec is made of. */
module Nom {
  import opened Bytes

  /** The result of a streaming parser: a value and what is left, a request for more input, or a failure. */
  datatype Parsed<+T> = Done(rest: seq<byte>, value: T) | Incomplete | Error {
    predicate IsFailure() {
      !Done?
    }

    function PropagateFailure<U>(): Parsed<U>
      requires IsFailure()
    {
      if Incomplete? then Incomplete else Error
    }

    function Extract(): (seq<byte>, T)
      requires Done?
    {
      (rest, value)
    }
  }

  // ---------------------------------------------------------------------------------------------
  // Parsers
  // ---------------------------------------------------------------------------------------------

  function Lower(b: byte): byte {
    if 65 <= b <= 90 then b + 32 else b
  }

  /** `tag_no_case`: a mismatch in the part that is there is an error even when the input is short. */
  function TagNoCase(tag: seq<byte>, b: seq<byte>): Parsed<()> {
    if exists i :: 0 <= i < |tag| && i < |b| && Lower(b[i]) != Lower(tag[i]) then Error
    else if |b| < |tag| then Incomplete
    else Done(b[|tag|..], ())
  }

  /** `tag`. */
  function Tag(tag: seq<byte>, b: seq<byte>): Parsed<()> {
    if exists i :: 0 <= i < |tag| && i < |b| && b[i] != tag[i] then Error
    else if |b| < |tag| then Incomplete
    else Done(b[|tag|..], ())
  }

  /** The length of the longest prefix whose bytes all satisfy `p`. */
  function Span(p: byte -> bool, b: seq<byte>): (n: nat)
    ensures n <= |b|
    ensures forall i :: 0 <= i < n ==> p(b[i])
    ensures n < |b| ==> !p(b[n])
  {
    if b == [] || !p(b[0]) then 0 else 1 + Span(p, b[1..])
  }

  /** `take_while1`, and `take_till1` on the negated predicate: the end of the run must be seen. */
  function TakeWhile1(p: byte -> bool, b: seq<byte>): Parsed<seq<byte>> {
    var n := Span(p, b);
    if n == |b| then Incomplete
    else if n == 0 then Error
    else Done(b[n..], b[..n])
  }

  /** `take`. */
  function Take(n: nat, b: seq<byte>): Parsed<seq<byte>> {
    if |b| < n then Incomplete else Done(b[n..], b[..n])
  }

  const U64_LIMIT: nat := 0x1_0000_0000_0000_0000

  predicate IsDigit(b: byte) {
    48 <= b <= 57
  }

  /** `u64`, from position `pos` with `value` accumulated: multiplication and addition are checked for overflow. */
  function U64From(b: seq<byte>, pos: nat, value: nat): Parsed<nat>
    requires pos <= |b|
    decreases |b| - pos
  {
    if pos == |b| then Incomplete
    else if !IsDigit(b[pos]) then (if pos == 0 then Error else Done(b[pos..], value))
    else if value * 10 + (b[pos] - 48) >= U64_LIMIT then Error
    else U64From(b, pos + 1, value * 10 + (b[pos] - 48))
  }

  function U64(b: seq<byte>): Parsed<nat> {
    U64From(b, 0, 0)
  }

  /** `alt`, of two parsers on the same input: the second counts only if the first fails. */
  function Alt<T>(first: Parsed<T>, second: Parsed<T>): Parsed<T> {
    if first.Error? then second else first
  }

  // ---------------------------------------------------------------------------------------------
  // Text
  // ---------------------------------------------------------------------------------------------

  predicate Continues(b: byte) {
    0x80 <= b <= 0xBF
  }

  /** How many bytes the first character of a UTF-8 text takes; 0 if there is no valid one. */
  function CharWidth(s: seq<byte>): (n: nat)
    ensures n <= |s|
  {
    if s == [] then 0
    else if s[0] < 0x80 then 1
    else if |s| >= 2 && 0xC2 <= s[0] <= 0xDF && Continues(s[1]) then 2
    else if |s| >= 3 && Continues(s[2])
      && ((s[0] == 0xE0 && 0xA0 <= s[1] <= 0xBF) || (s[0] == 0xED && 0x80 <= s[1] <= 0x9F)
          || ((0xE1 <= s[0] <= 0xEC || 0xEE <= s[0] <= 0xEF) && Continues(s[1]))) then 3
    else if |s| >= 4 && Continues(s[2]) && Continues(s[3])
      && ((s[0] == 0xF0 && 0x90 <= s[1] <= 0xBF) || (s[0] == 0xF4 && 0x80 <= s[1] <= 0x8F)
          || (0xF1 <= s[0] <= 0xF3 && Continues(s[1]))) then 4
    else 0
  }

  /** `str::from_utf8` succeeds. */
  predicate Utf8(s: seq<byte>)
    decreases |s|
  {
    s == [] || (CharWidth(s) > 0 && Utf8(s[CharWidth(s)..]))
  }

  /** `map_res` with `str::from_utf8`. */
  function AsText(p: Parsed<seq<byte>>): Parsed<seq<byte>> {
    if p.Done? && !Utf8(p.value) then Error else p
  }

  lemma {:induction false} AsciiIsUtf8(s: seq<byte>)
    requires forall i :: 0 <= i < |s| ==> s[i] < 0x80
    ensures Utf8(s)
  {
    if s != [] {
      AsciiIsUtf8(s[1..]);
    }
  }

  // ---------------------------------------------------------------------------------------------
  // Decimal numbers
  // ---------------------------------------------------------------------------------------------

  /** Decimal digits without leading zeros, as `itoa` and `to_string` print. */
  function Decimal(n: nat): (s: seq<byte>)
    ensures |s| > 0 && forall i :: 0 <= i < |s| ==> IsDigit(s[i])
  {
    if n < 10 then [48 + n] else Decimal(n / 10) + [48 + n % 10]
  }

  /** Reading the digits of `n` brings the parser to their end with the value `n`. */
  lemma {:induction false} ReadsDecimal(n: nat, tail: seq<byte>)
    requires n < U64_LIMIT
    ensures U64From(Decimal(n) + tail, 0, 0) == U64From(Decimal(n) + tail, |Decimal(n)|, n)
  {
    var b := Decimal(n) + tail;
    if n >= 10 {
      var k := |Decimal(n / 10)|;
      assert b == Decimal(n / 10) + ([48 + n % 10] + tail);
      ReadsDecimal(n / 10, [48 + n % 10] + tail);
      assert b[k] == 48 + n % 10;
    } else {
      assert b[0] == 48 + n;
    }
  }

  /** A printed number followed by something else than a digit is read back. */
  lemma DecimalRoundTrip(n: nat, tail: seq<byte>)
    requires n < U64_LIMIT && tail != [] && !IsDigit(tail[0])
    ensures U64(Decimal(n) + tail) == Done(tail, n)
  {
    ReadsDecimal(n, tail);
    assert (Decimal(n) + tail)[|Decimal(n)|..] == tail;
  }

  predicate AllDigits(s: seq<byte>) {
    forall i :: 0 <= i < |s| ==> 48 <= s[i] <= 57
  }

  /** The number that decimal digits denote, leading zeros or not. */
  function Value(s: seq<byte>): nat
    requires AllDigits(s)
  {
    if s == [] then 0 else Value(s[..|s| - 1]) * 10 + (s[|s| - 1] - 48)
  }

  /** Printing gives the digits of the number itself, without a leading zero. */
  lemma {:induction false} DecimalIsCanonical(n: nat)
    ensures AllDigits(Decimal(n)) && Value(Decimal(n)) == n
    ensures n == 0 ==> Decimal(n) == [48]
    ensures n > 0 ==> Decimal(n)[0] != 48
  {
    if n >= 10 {
      DecimalIsCanonical(n / 10);
      assert Decimal(n)[..|Decimal(n)| - 1] == Decimal(n / 10);
    } else {
      assert Decimal(n)[..|Decimal(n)| - 1] == [];
    }
  }

  lemma {:induction false} PrefixIsSmaller(s: seq<byte>, k: nat)
    requires AllDigits(s) && k <= |s|
    ensures Value(s[..k]) <= Value(s)
  {
    if k < |s| {
      PrefixIsSmaller(s[..|s| - 1], k);
      assert s[..|s| - 1][..k] == s[..k];
    } else {
      assert s[..k] == s;
    }
  }

  /** After the first `k` digits the parser has their value. */
  lemma {:induction false} ReadsDigits(s: seq<byte>, tail: seq<byte>, k: nat)
    requires AllDigits(s) && k <= |s| && Value(s[..k]) < U64_LIMIT
    ensures U64From(s + tail, 0, 0) == U64From(s + tail, k, Value(s[..k]))
  {
    if k > 0 {
      assert s[..k][..k - 1] == s[..k - 1];
      ReadsDigits(s, tail, k - 1);
      assert (s + tail)[k - 1] == s[k - 1];
    }
  }

  /** Digits that are followed by something else are read as their value if it fits, and rejected if it does not. */
  lemma NumberReads(s: seq<byte>, tail: seq<byte>)
    requires s != [] && AllDigits(s) && tail != [] && !IsDigit(tail[0])
    ensures U64(s + tail) == if Value(s) < U64_LIMIT then Done(tail, Value(s)) else Error
  {
    if Value(s) < U64_LIMIT {
      assert s[..|s|] == s;
      ReadsDigits(s, tail, |s|);
      assert (s + tail)[|s|..] == tail;
    } else {
      var k := Overflow(s);
      ReadsDigits(s, tail, k);
      assert (s + tail)[k] == s[k] && s[..k + 1][..k] == s[..k];
    }
  }

  /** The last position where the value of the digits before still fits. */
  lemma {:induction false} Overflow(s: seq<byte>) returns (k: nat)
    requires AllDigits(s) && Value(s) >= U64_LIMIT
    ensures k < |s| && Value(s[..k]) < U64_LIMIT && Value(s[..k + 1]) >= U64_LIMIT
  {
    if Value(s[..|s| - 1]) < U64_LIMIT {
      k := |s| - 1;
      assert s[..k + 1] == s;
    } else {
      k := Overflow(s[..|s| - 1]);
      assert s[..|s| - 1][..k] == s[..k] && s[..|s| - 1][..k + 1] == s[..k + 1];
    }
  }

  /** What the number parser accepts are digits up to the first byte that is none, with their value. */
  lemma NumberParts(b: seq<byte>)
    requires U64(b).Done?
    ensures var (rest, n) := U64(b).Extract();
      var s := b[..Span(IsDigit, b)];
      && s != [] && AllDigits(s) && Value(s) == n < U64_LIMIT && s + rest == b && rest != []
  {
    var k := Span(IsDigit, b);
    var s, tail := b[..k], b[k..];
    assert b == s + tail;
    if k == |b| {
      DigitsOnlyNeedMore(b);
    } else if k > 0 {
      NumberReads(s, tail);
    }
  }

  lemma {:induction false} DigitsOnlyNeedMoreFrom(b: seq<byte>, pos: nat, value: nat)
    requires pos <= |b| && AllDigits(b)
    ensures !U64From(b, pos, value).Done?
    decreases |b| - pos
  {
    if pos < |b| {
      DigitsOnlyNeedMoreFrom(b, pos + 1, value * 10 + (b[pos] - 48));
    }
  }

  lemma DigitsOnlyNeedMore(b: seq<byte>)
    requires AllDigits(b)
    ensures !U64(b).Done?
  {
    DigitsOnlyNeedMoreFrom(b, 0, 0);
  }

  // ---------------------------------------------------------------------------------------------
  // Reading what was written
  // ---------------------------------------------------------------------------------------------

  lemma TagReads(tag: seq<byte>, tail: seq<byte>)
    ensures TagNoCase(tag, tag + tail) == Done(tail, ()) && Tag(tag, tag + tail) == Done(tail, ())
  {}

  lemma TagFails(tag: seq<byte>, b: seq<byte>, i: nat)
    requires i < |tag| && i < |b| && b[i] != tag[i]
    ensures Tag(tag, b).Error?
  {}

  lemma TagNoCaseFails(tag: seq<byte>, b: seq<byte>, i: nat)
    requires i < |tag| && i < |b| && Lower(b[i]) != Lower(tag[i])
    ensures TagNoCase(tag, b).Error?
  {}

  lemma {:induction false} SpanOver(p: byte -> bool, a: seq<byte>, tail: seq<byte>)
    requires (forall i :: 0 <= i < |a| ==> p(a[i])) && tail != [] && !p(tail[0])
    ensures Span(p, a + tail) == |a|
  {
    if a == [] {
      assert a + tail == tail;
    } else {
      assert (a + tail)[1..] == a[1..] + tail;
      SpanOver(p, a[1..], tail);
    }
  }

  lemma TakesOver(p: byte -> bool, a: seq<byte>, tail: seq<byte>)
    requires |a| > 0 && (forall i :: 0 <= i < |a| ==> p(a[i])) && tail != [] && !p(tail[0])
    ensures TakeWhile1(p, a + tail) == Done(tail, a)
  {
    SpanOver(p, a, tail);
    assert (a + tail)[|a|..] == tail && (a + tail)[..|a|] == a;
  }

  // ---------------------------------------------------------------------------------------------
  // Stability: more input never changes a verdict
  // ---------------------------------------------------------------------------------------------

  /** `r'` is what `r` becomes when `ext` is added to the input, and `r` leaves a proper or whole suffix of `b`. */
  ghost predicate Stable<T(!new)>(b: seq<byte>, r: Parsed<T>, r': Parsed<T>, ext: seq<byte>) {
    match r
    case Done(rest, value) =>
      r' == Done(rest + ext, value) && |rest| <= |b| && rest == b[|b| - |rest|..]
    case Error => r'.Error?
    case Incomplete => true
  }

  lemma TagNoCaseStable(tag: seq<byte>, b: seq<byte>, ext: seq<byte>)
    ensures Stable(b, TagNoCase(tag, b), TagNoCase(tag, b + ext), ext)
    ensures TagNoCase(tag, b).Done? ==> |TagNoCase(tag, b).rest| == |b| - |tag|
  {}

  lemma TagStable(tag: seq<byte>, b: seq<byte>, ext: seq<byte>)
    ensures Stable(b, Tag(tag, b), Tag(tag, b + ext), ext)
  {}

  lemma {:induction false} SpanStable(p: byte -> bool, b: seq<byte>, ext: seq<byte>)
    ensures Span(p, b) < |b| ==> Span(p, b + ext) == Span(p, b)
  {
    if b != [] && p(b[0]) {
      SpanStable(p, b[1..], ext);
      assert (b + ext)[1..] == b[1..] + ext;
    }
  }

  lemma TakeWhile1Stable(p: byte -> bool, b: seq<byte>, ext: seq<byte>)
    ensures Stable(b, TakeWhile1(p, b), TakeWhile1(p, b + ext), ext)
  {
    SpanStable(p, b, ext);
    var n := Span(p, b);
    assert (b + ext)[n..] == b[n..] + ext && (b + ext)[..n] == b[..n];
  }

  lemma TakeStable(n: nat, b: seq<byte>, ext: seq<byte>)
    ensures Stable(b, Take(n, b), Take(n, b + ext), ext)
  {
    if n <= |b| {
      assert (b + ext)[n..] == b[n..] + ext && (b + ext)[..n] == b[..n];
    }
  }

  lemma {:induction false} U64FromStable(b: seq<byte>, pos: nat, value: nat, ext: seq<byte>)
    requires pos <= |b|
    ensures Stable(b, U64From(b, pos, value), U64From(b + ext, pos, value), ext)
    ensures U64From(b, pos, value).Done? && value < U64_LIMIT ==> U64From(b, pos, value).value < U64_LIMIT
    decreases |b| - pos
  {
    if pos < |b| {
      assert (b + ext)[pos] == b[pos] && (b + ext)[pos..] == b[pos..] + ext;
      if IsDigit(b[pos]) && value * 10 + (b[pos] - 48) < U64_LIMIT {
        U64FromStable(b, pos + 1, value * 10 + (b[pos] - 48), ext);
      }
    }
  }

  lemma U64Stable(b: seq<byte>, ext: seq<byte>)
    ensures Stable(b, U64(b), U64(b + ext), ext)
    ensures U64(b).Done? ==> U64(b).value < U64_LIMIT
  {
    U64FromStable(b, 0, 0, ext);
  }

  lemma AsTextStable(b: seq<byte>, r: Parsed<seq<byte>>, r': Parsed<seq<byte>>, ext: seq<byte>)
    requires Stable(b, r, r', ext)
    ensures Stable(b, AsText(r), AsText(r'), ext)
  {}
}
