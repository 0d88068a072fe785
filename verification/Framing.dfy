/**
The framing of JsonIOStream in common/messaging.py (the base protocol of the Debug Adapter Protocol): what write_json
puts on the wire for a body, and what read_json makes of the bytes it finds. Bodies are opaque bytes; the JSON text and
its UTF-8 encoding are not modelled.
*/
module Framing {
  import opened Basics

  type Byte = b: int | 0 <= b < 256

  const MAX_BODY_SIZE: int := 0xFFFFFF
  const CR: Byte := 13
  const LF: Byte := 10
  const COLON: Byte := 58
  const SPACE: Byte := 32
  const CONTENT_LENGTH: seq<Byte> := [67, 111, 110, 116, 101, 110, 116, 45, 76, 101, 110, 103, 116, 104]

  // ---- Writing ----

  function Decimal(n: nat): seq<Byte> {
    if n < 10 then [48 + n] else Decimal(n / 10) + [48 + n % 10]
  }

  function LengthLine(body: seq<Byte>): seq<Byte> {
    CONTENT_LENGTH + [COLON] + ([SPACE] + Decimal(|body|))
  }

  /** The bytes of one message. */
  function Frame(body: seq<Byte>): seq<Byte> {
    LengthLine(body) + [CR, LF] + ([CR, LF] + body)
  }

  function FrameAll(bodies: seq<seq<Byte>>): seq<Byte> {
    if bodies == [] then [] else Frame(bodies[0]) + FrameAll(bodies[1..])
  }

  // ---- Header lines ----

  predicate CrLfAt(s: seq<Byte>, i: int)
    requires 0 <= i < |s| - 1
  {
    s[i] == CR && s[i + 1] == LF
  }

  predicate HasNoCrLf(s: seq<Byte>) {
    forall i :: 0 <= i < |s| - 1 ==> !CrLfAt(s, i)
  }

  /** The position of the first CR LF, if any. */
  function FirstCrLf(s: seq<Byte>): (r: Option<nat>)
    ensures r.None? ==> HasNoCrLf(s)
    ensures r.Some? ==> r.value < |s| - 1 && CrLfAt(s, r.value) && forall i :: 0 <= i < r.value ==> !CrLfAt(s, i)
  {
    if |s| < 2 then None
    else if CrLfAt(s, 0) then Some(0)
    else
      match FirstCrLf(s[1..])
      case None =>
        assert forall i :: 0 < i < |s| - 1 ==> CrLfAt(s, i) == CrLfAt(s[1..], i - 1);
        None
      case Some(k) =>
        assert forall i :: 0 < i < |s| - 1 ==> CrLfAt(s, i) == CrLfAt(s[1..], i - 1);
        Some(k + 1)
  }

  lemma {:induction false} FirstCrLfUnique(s: seq<Byte>, k: nat)
    requires k < |s| - 1 && CrLfAt(s, k) && forall i :: 0 <= i < k ==> !CrLfAt(s, i)
    ensures FirstCrLf(s) == Some(k)
  {
  }

  /** What _read_line does with the unread bytes: a line, cut at the first CR LF even if it holds bare LFs; the end of
      the stream; or, when the stream ends inside a line, an endless loop on an empty readline(). */
  datatype LineResult = Line(line: seq<Byte>, rest: seq<Byte>) | LineEnd | LineSpins

  function ReadLine(data: seq<Byte>): LineResult {
    if data == [] then LineEnd
    else
      match FirstCrLf(data)
      case None => LineSpins
      case Some(k) => Line(data[..k], data[k + 2..])
  }

  type Headers = map<seq<Byte>, seq<Byte>>

  function IndexOfColon(line: seq<Byte>): (k: nat)
    ensures k <= |line| && COLON !in line[..k] && (k < |line| ==> line[k] == COLON)
  {
    if line == [] || line[0] == COLON then 0
    else
      var k := IndexOfColon(line[1..]);
      assert line[..k + 1] == [line[0]] + line[1..][..k];
      k + 1
  }

  /** key, _, value = line.partition(b":"); headers[key] = value */
  function AddHeader(headers: Headers, line: seq<Byte>): Headers {
    var k := IndexOfColon(line);
    headers[line[..k] := if k < |line| then line[k + 1..] else []]
  }

  datatype HeadersResult = HeaderBlock(headers: Headers, rest: seq<Byte>) | HeadersEnd | HeadersSpin

  function ReadHeaders(data: seq<Byte>, headers: Headers): HeadersResult
    decreases |data|
  {
    match ReadLine(data)
    case LineEnd => HeadersEnd
    case LineSpins => HeadersSpin
    case Line(line, rest) =>
      if line == [] then HeaderBlock(headers, rest) else ReadHeaders(rest, AddHeader(headers, line))
  }

  // ---- int() on bytes ----

  predicate IsSpace(b: Byte) {
    b == SPACE || 9 <= b <= 13
  }

  predicate IsDigit(b: Byte) {
    48 <= b <= 57
  }

  function StripLeft(s: seq<Byte>): seq<Byte> {
    if s != [] && IsSpace(s[0]) then StripLeft(s[1..]) else s
  }

  function StripRight(s: seq<Byte>): seq<Byte> {
    if s != [] && IsSpace(s[|s| - 1]) then StripRight(s[..|s| - 1]) else s
  }

  /** Decimal digits with single underscores between them; `ready` says that a digit came just before. */
  function ParseDigits(s: seq<Byte>, value: int, ready: bool): Option<int> {
    if s == [] then if ready then Some(value) else None
    else if IsDigit(s[0]) then ParseDigits(s[1..], 10 * value + (s[0] - 48), true)
    else if s[0] == 95 && ready then ParseDigits(s[1..], value, false)
    else None
  }

  function ParseInt(text: seq<Byte>): Option<int> {
    var s := StripRight(StripLeft(text));
    if s != [] && s[0] == 45 then
      match ParseDigits(s[1..], 0, false)
      case None => None
      case Some(v) => Some(-v)
    else
      ParseDigits(if s != [] && s[0] == 43 then s[1..] else s, 0, false)
  }

  // ---- Messages ----

  /** The outcome of read_json: a body; NoMoreMessages; the IOError for a missing or invalid Content-Length; or the
      endless loop above. */
  datatype ReadResult = Body(body: seq<Byte>) | NoMoreMessages | InvalidLength | Spins

  function ContentLength(headers: Headers): Option<nat> {
    if CONTENT_LENGTH !in headers then None
    else
      match ParseInt(headers[CONTENT_LENGTH])
      case None => None
      case Some(n) => if 0 <= n <= MAX_BODY_SIZE then Some(n) else None
  }

  /** read_json on the unread bytes `data`, and what it leaves unread. */
  function ReadMessage(data: seq<Byte>): (ReadResult, seq<Byte>) {
    match ReadHeaders(data, map[])
    case HeadersEnd => (NoMoreMessages, [])
    case HeadersSpin => (Spins, [])
    case HeaderBlock(headers, rest) =>
      match ContentLength(headers)
      case None => (InvalidLength, rest)
      case Some(n) => if |rest| < n then (NoMoreMessages, []) else (Body(rest[..n]), rest[n..])
  }

  lemma {:induction false} ReadHeadersShrinks(data: seq<Byte>, headers: Headers)
    ensures var r := ReadHeaders(data, headers); r.HeaderBlock? ==> |r.rest| < |data|
    decreases |data|
  {
    match ReadLine(data)
    case Line(line, rest) =>
      if line != [] {
        ReadHeadersShrinks(rest, AddHeader(headers, line));
      }
    case _ =>
  }

  // ---- When the reader spins ----

  /** An empty line ends the headers: a CR LF at the start, or two in a row. */
  ghost predicate HasEmptyLine(data: seq<Byte>) {
    || (|data| >= 2 && CrLfAt(data, 0))
    || exists i :: 0 <= i < |data| - 3 && CrLfAt(data, i) && CrLfAt(data, i + 2)
  }

  predicate EndsInCrLf(data: seq<Byte>) {
    |data| >= 2 && CrLfAt(data, |data| - 2)
  }

  /** Both properties are those of what follows the first line, if that is not empty. */
  lemma {:induction false} AfterFirstLine(data: seq<Byte>, k: nat)
    requires 0 < k < |data| - 1 && CrLfAt(data, k) && forall i :: 0 <= i < k ==> !CrLfAt(data, i)
    ensures HasEmptyLine(data) <==> HasEmptyLine(data[k + 2..])
    ensures EndsInCrLf(data) <==> data[k + 2..] == [] || EndsInCrLf(data[k + 2..])
  {
    var rest := data[k + 2..];
    assert forall i :: 0 <= i < |rest| - 1 ==> CrLfAt(rest, i) == CrLfAt(data, i + k + 2);
    if HasEmptyLine(data) {
      var i :| 0 <= i < |data| - 3 && CrLfAt(data, i) && CrLfAt(data, i + 2);
      assert i == k || i >= k + 2;
      if i == k {
        assert CrLfAt(rest, 0);
      } else {
        assert CrLfAt(rest, i - k - 2) && CrLfAt(rest, i - k - 2 + 2);
      }
    }
    if HasEmptyLine(rest) {
      if CrLfAt(rest, 0) {
        assert CrLfAt(data, k) && CrLfAt(data, k + 2);
      } else {
        var i :| 0 <= i < |rest| - 3 && CrLfAt(rest, i) && CrLfAt(rest, i + 2);
        assert CrLfAt(data, i + k + 2) && CrLfAt(data, i + k + 2 + 2);
      }
    }
    if |rest| == 1 {
      assert data[|data| - 2] == LF;
    }
  }

  /** Reading headers spins exactly when the input is not empty, has no empty line, and does not end with a line. */
  lemma {:induction false} HeadersSpinExactlyWhen(data: seq<Byte>, headers: Headers)
    ensures ReadHeaders(data, headers).HeadersSpin? <==> data != [] && !HasEmptyLine(data) && !EndsInCrLf(data)
    decreases |data|
  {
    if data != [] && FirstCrLf(data).Some? {
      var k := FirstCrLf(data).value;
      if k > 0 {
        AfterFirstLine(data, k);
        HeadersSpinExactlyWhen(data[k + 2..], AddHeader(headers, data[..k]));
      }
    }
  }

  /** So does read_json. */
  lemma {:induction false} SpinsExactlyWhen(data: seq<Byte>)
    ensures ReadMessage(data).0 == Spins <==> data != [] && !HasEmptyLine(data) && !EndsInCrLf(data)
  {
    HeadersSpinExactlyWhen(data, map[]);
  }

  /** One byte is enough. */
  lemma {:induction false} OneByteSpins(b: Byte)
    ensures ReadMessage([b]).0 == Spins
  {
    SpinsExactlyWhen([b]);
  }

  /** All messages up to the first outcome that is not a body; the loop of _parse_incoming_messages. */
  function ReadStream(data: seq<Byte>): (seq<seq<Byte>>, ReadResult)
    decreases |data|
  {
    ReadHeadersShrinks(data, map[]);
    var (result, rest) := ReadMessage(data);
    if result.Body? then
      var (bodies, end) := ReadStream(rest);
      ([result.body] + bodies, end)
    else ([], result)
  }

  // ---- Reading back what was written ----

  lemma {:induction false} ParseDigitsSnoc(s: seq<Byte>, d: Byte, value: int, ready: bool)
    requires IsDigit(d) && ParseDigits(s, value, ready).Some?
    ensures ParseDigits(s + [d], value, ready) == Some(10 * ParseDigits(s, value, ready).value + (d - 48))
  {
    if s == [] {
      assert [d][1..] == [];
    } else {
      assert (s + [d])[1..] == s[1..] + [d];
      if IsDigit(s[0]) {
        ParseDigitsSnoc(s[1..], d, 10 * value + (s[0] - 48), true);
      } else {
        ParseDigitsSnoc(s[1..], d, value, false);
      }
    }
  }

  lemma {:induction false} DecimalDigits(n: nat)
    ensures Decimal(n) != [] && forall i :: 0 <= i < |Decimal(n)| ==> IsDigit(Decimal(n)[i])
  {
    if n >= 10 {
      DecimalDigits(n / 10);
    }
  }

  lemma {:induction false} DecimalRoundTrip(n: nat)
    ensures ParseDigits(Decimal(n), 0, false) == Some(n)
  {
    if n < 10 {
      assert Decimal(n)[1..] == [];
    } else {
      DecimalRoundTrip(n / 10);
      ParseDigitsSnoc(Decimal(n / 10), 48 + n % 10, 0, false);
    }
  }

  /** int() accepts the printed length, with the space that follows the colon. */
  lemma {:induction false} LengthRoundTrip(n: nat)
    ensures ParseInt([SPACE] + Decimal(n)) == Some(n)
  {
    DecimalDigits(n);
    DecimalRoundTrip(n);
    var text := [SPACE] + Decimal(n);
    assert text[1..] == Decimal(n);
    assert StripLeft(text) == Decimal(n);
    assert StripRight(Decimal(n)) == Decimal(n);
  }

  /** A line without CR is read back as it is, up to the CR LF that ends it. */
  lemma {:induction false} ReadLineBack(line: seq<Byte>, rest: seq<Byte>)
    requires CR !in line
    ensures ReadLine(line + [CR, LF] + rest) == Line(line, rest)
  {
    var data := line + [CR, LF] + rest;
    assert CrLfAt(data, |line|);
    assert forall i :: 0 <= i < |line| ==> data[i] == line[i];
    FirstCrLfUnique(data, |line|);
    assert data[..|line|] == line && data[|line| + 2..] == rest;
  }

  lemma {:induction false} PartitionBack(key: seq<Byte>, value: seq<Byte>)
    requires COLON !in key
    ensures var line := key + [COLON] + value;
      IndexOfColon(line) == |key| && line[..|key|] == key && line[|key| + 1..] == value
  {
    var line := key + [COLON] + value;
    assert line[|key|] == COLON;
  }

  lemma {:induction false} LengthLineHasNoCr(body: seq<Byte>)
    ensures CR !in LengthLine(body)
  {
    DecimalDigits(|body|);
    assert CR !in CONTENT_LENGTH;
    assert CR !in Decimal(|body|);
  }

  /** The header block of a frame is read back as just its length. */
  lemma {:induction false} FrameHeaders(body: seq<Byte>, tail: seq<Byte>)
    ensures ReadHeaders(Frame(body) + tail, map[]) ==
      HeaderBlock(map[CONTENT_LENGTH := [SPACE] + Decimal(|body|)], body + tail)
  {
    var line, rest := LengthLine(body), [CR, LF] + (body + tail);
    LengthLineHasNoCr(body);
    assert COLON !in CONTENT_LENGTH;
    PartitionBack(CONTENT_LENGTH, [SPACE] + Decimal(|body|));
    assert Frame(body) + tail == line + [CR, LF] + rest;
    ReadLineBack(line, rest);
    ReadLineBack([], body + tail);
    assert [] + [CR, LF] + (body + tail) == rest;
    assert AddHeader(map[], line) == map[CONTENT_LENGTH := [SPACE] + Decimal(|body|)];
  }

  /** A written message is read back, and its bytes alone are consumed, exactly when its body is not larger than the
      reader allows; write_json does not look at the size, and read_json rejects a larger one. */
  lemma {:induction false} FrameRoundTrip(body: seq<Byte>, tail: seq<Byte>)
    ensures ReadMessage(Frame(body) + tail) ==
      (if |body| <= MAX_BODY_SIZE then (Body(body), tail) else (InvalidLength, body + tail))
  {
    FrameHeaders(body, tail);
    LengthRoundTrip(|body|);
    assert (body + tail)[..|body|] == body && (body + tail)[|body|..] == tail;
  }

  /** How many of the bodies come before the first that is too large. */
  function Acceptable(bodies: seq<seq<Byte>>): (k: nat)
    ensures k <= |bodies| && forall i :: 0 <= i < k ==> |bodies[i]| <= MAX_BODY_SIZE
    ensures k < |bodies| ==> |bodies[k]| > MAX_BODY_SIZE
  {
    if bodies == [] || |bodies[0]| > MAX_BODY_SIZE then 0 else 1 + Acceptable(bodies[1..])
  }

  /** For any sequence of written bodies, the reader returns them all, in order, and then sees the end of the stream;
      unless one is too large: then it returns those before it and fails on that one. */
  lemma {:induction false} StreamRoundTrip(bodies: seq<seq<Byte>>)
    ensures var k := Acceptable(bodies);
      ReadStream(FrameAll(bodies)) == (bodies[..k], if k == |bodies| then NoMoreMessages else InvalidLength)
  {
    if bodies != [] {
      var first, rest := bodies[0], bodies[1..];
      FrameRoundTrip(first, FrameAll(rest));
      if |first| <= MAX_BODY_SIZE {
        StreamRoundTrip(rest);
        ReadOneMore(FrameAll(bodies), first, FrameAll(rest));
        AcceptOneMore(bodies);
      }
    }
  }

  lemma {:induction false} ReadOneMore(data: seq<Byte>, body: seq<Byte>, rest: seq<Byte>)
    requires ReadMessage(data) == (Body(body), rest)
    ensures ReadStream(data) == ([body] + ReadStream(rest).0, ReadStream(rest).1)
  {
  }

  lemma {:induction false} AcceptOneMore(bodies: seq<seq<Byte>>)
    requires bodies != [] && |bodies[0]| <= MAX_BODY_SIZE
    ensures var k := Acceptable(bodies[1..]);
      Acceptable(bodies) == k + 1 && bodies[..k + 1] == [bodies[0]] + bodies[1..][..k]
  {
  }

  /** Different sequences of acceptable bodies never share a wire image. */
  lemma {:induction false} FramingInjective(a: seq<seq<Byte>>, b: seq<seq<Byte>>)
    requires Acceptable(a) == |a| && Acceptable(b) == |b| && FrameAll(a) == FrameAll(b)
    ensures a == b
  {
    assert ReadStream(FrameAll(a)).0 == a by {
      StreamRoundTrip(a);
    }
    assert ReadStream(FrameAll(b)).0 == b by {
      StreamRoundTrip(b);
    }
  }
}
