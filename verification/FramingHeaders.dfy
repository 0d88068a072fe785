/** Header blocks in general: any lines, in any order, around the length. */
module FramingHeaders {
  import opened Basics
  import opened Framing

  /** A header line, without its end: not empty, and with no CR. */
  predicate ProperLine(line: seq<Byte>) {
    line != [] && CR !in line
  }

  /** What precedes the first colon of a line, and what follows it. */
  function KeyOf(line: seq<Byte>): (key: seq<Byte>)
    ensures COLON !in key && (key == line || key + [COLON] <= line)
  {
    var k := IndexOfColon(line);
    line[..k]
  }

  function ValueOf(line: seq<Byte>): (value: seq<Byte>)
    ensures if COLON in line then line == KeyOf(line) + [COLON] + value else value == []
  {
    var k := IndexOfColon(line);
    assert k < |line| ==> line == line[..k] + [COLON] + line[k + 1..];
    assert k == |line| ==> line[..k] == line;
    if k < |line| then line[k + 1..] else []
  }

  function Lines(lines: seq<seq<Byte>>): seq<Byte> {
    if lines == [] then [] else lines[0] + [CR, LF] + Lines(lines[1..])
  }

  /** Line `i` is the last one with this key. */
  predicate LastLine(lines: seq<seq<Byte>>, i: int, key: seq<Byte>) {
    0 <= i < |lines| && KeyOf(lines[i]) == key && forall j :: i < j < |lines| ==> KeyOf(lines[j]) != key
  }

  predicate HasKey(lines: seq<seq<Byte>>, key: seq<Byte>) {
    exists i :: 0 <= i < |lines| && KeyOf(lines[i]) == key
  }

  /** `headers` gives each key among the lines the value of its last line, and the others what `before` gives them. */
  ghost predicate LastValues(lines: seq<seq<Byte>>, before: Headers, headers: Headers) {
    && (forall i, key :: LastLine(lines, i, key) ==> key in headers && headers[key] == ValueOf(lines[i]))
    && (forall key :: !HasKey(lines, key) ==>
          (key in headers <==> key in before) && (key in headers ==> headers[key] == before[key]))
  }

  lemma {:induction false} OneHeader(headers: Headers, line: seq<Byte>)
    ensures AddHeader(headers, line) == headers[KeyOf(line) := ValueOf(line)]
  {
  }

  lemma {:induction false} LastValuesCons(
    line: seq<Byte>, rest: seq<seq<Byte>>, before: Headers, headers: Headers)
    requires LastValues(rest, before[KeyOf(line) := ValueOf(line)], headers)
    ensures LastValues([line] + rest, before, headers)
  {
    var lines := [line] + rest;
    assert forall i :: 0 <= i < |rest| ==> lines[i + 1] == rest[i];
    forall i, key | LastLine(lines, i, key) ensures key in headers && headers[key] == ValueOf(lines[i]) {
      if i > 0 {
        assert LastLine(rest, i - 1, key);
      } else {
        assert !HasKey(rest, key) by {
          forall j | 0 <= j < |rest| ensures KeyOf(rest[j]) != key {
            assert lines[j + 1] == rest[j];
          }
        }
      }
    }
    forall key | !HasKey(lines, key)
      ensures (key in headers <==> key in before) && (key in headers ==> headers[key] == before[key])
    {
      assert lines[0] == line && KeyOf(lines[0]) != key;
      assert !HasKey(rest, key);
    }
  }

  lemma {:induction false} NextLine(line: seq<Byte>, rest: seq<seq<Byte>>, tail: seq<Byte>, headers: Headers)
    requires ProperLine(line)
    ensures ReadHeaders(Lines([line] + rest) + tail, headers)
            == ReadHeaders(Lines(rest) + tail, headers[KeyOf(line) := ValueOf(line)])
  {
    var data := Lines([line] + rest) + tail;
    assert ([line] + rest)[1..] == rest;
    assert data == line + [CR, LF] + (Lines(rest) + tail);
    ReadLineBack(line, Lines(rest) + tail);
    OneHeader(headers, line);
  }

  /** For every block of header lines, the reader keeps for each key the value of its last line, and stops right after
      the empty line. */
  lemma {:induction false} HeadersExactly(lines: seq<seq<Byte>>, tail: seq<Byte>, before: Headers)
    returns (headers: Headers)
    requires forall i :: 0 <= i < |lines| ==> ProperLine(lines[i])
    ensures ReadHeaders(Lines(lines) + ([CR, LF] + tail), before) == HeaderBlock(headers, tail)
    ensures LastValues(lines, before, headers)
  {
    if lines == [] {
      assert Lines(lines) + ([CR, LF] + tail) == [] + [CR, LF] + tail;
      ReadLineBack([], tail);
      headers := before;
      assert LastValues(lines, before, headers);
    } else {
      var line, rest := lines[0], lines[1..];
      assert lines == [line] + rest;
      headers := HeadersExactly(rest, tail, before[KeyOf(line) := ValueOf(line)]);
      NextLine(line, rest, [CR, LF] + tail, before);
      LastValuesCons(line, rest, before, headers);
    }
  }

  /** What a message whose length header says `length` is read as, when `tail` follows its headers. */
  ghost predicate ReadAs(length: Option<int>, tail: seq<Byte>, outcome: ReadResult, rest: seq<Byte>) {
    match length
    case None => outcome == InvalidLength && rest == tail
    case Some(n) =>
      if n < 0 || n > 0xFFFFFF then outcome == InvalidLength && rest == tail
      else if |tail| < n then outcome == NoMoreMessages
      else outcome == Body(tail[..n]) && rest == tail[n..]
  }

  lemma {:induction false} AfterHeaders(data: seq<Byte>, headers: Headers, tail: seq<Byte>)
    requires ReadHeaders(data, map[]) == HeaderBlock(headers, tail)
    ensures CONTENT_LENGTH !in headers ==> ReadMessage(data) == (InvalidLength, tail)
    ensures CONTENT_LENGTH in headers ==>
              ReadAs(ParseInt(headers[CONTENT_LENGTH]), tail, ReadMessage(data).0, ReadMessage(data).1)
  {
  }

  /** What a message is read as: its last Content-Length decides, whatever other headers there are and wherever; without
      one it is invalid. */
  lemma {:induction false} MessageExactly(lines: seq<seq<Byte>>, tail: seq<Byte>)
    requires forall i :: 0 <= i < |lines| ==> ProperLine(lines[i])
    ensures var (outcome, rest) := ReadMessage(Lines(lines) + ([CR, LF] + tail));
            && (!HasKey(lines, CONTENT_LENGTH) ==> outcome == InvalidLength && rest == tail)
            && forall i :: LastLine(lines, i, CONTENT_LENGTH) ==>
                 ReadAs(ParseInt(ValueOf(lines[i])), tail, outcome, rest)
  {
    var headers := HeadersExactly(lines, tail, map[]);
    AfterHeaders(Lines(lines) + ([CR, LF] + tail), headers, tail);
  }

  /** A body with any headers before its length, and any but another length after it, is read back. */
  lemma {:induction false} BodyWithHeaders(
    before: seq<seq<Byte>>, after: seq<seq<Byte>>, body: seq<Byte>, tail: seq<Byte>)
    requires forall i :: 0 <= i < |before| ==> ProperLine(before[i])
    requires forall i :: 0 <= i < |after| ==> ProperLine(after[i])
    requires !HasKey(after, CONTENT_LENGTH) && |body| <= 0xFFFFFF
    ensures ReadMessage(Lines(before + [LengthLine(body)] + after) + ([CR, LF] + (body + tail))) == (Body(body), tail)
  {
    var lines, k := before + [LengthLine(body)] + after, |before|;
    LengthLineHasNoCr(body);
    PartitionBack(CONTENT_LENGTH, [SPACE] + Decimal(|body|));
    LengthRoundTrip(|body|);
    assert lines[k] == LengthLine(body) && KeyOf(lines[k]) == CONTENT_LENGTH;
    assert ValueOf(lines[k]) == [SPACE] + Decimal(|body|);
    forall j | k < j < |lines| ensures KeyOf(lines[j]) != CONTENT_LENGTH {
      assert lines[j] == after[j - k - 1];
    }
    forall i | 0 <= i < |lines| ensures ProperLine(lines[i]) {
      assert i < k ==> lines[i] == before[i];
      assert i > k ==> lines[i] == after[i - k - 1];
    }
    assert LastLine(lines, k, CONTENT_LENGTH);
    MessageExactly(lines, body + tail);
    assert (body + tail)[..|body|] == body && (body + tail)[|body|..] == tail;
  }

  /** A stream that ends inside a body. */
  lemma {:induction false} TruncatedBody(body: seq<Byte>, n: nat)
    requires n < |body| <= 0xFFFFFF
    ensures ReadMessage(LengthLine(body) + [CR, LF] + ([CR, LF] + body[..n])).0 == NoMoreMessages
  {
    var line := LengthLine(body);
    LengthLineHasNoCr(body);
    PartitionBack(CONTENT_LENGTH, [SPACE] + Decimal(|body|));
    LengthRoundTrip(|body|);
    assert Lines([line]) == line + [CR, LF] + [];
    assert LastLine([line], 0, CONTENT_LENGTH);
    MessageExactly([line], body[..n]);
    assert line + [CR, LF] + [] == line + [CR, LF];
  }

  // ---- The bytes themselves ----

  function Ascii(s: string): seq<Byte>
    requires forall i :: 0 <= i < |s| ==> s[i] as int < 128
  {
    seq(|s|, i requires 0 <= i < |s| => s[i] as int)
  }

  /** What a short message looks like on the wire. */
  lemma {:induction false} ShortFrame(body: seq<Byte>)
    requires |body| < 10
    ensures Frame(body) == Ascii("Content-Length: ") + [48 + |body|] + Ascii("\r\n\r\n") + body
  {
    assert CONTENT_LENGTH == Ascii("Content-Length");
    assert Ascii("Content-Length: ") == CONTENT_LENGTH + [COLON] + [SPACE];
    assert Ascii("\r\n\r\n") == [CR, LF] + [CR, LF];
  }

  // ---- int() ----

  /** A byte that can be part of a number. */
  predicate InNumber(b: Byte) {
    IsDigit(b) || IsSpace(b) || b == 43 || b == 45 || b == 95
  }

  lemma {:induction false} DigitsReject(s: seq<Byte>, value: int, ready: bool)
    requires exists i :: 0 <= i < |s| && !IsDigit(s[i]) && s[i] != 95
    ensures ParseDigits(s, value, ready).None?
  {
    var i :| 0 <= i < |s| && !IsDigit(s[i]) && s[i] != 95;
    if i > 0 {
      assert s[1..][i - 1] == s[i];
      if IsDigit(s[0]) {
        DigitsReject(s[1..], 10 * value + (s[0] - 48), true);
      } else if s[0] == 95 && ready {
        DigitsReject(s[1..], value, false);
      }
    }
  }

  lemma {:induction false} StripKeeps(s: seq<Byte>, b: Byte)
    requires !IsSpace(b)
    ensures b in StripLeft(s) <==> b in s
    ensures b in StripRight(s) <==> b in s
    decreases |s|
  {
    if s != [] {
      if IsSpace(s[0]) {
        StripKeeps(s[1..], b);
      }
      if IsSpace(s[|s| - 1]) {
        assert s == s[..|s| - 1] + [s[|s| - 1]];
        StripKeeps(s[..|s| - 1], b);
      }
    }
  }

  /** Anything else in the text makes it no number. */
  lemma {:induction false} OtherBytesRejected(text: seq<Byte>, b: Byte)
    requires b in text && !InNumber(b)
    ensures ParseInt(text).None?
  {
    StripKeeps(text, b);
    StripKeeps(StripLeft(text), b);
    var s := StripRight(StripLeft(text));
    var i :| 0 <= i < |s| && s[i] == b;
    if s[0] == 45 || s[0] == 43 {
      assert s[1..][i - 1] == b;
      DigitsReject(s[1..], 0, false);
    } else {
      DigitsReject(s, 0, false);
    }
  }

  /** Digits with single underscores between them. */
  predicate Grouped(s: seq<Byte>, ready: bool) {
    if s == [] then ready
    else if IsDigit(s[0]) then Grouped(s[1..], true)
    else s[0] == 95 && ready && Grouped(s[1..], false)
  }

  function Digits(s: seq<Byte>): seq<Byte> {
    if s == [] then [] else (if s[0] == 95 then [] else [s[0]]) + Digits(s[1..])
  }

  /** Which are read as the number without them. */
  lemma {:induction false} GroupedExactly(s: seq<Byte>, value: int, ready: bool)
    ensures ParseDigits(s, value, ready).Some? <==> Grouped(s, ready)
    ensures Grouped(s, ready) ==> ParseDigits(s, value, ready) == ParseDigits(Digits(s), value, ready || s != [])
  {
    if s == [] {
    } else if IsDigit(s[0]) {
      GroupedExactly(s[1..], 10 * value + (s[0] - 48), true);
      assert Digits(s) == [s[0]] + Digits(s[1..]);
      assert ([s[0]] + Digits(s[1..]))[1..] == Digits(s[1..]);
    } else if s[0] == 95 && ready {
      GroupedExactly(s[1..], value, false);
      assert Digits(s) == [] + Digits(s[1..]);
      assert [] + Digits(s[1..]) == Digits(s[1..]);
    }
  }

  /** Signs count, and blanks around do not. */
  lemma {:induction false} SignedNumbers(n: nat)
    ensures ParseInt([45] + Decimal(n)).Some? && ParseInt([45] + Decimal(n)).value + n == 0
    ensures ParseInt([43] + Decimal(n)) == Some(n)
    ensures ParseInt(Decimal(n) + [SPACE]) == Some(n)
    ensures ParseInt([]).None?
  {
    DecimalDigits(n);
    DecimalRoundTrip(n);
    var d := Decimal(n);
    var minus, plus, blank := [45] + d, [43] + d, d + [SPACE];
    assert minus[1..] == d && plus[1..] == d;
    assert StripLeft(minus) == minus && StripRight(minus) == minus by {
      assert minus[|minus| - 1] == d[|d| - 1];
    }
    assert StripLeft(plus) == plus && StripRight(plus) == plus by {
      assert plus[|plus| - 1] == d[|d| - 1];
    }
    assert StripLeft(blank) == blank && blank[..|blank| - 1] == d;
    assert StripRight(d) == d;
  }
}
