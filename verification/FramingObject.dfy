/**
JsonIOStream's loops over its reader and writer. The reader hands out the stream in pieces of any size, as does the
writer take them; both may fail at any call. Whatever the pieces, reading does what Framing says of the whole bytes.
*/
module FramingObject {
  import opened Basics
  import opened Framing

  /** A byte stream being read. `broken` records that a call raised. */
  class Reader {
    var unread: seq<Byte>
    var broken: bool

    /** readline(): at most the rest of the line, and at least one byte unless the stream has ended. */
    method ReadLinePiece() returns (piece: seq<Byte>)
      modifies this
      ensures broken ==> unread == old(unread) && piece == []
      ensures !broken ==> !old(broken) && piece + unread == old(unread) && (piece == [] <==> old(unread) == [])
      ensures forall i :: 0 <= i < |piece| - 1 ==> piece[i] != LF
    {
      var fails: bool := *;
      if broken || fails {
        broken, piece := true, [];
      } else if unread == [] {
        piece := [];
      } else {
        var n: nat :| 1 <= n <= |unread| && forall i :: 0 <= i < n - 1 ==> unread[i] != LF;
        piece, unread := unread[..n], unread[n..];
      }
    }

    /** read(limit): at least one byte unless the stream has ended. */
    method ReadPiece(limit: nat) returns (piece: seq<Byte>)
      requires limit > 0
      modifies this
      ensures broken ==> unread == old(unread) && piece == []
      ensures !broken ==> !old(broken) && piece + unread == old(unread) && (piece == [] <==> old(unread) == [])
      ensures |piece| <= limit
    {
      var fails: bool := *;
      if broken || fails {
        broken, piece := true, [];
      } else if unread == [] {
        piece := [];
      } else {
        var n: nat :| 1 <= n <= |unread| && n <= limit;
        piece, unread := unread[..n], unread[n..];
      }
    }
  }

  lemma {:induction false} LineCut(line: seq<Byte>, rest: seq<Byte>)
    requires |line| >= 2 && FirstCrLf(line + rest) == Some(|line| - 2)
    ensures ReadLine(line + rest) == Line(line[..|line| - 2], rest)
  {
    assert (line + rest)[..|line| - 2] == line[..|line| - 2];
    assert (line + rest)[|line|..] == rest;
  }

  /** A piece that stops at the first LF, added to a line that holds no CR LF: either the line still holds none, or it
      now ends in its first. */
  lemma {:induction false} LineGrows(line: seq<Byte>, piece: seq<Byte>, rest: seq<Byte>)
    requires HasNoCrLf(line) && forall i :: 0 <= i < |piece| - 1 ==> piece[i] != LF
    ensures var s := line + piece;
      if |s| >= 2 && CrLfAt(s, |s| - 2) && piece != [] then ReadLine(s + rest) == Line(s[..|s| - 2], rest)
      else HasNoCrLf(s)
  {
    var s := line + piece;
    forall i | 0 <= i < |s| - 2 ensures !CrLfAt(s, i) {
      if i + 1 < |line| {
        assert !CrLfAt(line, i);
      } else {
        assert s[i + 1] == piece[i + 1 - |line|];
      }
    }
    if |s| >= 2 && CrLfAt(s, |s| - 2) && piece != [] {
      assert forall i :: 0 <= i < |s| - 1 ==> CrLfAt(s + rest, i) == CrLfAt(s, i);
      FirstCrLfUnique(s + rest, |s| - 2);
      LineCut(s, rest);
    } else if piece == [] {
      assert s == line;
    }
  }

  datatype LineOutcome = GotLine(line: seq<Byte>) | NoLine | Spinning

  /** The line, what is left unread, and the outcome agree with ReadLine of the whole unread bytes. */
  predicate LineAgrees(outcome: LineOutcome, unread: seq<Byte>, spec: LineResult) {
    match spec
    case Line(line, rest) => outcome == GotLine(line) && unread == rest
    case LineEnd => outcome == NoLine && unread == []
    case LineSpins => outcome == Spinning && unread == []
  }

  /** _read_line. The last test stands for what the source does next in that case: call readline() again, for ever. */
  method ReadOneLine(reader: Reader) returns (outcome: LineOutcome)
    requires !reader.broken
    modifies reader
    ensures reader.broken ==> outcome == NoLine
    ensures !reader.broken ==> LineAgrees(outcome, reader.unread, ReadLine(old(reader.unread)))
  {
    ghost var data := reader.unread;
    var line := [];
    while true
      invariant !reader.broken && line + reader.unread == data && HasNoCrLf(line)
      decreases |reader.unread|
    {
      var piece := reader.ReadLinePiece();
      if reader.broken {
        return NoLine;
      }
      LineGrows(line, piece, reader.unread);
      ConcatAssociative(line, piece, reader.unread);
      line := line + piece;
      assert line + reader.unread == data;
      if |line| == 0 {
        return NoLine;
      }
      if |line| >= 2 && CrLfAt(line, |line| - 2) {
        return GotLine(line[..|line| - 2]);
      }
      if |piece| == 0 {
        assert line == data;
        return Spinning;
      }
    }
  }

  datatype HeadersOutcome = GotHeaders(headers: Headers) | NoHeaders | SpinningHeaders

  predicate HeadersAgree(outcome: HeadersOutcome, unread: seq<Byte>, spec: HeadersResult) {
    match spec
    case HeaderBlock(headers, rest) => outcome == GotHeaders(headers) && unread == rest
    case HeadersEnd => outcome == NoHeaders
    case HeadersSpin => outcome == SpinningHeaders
  }

  /** The first loop of read_json. */
  method ReadHeaderBlock(reader: Reader) returns (outcome: HeadersOutcome)
    requires !reader.broken
    modifies reader
    ensures reader.broken ==> outcome == NoHeaders
    ensures !reader.broken ==> HeadersAgree(outcome, reader.unread, ReadHeaders(old(reader.unread), map[]))
  {
    var headers: Headers := map[];
    while true
      invariant !reader.broken && ReadHeaders(reader.unread, headers) == ReadHeaders(old(reader.unread), map[])
      decreases |reader.unread|
    {
      ghost var before := reader.unread;
      var line := ReadOneLine(reader);
      if reader.broken || line == NoLine {
        return NoHeaders;
      }
      if line == Spinning {
        return SpinningHeaders;
      }
      assert ReadLine(before) == Line(line.line, reader.unread);
      if line.line == [] {
        return GotHeaders(headers);
      }
      headers := AddHeader(headers, line.line);
    }
  }

  /** The second loop of read_json: the body, by any number of reads. */
  method ReadBody(reader: Reader, length: nat) returns (result: ReadResult)
    requires !reader.broken
    modifies reader
    ensures reader.broken ==> result == NoMoreMessages
    ensures !reader.broken ==>
      if |old(reader.unread)| < length then result == NoMoreMessages
      else result == Body(old(reader.unread)[..length]) && reader.unread == old(reader.unread)[length..]
  {
    var body := [];
    var remaining := length;
    while remaining > 0
      invariant !reader.broken && 0 <= remaining && |body| + remaining == length &&
          body + reader.unread == old(reader.unread)
    {
      var piece := reader.ReadPiece(remaining);
      if reader.broken || |piece| == 0 {
        return NoMoreMessages;
      }
      ConcatAssociative(body, piece, reader.unread);
      body := body + piece;
      remaining := remaining - |piece|;
    }
    assert body == old(reader.unread)[..length];
    return Body(body);
  }

  /** read_json: for every fragmentation, the result and the bytes left are those of ReadMessage. */
  method ReadJson(reader: Reader) returns (result: ReadResult)
    requires !reader.broken
    modifies reader
    ensures reader.broken ==> result == NoMoreMessages
    ensures !reader.broken ==> result == ReadMessage(old(reader.unread)).0
    ensures !reader.broken && (result.Body? || result.InvalidLength?) ==>
        reader.unread == ReadMessage(old(reader.unread)).1
  {
    var block := ReadHeaderBlock(reader);
    match block
    case NoHeaders => result := NoMoreMessages;
    case SpinningHeaders => result := Spins;
    case GotHeaders(headers) =>
      var length := ContentLength(headers);
      if length.None? {
        result := InvalidLength;
      } else {
        result := ReadBody(reader, length.value);
      }
  }

  /** The loop of _parse_incoming_messages: the bodies read before the first other outcome. */
  method ReadAllMessages(reader: Reader) returns (bodies: seq<seq<Byte>>, end: ReadResult)
    requires !reader.broken
    modifies reader
    ensures !end.Body?
    ensures !reader.broken ==> (bodies, end) == ReadStream(old(reader.unread))
    ensures reader.broken ==> end == NoMoreMessages && bodies <= ReadStream(old(reader.unread)).0
  {
    bodies := [];
    assert [] + ReadStream(reader.unread).0 == ReadStream(reader.unread).0;
    while true
      invariant !reader.broken
      invariant var rest := ReadStream(reader.unread);
        ReadStream(old(reader.unread)) == (bodies + rest.0, rest.1)
      decreases |reader.unread|
    {
      ghost var before := reader.unread;
      ReadHeadersShrinks(before, map[]);
      end := ReadJson(reader);
      if !end.Body? {
        assert !reader.broken ==> bodies + [] == bodies;
        return;
      }
      ConcatAssociative(bodies, [end.body], ReadStream(reader.unread).0);
      bodies := bodies + [end.body];
    }
  }

  // ---- Writing ----

  /** A byte stream being written. A write may take nothing (return 0 or None), but only `stalls` more times. */
  class Writer {
    var written: seq<Byte>
    var stalls: nat
    var broken: bool

    /** write(data): how many leading bytes were taken, or None for none at all. */
    method Write(data: seq<Byte>) returns (count: Option<nat>)
      requires |data| > 0
      modifies this
      ensures broken ==> written == old(written) && count.None?
      ensures !broken ==> !old(broken) && match count
        case None => written == old(written) && stalls < old(stalls)
        case Some(n) =>
          n <= |data| && written == old(written) + data[..n] && stalls <= old(stalls) && (n == 0 ==>
              stalls < old(stalls))
    {
      var fails: bool, stall: bool := *, *;
      if broken || fails {
        broken, count := true, None;
      } else if stalls > 0 && stall {
        stalls := stalls - 1;
        if * {
          count := None;
        } else {
          count := Some(0);
        }
      } else {
        var n: nat :| 1 <= n <= |data|;
        written, count := written + data[..n], Some(n);
      }
    }
  }

  /** write_json: on success exactly the frame was appended, by however many writes; on failure a prefix of it. */
  method WriteJson(writer: Writer, closed: bool, body: seq<Byte>) returns (ok: bool)
    requires !writer.broken
    modifies writer
    ensures closed ==> !ok && writer.written == old(writer.written)
    ensures ok ==> !writer.broken && writer.written == old(writer.written) + Frame(body)
    ensures !ok && !closed ==> writer.broken
    ensures exists n: nat :: n <= |Frame(body)| && writer.written == old(writer.written) + Frame(body)[..n]
  {
    var data := Frame(body);
    assert writer.written == old(writer.written) + data[..0];
    if closed {
      return false;
    }
    var count := 0;
    while count < |data|
      invariant !writer.broken && 0 <= count <= |data|
      invariant writer.written == old(writer.written) + data[..count]
      decreases writer.stalls + (|data| - count)
    {
      ghost var before := writer.written;
      var taken := writer.Write(data[count..]);
      if writer.broken {
        return false;
      }
      if taken.Some? {
        assert data[..count + taken.value] == data[..count] + data[count..][..taken.value];
        ConcatAssociative(old(writer.written), data[..count], data[count..][..taken.value]);
        count := count + taken.value;
      }
    }
    assert data[..count] == data;
    return true;
  }
}
