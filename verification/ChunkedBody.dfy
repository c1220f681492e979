/** Bounded reading of a request body: the chunked transfer coding of section 7.1 of
    RFC 9112, and the Content-Length test of section 8.6 of RFC 9110. */
module ChunkedBody {
  import opened Basics

  const POST_BODY_LIMIT: nat := 4 * 1024 * 1024
  const MAX_CHUNK_LINE: nat := 8192
  const MAX_TRAILER_BYTES: nat := 64 * 1024

  const LF: byte := 10
  const CR: byte := 13
  const SEMICOLON: byte := 59
  const COLON: byte := 58
  const CRLF: bytes := [13, 10]

  datatype Reason = MalformedEncoding | MalformedTrailer | TrailersTooLarge | PayloadTooLarge

  // The body read and how many bytes of input it took.
  datatype Parsed = Body(body: bytes, used: nat) | Reject(reason: Reason)

  // ------------------------------------------------------------------ lines

  // How many bytes a read of one line takes when it may take at most `max`.
  function LineLength(input: bytes, max: nat): (n: nat)
    ensures n <= |input| && n <= max
  {
    if max == 0 || input == [] then 0
    else if input[0] == LF then 1
    else 1 + LineLength(input[1..], max - 1)
  }

  predicate EndsLine(line: bytes) {
    line != [] && line[|line| - 1] == LF
  }

  predicate IsLine(line: bytes) {
    EndsLine(line) && LF !in line[..|line| - 1]
  }

  predicate BoundedLine(input: bytes) {
    var n := LineLength(input, MAX_CHUNK_LINE + 1);
    n <= MAX_CHUNK_LINE && EndsLine(input[..n])
  }

  function TakeLine(input: bytes): bytes {
    input[..LineLength(input, MAX_CHUNK_LINE + 1)]
  }

  predicate Space(b: byte) {
    b == 32 || 9 <= b <= 13
  }

  function StripLeft(s: bytes): bytes {
    if s != [] && Space(s[0]) then StripLeft(s[1..]) else s
  }

  function StripRight(s: bytes): bytes {
    if s != [] && Space(s[|s| - 1]) then StripRight(s[..|s| - 1]) else s
  }

  // Everything before the first `mark`, or all of `s`.
  function Before(s: bytes, mark: byte): bytes {
    if s == [] || s[0] == mark then [] else [s[0]] + Before(s[1..], mark)
  }

  function SizeText(line: bytes): bytes {
    StripRight(StripLeft(Before(line, SEMICOLON)))
  }

  predicate HexDigit(b: byte) {
    48 <= b <= 57 || 65 <= b <= 70 || 97 <= b <= 102
  }

  function HexValue(b: byte): nat
    requires HexDigit(b)
  {
    if b <= 57 then b - 48 else if b <= 70 then b - 55 else b - 87
  }

  predicate IsSize(text: bytes) {
    text != [] && forall k | 0 <= k < |text| :: HexDigit(text[k])
  }

  function SizeValue(text: bytes): nat
    requires forall k | 0 <= k < |text| :: HexDigit(text[k])
  {
    if text == [] then 0 else SizeValue(text[..|text| - 1]) * 16 + HexValue(text[|text| - 1])
  }

  // What a field name may consist of.
  predicate TokenByte(b: byte) {
    || '0' as int <= b <= '9' as int || 'A' as int <= b <= 'Z' as int || 'a' as int <= b <= 'z' as int
    || b as char in "!#$%&'*+-.^_`|~"
  }

  predicate BlankLine(line: bytes) {
    line == CRLF || line == [LF]
  }

  // A trailer line that is not blank: a field name, a colon, anything.
  predicate FieldLine(line: bytes) {
    var name := Before(line, COLON);
    COLON in line && name != [] && forall k | 0 <= k < |name| :: TokenByte(name[k])
  }

  // ---------------------------------------------------------------- parsing

  datatype Trailers = Ended(used: nat) | Broken(reason: Reason)

  // `seen` trailer bytes came before.
  function ParseTrailers(input: bytes, seen: nat): (t: Trailers)
    ensures t.Ended? ==> 0 < t.used <= |input|
    decreases |input|
  {
    if !BoundedLine(input) then Broken(MalformedTrailer) else
    var line := TakeLine(input);
    if seen + |line| > MAX_TRAILER_BYTES then Broken(TrailersTooLarge)
    else if BlankLine(line) then Ended(|line|)
    else if !FieldLine(line) then Broken(MalformedTrailer)
    else
      match ParseTrailers(input[|line|..], seen + |line|)
      case Ended(used) => Ended(|line| + used)
      case broken => broken
  }

  lemma TrailerStep(input: bytes, seen: nat)
    requires BoundedLine(input) && FieldLine(TakeLine(input)) && !BlankLine(TakeLine(input))
        && seen + |TakeLine(input)| <= MAX_TRAILER_BYTES
    ensures var n := |TakeLine(input)|;
            && 0 < n <= |input|
            && ParseTrailers(input, seen) == match ParseTrailers(input[n..], seen + n)
                                             case Ended(used) => Ended(n + used)
                                             case broken => broken
  {
  }

  // What the front of the input is: the zero size line, or a chunk with its line break.
  datatype Front = Bad(reason: Reason) | Last(line: nat) | Next(line: nat, size: nat)

  // `total` body bytes came before.
  function FrontOf(input: bytes, total: nat): (f: Front)
    ensures f.Last? ==> 0 < f.line <= |input|
    ensures f.Next? ==> 0 < f.line && 0 < f.size && f.line + f.size + 2 <= |input| && total + f.size <= POST_BODY_LIMIT
  {
    if !BoundedLine(input) then Bad(MalformedEncoding) else
    var line, text := TakeLine(input), SizeText(TakeLine(input));
    if !IsSize(text) then Bad(MalformedEncoding) else
    var size, rest := SizeValue(text), input[|line|..];
    if size == 0 then Last(|line|)
    else if total + size > POST_BODY_LIMIT then Bad(PayloadTooLarge)
    else if |rest| < size + 2 || rest[size..size + 2] != CRLF then Bad(MalformedEncoding)
    else Next(|line|, size)
  }

  function ParseChunks(input: bytes, total: nat): (p: Parsed)
    ensures p.Body? ==> 0 < p.used <= |input|
    decreases |input|
  {
    match FrontOf(input, total)
    case Bad(reason) => Reject(reason)
    case Last(line) => AfterLast(line, ParseTrailers(input[line..], 0))
    case Next(line, size) =>
      Prepend(input[line..line + size], line + size + 2, ParseChunks(input[line + size + 2..], total + size))
  }

  function AfterLast(line: nat, t: Trailers): Parsed {
    match t
    case Ended(used) => Body([], line + used)
    case Broken(reason) => Reject(reason)
  }

  function Prepend(front: bytes, taken: nat, p: Parsed): Parsed {
    match p
    case Body(body, used) => Body(front + body, taken + used)
    case Reject(_) => p
  }

  lemma ParseStep(input: bytes, total: nat)
    ensures match FrontOf(input, total)
            case Bad(reason) => ParseChunks(input, total) == Reject(reason)
            case Last(line) => ParseChunks(input, total) == AfterLast(line, ParseTrailers(input[line..], 0))
            case Next(line, size) =>
              ParseChunks(input, total)
              == Prepend(input[line..line + size], line + size + 2, ParseChunks(input[line + size + 2..], total + size))
  {
  }

  // ------------------------------------------------------------- the reader

  // The connection's input, read from the front.
  class ByteStream {
    var rest: bytes

    constructor (input: bytes)
      ensures rest == input
    {
      rest := input;
    }

    method ReadLine(max: nat) returns (line: bytes)
      modifies this
      ensures line == old(rest)[..LineLength(old(rest), max)] && rest == old(rest)[|line|..]
    {
      line := rest[..LineLength(rest, max)];
      rest := rest[|line|..];
    }

    method Read(n: nat) returns (data: bytes)
      modifies this
      ensures data == old(rest)[..if n <= |old(rest)| then n else |old(rest)|] && rest == old(rest)[|data|..]
    {
      data := rest[..if n <= |rest| then n else |rest|];
      rest := rest[|data|..];
    }
  }

  class BodyReader {
    const rfile: ByteStream
    var closeConnection: bool

    constructor (rfile: ByteStream)
      ensures this.rfile == rfile && !closeConnection
    {
      this.rfile, closeConnection := rfile, false;
    }

    /** The line when it is complete and short enough, else nothing and the connection closes. */
    method ReadLineBounded() returns (ok: bool, line: bytes)
      modifies this`closeConnection, rfile
      ensures ok == BoundedLine(old(rfile.rest))
      ensures ok ==>
          line == TakeLine(old(rfile.rest)) && rfile.rest == old(rfile.rest)[|line|..]
          && closeConnection == old(closeConnection)
      ensures !ok ==> closeConnection
    {
      line := rfile.ReadLine(MAX_CHUNK_LINE + 1);
      if |line| > MAX_CHUNK_LINE || !EndsLine(line) {
        closeConnection := true;
        return false, [];
      }
      ok := true;
    }

    // The trailer section, up to and with its blank line.
    method ReadTrailers() returns (t: Trailers)
      modifies this`closeConnection, rfile
      ensures t == ParseTrailers(old(rfile.rest), 0)
      ensures t.Ended? ==> rfile.rest == old(rfile.rest)[t.used..] && closeConnection == old(closeConnection)
      ensures t.Broken? ==> closeConnection
    {
      hide LineLength, Before;
      var seen: nat := 0;
      ghost var start := rfile.rest;
      while true
        invariant seen <= |start| && rfile.rest == start[seen..] && closeConnection == old(closeConnection)
        invariant ParseTrailers(start, 0) == match ParseTrailers(rfile.rest, seen)
                                             case Ended(used) => Ended(seen + used)
                                             case broken => broken
        decreases |rfile.rest|
      {
        var ok, line := ReadLineBounded();
        if !ok { return Broken(MalformedTrailer); }
        seen := seen + |line|;
        if seen > MAX_TRAILER_BYTES {
          closeConnection := true;
          return Broken(TrailersTooLarge);
        }
        if BlankLine(line) { return Ended(seen); }
        if !FieldLine(line) {
          closeConnection := true;
          return Broken(MalformedTrailer);
        }
      }
    }

    // A size line and, unless it is the last, the chunk it announces.
    method ReadChunk(total: nat) returns (f: Front, chunk: bytes)
      modifies this`closeConnection, rfile
      ensures f == FrontOf(old(rfile.rest), total)
      ensures f.Last? ==> rfile.rest == old(rfile.rest)[f.line..] && closeConnection == old(closeConnection)
      ensures f.Next? ==>
          chunk == old(rfile.rest)[f.line..f.line + f.size] && rfile.rest == old(rfile.rest)[f.line + f.size + 2..]
      ensures f.Next? ==> closeConnection == old(closeConnection)
      ensures f.Bad? ==> closeConnection
    {
      hide LineLength, StripLeft, StripRight, Before, SizeText;
      chunk := [];
      var ok, line := ReadLineBounded();
      if !ok { return Bad(MalformedEncoding), []; }
      var text := SizeText(line);
      if !IsSize(text) {
        closeConnection := true;
        return Bad(MalformedEncoding), [];
      }
      var size := SizeValue(text);
      if size == 0 { return Last(|line|), []; }
      if total + size > POST_BODY_LIMIT {
        closeConnection := true;
        return Bad(PayloadTooLarge), [];
      }
      ghost var rest := rfile.rest;
      chunk := rfile.Read(size);
      var ending: bytes := [];
      if |chunk| == size { ending := rfile.Read(2); }
      if |chunk| != size || ending != CRLF {
        closeConnection := true;
        return Bad(MalformedEncoding), [];
      }
      assert rest[size..size + 2] == ending;
      f := Next(|line|, size);
    }

    /** Reads one body off the connection; a rejected one closes it. */
    method ReadChunked() returns (p: Parsed)
      modifies this`closeConnection, rfile
      ensures p == ParseChunks(old(rfile.rest), 0)
      ensures p.Body? ==> rfile.rest == old(rfile.rest)[p.used..] && closeConnection == old(closeConnection)
      ensures p.Reject? ==> closeConnection
    {
      hide FrontOf, ParseTrailers, ParseChunks;
      var chunks: bytes := [];
      var total: nat, used: nat := 0, 0;
      ghost var start := rfile.rest;
      while true
        invariant used <= |start| && rfile.rest == start[used..] && closeConnection == old(closeConnection)
        invariant ParseChunks(start, 0) == Prepend(chunks, used, ParseChunks(rfile.rest, total))
        decreases |rfile.rest|
      {
        ParseStep(rfile.rest, total);
        var f, chunk := ReadChunk(total);
        match f
        case Bad(reason) => return Reject(reason);
        case Last(line) =>
          var t := ReadTrailers();
          if t.Broken? { return Reject(t.reason); }
          return Body(chunks, used + line + t.used);
        case Next(line, size) =>
          assert rfile.rest == start[used + line + size + 2..];
          PrependTwice(chunks, used, chunk, line + size + 2, ParseChunks(rfile.rest, total + size));
          chunks := chunks + chunk;
          total := total + size;
          used := used + line + size + 2;
      }
    }
  }

  /** An accepted body is within the limit, whatever the input. */
  lemma {:induction false} BodyWithinLimit(input: bytes, total: nat)
    requires total <= POST_BODY_LIMIT && ParseChunks(input, total).Body?
    ensures total + |ParseChunks(input, total).body| <= POST_BODY_LIMIT
    decreases |input|
  {
    hide FrontOf, ParseTrailers;
    var f := FrontOf(input, total);
    if f.Next? { BodyWithinLimit(input[f.line + f.size + 2..], total + f.size); }
  }

  // ------------------------------------------------------- what is accepted

  // A chunk as sent: its size line, its data, and a line break.
  datatype Chunk = Chunk(line: bytes, data: bytes)

  datatype Encoding = Encoding(chunks: seq<Chunk>, last: bytes, fields: seq<bytes>, blank: bytes)

  function RenderChunks(chunks: seq<Chunk>): bytes {
    if chunks == [] then [] else chunks[0].line + chunks[0].data + CRLF + RenderChunks(chunks[1..])
  }

  function Join(parts: seq<bytes>): bytes {
    if parts == [] then [] else parts[0] + Join(parts[1..])
  }

  function Render(e: Encoding): bytes {
    RenderChunks(e.chunks) + e.last + Join(e.fields) + e.blank
  }

  function Payload(chunks: seq<Chunk>): bytes {
    if chunks == [] then [] else chunks[0].data + Payload(chunks[1..])
  }

  predicate SizeLine(line: bytes, size: nat) {
    IsLine(line) && |line| <= MAX_CHUNK_LINE && IsSize(SizeText(line)) && SizeValue(SizeText(line)) == size
  }

  predicate LegalChunks(chunks: seq<Chunk>) {
    forall k | 0 <= k < |chunks| :: chunks[k].data != [] && SizeLine(chunks[k].line, |chunks[k].data|)
  }

  predicate LegalField(line: bytes) {
    IsLine(line) && |line| <= MAX_CHUNK_LINE && FieldLine(line)
  }

  /** Size lines that spell the lengths of non-empty chunks, a zero size line, trailer
      fields and a blank line, within the three limits. */
  predicate Legal(e: Encoding) {
    && LegalChunks(e.chunks)
    && |Payload(e.chunks)| <= POST_BODY_LIMIT
    && SizeLine(e.last, 0)
    && (forall k | 0 <= k < |e.fields| :: LegalField(e.fields[k]))
    && BlankLine(e.blank)
    && |Join(e.fields)| + |e.blank| <= MAX_TRAILER_BYTES
  }

  lemma {:induction false} LineIsRead(line: bytes, rest: bytes, max: nat)
    requires IsLine(line) && |line| <= max
    ensures LineLength(line + rest, max) == |line|
  {
    if |line| > 1 {
      assert line[0] in line[..|line| - 1];
      assert (line + rest)[1..] == line[1..] + rest;
      assert line[1..][..|line| - 2] == line[..|line| - 1][1..];
      LineIsRead(line[1..], rest, max - 1);
    }
  }

  lemma LegalLineIsTaken(line: bytes, rest: bytes)
    requires IsLine(line) && |line| <= MAX_CHUNK_LINE
    ensures BoundedLine(line + rest) && TakeLine(line + rest) == line && (line + rest)[|line|..] == rest
  {
    LineIsRead(line, rest, MAX_CHUNK_LINE + 1);
    assert (line + rest)[..|line|] == line;
  }

  lemma {:induction false} ReadIsLine(input: bytes, max: nat)
    requires EndsLine(input[..LineLength(input, max)])
    ensures IsLine(input[..LineLength(input, max)])
  {
    if max > 0 && input != [] && input[0] != LF {
      var n := LineLength(input[1..], max - 1);
      assert input[..n + 1] == [input[0]] + input[1..][..n];
      ReadIsLine(input[1..], max - 1);
      assert input[..n + 1][..n] == [input[0]] + input[1..][..n][..n - 1];
    }
  }

  lemma TakenIsLine(input: bytes)
    requires BoundedLine(input)
    ensures IsLine(TakeLine(input)) && 0 < |TakeLine(input)| <= MAX_CHUNK_LINE
    ensures input == TakeLine(input) + input[|TakeLine(input)|..]
  {
    ReadIsLine(input, MAX_CHUNK_LINE + 1);
  }

  // One field line at the front of the trailer section.
  lemma FieldStep(line: bytes, tail: bytes, seen: nat)
    requires LegalField(line) && seen + |line| <= MAX_TRAILER_BYTES
    ensures ParseTrailers(line + tail, seen)
         == match ParseTrailers(tail, seen + |line|)
            case Ended(used) => Ended(|line| + used)
            case broken => broken
  {
    hide LineLength, BoundedLine, TakeLine, IsLine, FieldLine, BlankLine, ParseTrailers;
    LegalLineIsTaken(line, tail);
    FieldIsNotBlank(line);
    TrailerStep(line + tail, seen);
  }

  lemma FieldIsNotBlank(line: bytes)
    requires FieldLine(line)
    ensures !BlankLine(line)
  {
  }

  lemma BlankStep(blank: bytes, rest: bytes, seen: nat)
    requires BlankLine(blank) && seen + |blank| <= MAX_TRAILER_BYTES
    ensures ParseTrailers(blank + rest, seen) == Ended(|blank|)
  {
    assert IsLine(blank);
    LegalLineIsTaken(blank, rest);
    hide LineLength, Before, BoundedLine, TakeLine;
  }

  lemma {:induction false} FieldsAreParsed(fields: seq<bytes>, blank: bytes, rest: bytes, seen: nat)
    requires forall k | 0 <= k < |fields| :: LegalField(fields[k])
    requires BlankLine(blank) && seen + |Join(fields)| + |blank| <= MAX_TRAILER_BYTES
    ensures ParseTrailers(Join(fields) + blank + rest, seen) == Ended(|Join(fields)| + |blank|)
  {
    hide ParseTrailers, LegalField;
    if fields == [] {
      assert Join(fields) + blank + rest == blank + rest;
      BlankStep(blank, rest, seen);
    } else {
      var line, tail := fields[0], Join(fields[1..]) + blank + rest;
      assert Join(fields) + blank + rest == line + tail;
      FieldsAreParsed(fields[1..], blank, rest, seen + |line|);
      FieldStep(line, tail, seen);
    }
  }

  lemma FrontOfChunk(c: Chunk, more: bytes, total: nat)
    requires c.data != [] && SizeLine(c.line, |c.data|) && total + |c.data| <= POST_BODY_LIMIT
    ensures FrontOf(c.line + (c.data + CRLF + more), total) == Next(|c.line|, |c.data|)
  {
    var rest := c.data + CRLF + more;
    LegalLineIsTaken(c.line, rest);
    hide LineLength, BoundedLine, TakeLine, SizeText, SizeValue, IsSize;
    assert rest[|c.data|..|c.data| + 2] == CRLF;
  }

  // One chunk at the front of the body.
  lemma ChunkStep(c: Chunk, more: bytes, total: nat)
    requires c.data != [] && SizeLine(c.line, |c.data|) && total + |c.data| <= POST_BODY_LIMIT
    ensures ParseChunks(c.line + (c.data + CRLF + more), total)
         == Prepend(c.data, |c.line| + |c.data| + 2, ParseChunks(more, total + |c.data|))
  {
    hide FrontOf, SizeLine, ParseTrailers, ParseChunks;
    FrontOfChunk(c, more, total);
    var input := c.line + (c.data + CRLF + more);
    ParseStep(input, total);
    assert input[|c.line|..|c.line| + |c.data|] == c.data;
    assert input[|c.line| + |c.data| + 2..] == more;
  }

  lemma PrependTwice(x: bytes, m: nat, y: bytes, n: nat, p: Parsed)
    ensures Prepend(x, m, Prepend(y, n, p)) == Prepend(x + y, m + n, p)
  {
    if p.Body? { assert x + (y + p.body) == (x + y) + p.body; }
  }

  lemma RenderFirst(chunks: seq<Chunk>, tail: bytes)
    requires chunks != []
    ensures RenderChunks(chunks) + tail == chunks[0].line + (chunks[0].data + CRLF + (RenderChunks(chunks[1..]) + tail))
    ensures |RenderChunks(chunks)| == |chunks[0].line| + |chunks[0].data| + 2 + |RenderChunks(chunks[1..])|
  {
  }

  lemma {:induction false} ChunksAreParsed(chunks: seq<Chunk>, tail: bytes, total: nat)
    requires LegalChunks(chunks) && total + |Payload(chunks)| <= POST_BODY_LIMIT
    ensures ParseChunks(RenderChunks(chunks) + tail, total)
         == Prepend(Payload(chunks), |RenderChunks(chunks)|, ParseChunks(tail, total + |Payload(chunks)|))
  {
    hide ParseChunks, SizeLine;
    if chunks == [] {
      assert RenderChunks(chunks) + tail == tail;
      assert forall p :: Prepend([], 0, p) == p;
    } else {
      var c, more := chunks[0], RenderChunks(chunks[1..]) + tail;
      RenderFirst(chunks, tail);
      ChunkStep(c, more, total);
      ChunksAreParsed(chunks[1..], tail, total + |c.data|);
      PrependTwice(c.data, |c.line| + |c.data| + 2, Payload(chunks[1..]), |RenderChunks(chunks[1..])|,
                   ParseChunks(tail, total + |Payload(chunks)|));
    }
  }

  lemma LastStep(last: bytes, trailer: bytes, total: nat)
    requires SizeLine(last, 0)
    ensures ParseChunks(last + trailer, total)
         == AfterLast(|last|, ParseTrailers(trailer, 0))
  {
    LegalLineIsTaken(last, trailer);
    hide LineLength, BoundedLine, TakeLine, SizeText, SizeValue, IsSize, ParseTrailers;
    assert FrontOf(last + trailer, total) == Last(|last|);
  }

  /** Every legal encoding is read as its payload and consumed exactly, whatever follows. */
  lemma LegalIsAccepted(e: Encoding, rest: bytes)
    requires Legal(e)
    ensures ParseChunks(Render(e) + rest, 0) == Body(Payload(e.chunks), |Render(e)|)
  {
    hide ParseChunks, ParseTrailers, RenderChunks, Payload, Join, LegalField, SizeLine, LegalChunks;
    var trailer := Join(e.fields) + e.blank + rest;
    assert Render(e) + rest == RenderChunks(e.chunks) + (e.last + trailer);
    ChunksAreParsed(e.chunks, e.last + trailer, 0);
    LastStep(e.last, trailer, |Payload(e.chunks)|);
    FieldsAreParsed(e.fields, e.blank, rest, 0);
  }

  lemma {:induction false} ParsedTrailersAreLegal(input: bytes, seen: nat) returns (fields: seq<bytes>, blank: bytes)
    requires ParseTrailers(input, seen).Ended?
    ensures forall k | 0 <= k < |fields| :: LegalField(fields[k])
    ensures BlankLine(blank) && seen + |Join(fields)| + |blank| <= MAX_TRAILER_BYTES
    ensures input[..ParseTrailers(input, seen).used] == Join(fields) + blank
    decreases |input|
  {
    hide LineLength, FieldLine, IsLine, EndsLine, TakeLine, BoundedLine;
    var line := TakeLine(input);
    TakenIsLine(input);
    if BlankLine(line) {
      fields, blank := [], line;
    } else {
      var rest := input[|line|..];
      fields, blank := ParsedTrailersAreLegal(rest, seen + |line|);
      var used := ParseTrailers(rest, seen + |line|).used;
      assert input[..|line| + used] == line + rest[..used];
      fields := [line] + fields;
      assert fields[1..] + [] == fields[1..];
    }
  }

  lemma FrontIsLegal(input: bytes, total: nat)
    requires !FrontOf(input, total).Bad?
    ensures var f := FrontOf(input, total);
            && SizeLine(input[..f.line], if f.Last? then 0 else f.size)
            && (f.Next? ==> input[f.line..][f.size..f.size + 2] == CRLF)
  {
    hide LineLength, StripLeft, StripRight, Before;
    TakenIsLine(input);
  }

  /** And only legal encodings are accepted. */
  lemma AcceptedIsLegal(input: bytes) returns (e: Encoding)
    requires ParseChunks(input, 0).Body?
    ensures ParseChunks(input, 0) == Body(Payload(e.chunks), |Render(e)|)
    ensures Legal(e) && input[..|Render(e)|] == Render(e)
  {
    e := AcceptedFrom(input, 0);
  }

  lemma {:induction false} AcceptedFrom(input: bytes, total: nat) returns (e: Encoding)
    requires total <= POST_BODY_LIMIT && ParseChunks(input, total).Body?
    ensures ParseChunks(input, total) == Body(Payload(e.chunks), |Render(e)|)
    ensures LegalChunks(e.chunks) && total + |Payload(e.chunks)| <= POST_BODY_LIMIT && Legal(e.(chunks := []))
    ensures input[..|Render(e)|] == Render(e)
    decreases |input|
  {
    hide FrontOf, SizeLine, ParseTrailers, ParseChunks, LegalField, BlankLine;
    ParseStep(input, total);
    FrontIsLegal(input, total);
    match FrontOf(input, total)
    case Last(n) =>
      var line, rest := input[..n], input[n..];
      var fields, blank := ParsedTrailersAreLegal(rest, 0);
      e := Encoding([], line, fields, blank);
      var used := ParseTrailers(rest, 0).used;
      assert input[..n + used] == line + rest[..used];
      assert Render(e) == line + (Join(fields) + blank);
    case Next(n, size) =>
      var line, rest := input[..n], input[n..];
      assert rest[size + 2..] == input[n + size + 2..] && rest[..size] == input[n..n + size];
      var more := AcceptedFrom(rest[size + 2..], total + size);
      e := more.(chunks := [Chunk(line, rest[..size])] + more.chunks);
      AddsChunk(input, line, rest, size, more);
  }

  lemma AddsChunk(input: bytes, line: bytes, rest: bytes, size: nat, more: Encoding)
    requires input == line + rest && size + 2 <= |rest| && rest[size..size + 2] == CRLF
    requires |Render(more)| <= |rest| - size - 2 && rest[size + 2..][..|Render(more)|] == Render(more)
    ensures var e := more.(chunks := [Chunk(line, rest[..size])] + more.chunks);
            && Payload(e.chunks) == rest[..size] + Payload(more.chunks)
            && |Render(e)| == |line| + size + 2 + |Render(more)| <= |input|
            && input[..|Render(e)|] == Render(e)
  {
    var e := more.(chunks := [Chunk(line, rest[..size])] + more.chunks);
    assert e.chunks[1..] == more.chunks;
    var front, n := line + rest[..size] + CRLF, |Render(more)|;
    assert Render(e) == front + Render(more);
    assert input[..|front|] == front;
    assert input[..|front| + n] == front + rest[size + 2..][..n];
  }

  // ------------------------------------------------- spelling of the sizes

  lemma {:induction false} BeforeStops(front: bytes, mark: byte, back: bytes)
    requires mark !in front
    ensures Before(front + [mark] + back, mark) == front
  {
    var s := front + [mark] + back;
    if front != [] {
      assert s[0] == front[0];
      assert s[1..] == front[1..] + [mark] + back;
      BeforeStops(front[1..], mark, back);
    }
  }

  lemma {:induction false} BeforeKeeps(s: bytes, mark: byte)
    requires mark !in s
    ensures Before(s, mark) == s
  {
    if s != [] { BeforeKeeps(s[1..], mark); }
  }

  lemma {:induction false} StripRightStops(front: bytes, spaces: bytes)
    requires front != [] && !Space(front[|front| - 1])
    requires forall k | 0 <= k < |spaces| :: Space(spaces[k])
    ensures StripRight(front + spaces) == front
  {
    var s := front + spaces;
    if spaces == [] {
      assert s == front;
    } else {
      assert s[..|s| - 1] == front + spaces[..|spaces| - 1];
      StripRightStops(front, spaces[..|spaces| - 1]);
    }
  }

  // A byte that `strip` removes, other than the end of the line.
  predicate Blank(b: byte) {
    Space(b) && b != LF
  }

  lemma {:induction false} StripLeftStops(spaces: bytes, back: bytes)
    requires (forall k | 0 <= k < |spaces| :: Space(spaces[k])) && (back != [] ==> !Space(back[0]))
    ensures StripLeft(spaces + back) == back
  {
    if spaces == [] {
      assert spaces + back == back;
    } else {
      assert (spaces + back)[1..] == spaces[1..] + back;
      StripLeftStops(spaces[1..], back);
    }
  }

  // The size between blanks, at the front of a line.
  lemma SizeIsStripped(front: bytes, size: bytes, back: bytes)
    requires IsSize(size)
    requires (forall k | 0 <= k < |front| :: Space(front[k])) && (forall k | 0 <= k < |back| :: Space(back[k]))
    ensures StripRight(StripLeft(front + size + back)) == size
  {
    assert front + size + back == front + (size + back);
    assert !Space((size + back)[0]);
    StripLeftStops(front, size + back);
    StripRightStops(size, back);
  }

  /** A size may stand between blanks and be followed by an extension: neither changes it,
      nor does how the line ends. */
  lemma ExtensionsAreIgnored(front: bytes, size: bytes, blanks: bytes, extension: bytes, ending: bytes)
    requires IsSize(size) && (ending == CRLF || ending == [LF])
    requires forall k | 0 <= k < |front| :: Blank(front[k])
    requires forall k | 0 <= k < |blanks| :: Blank(blanks[k])
    requires extension == [] || extension[0] == SEMICOLON
    ensures SizeText(front + size + blanks + extension + ending) == size
  {
    var text, line := front + size + blanks, front + size + blanks + extension + ending;
    forall k | 0 <= k < |text| ensures text[k] != SEMICOLON {
      assert text[k] in front || text[k] in size || text[k] in blanks;
    }
    if extension == [] {
      var spaces := blanks + ending;
      assert line == front + size + spaces == text + ending;
      BeforeKeeps(line, SEMICOLON);
      SizeIsStripped(front, size, spaces);
    } else {
      assert line == text + [SEMICOLON] + (extension[1..] + ending);
      BeforeStops(text, SEMICOLON, extension[1..] + ending);
      SizeIsStripped(front, size, blanks);
    }
  }

  predicate Spaces(s: bytes) {
    forall k | 0 <= k < |s| :: Space(s[k])
  }

  lemma {:induction false} StripLeftSplits(s: bytes) returns (spaces: bytes)
    ensures Spaces(spaces) && s == spaces + StripLeft(s)
  {
    spaces := [];
    if s != [] && Space(s[0]) {
      spaces := StripLeftSplits(s[1..]);
      spaces := [s[0]] + spaces;
    }
  }

  lemma {:induction false} StripRightSplits(s: bytes) returns (spaces: bytes)
    ensures Spaces(spaces) && s == StripRight(s) + spaces
  {
    spaces := [];
    if s != [] && Space(s[|s| - 1]) {
      spaces := StripRightSplits(s[..|s| - 1]);
      spaces := spaces + [s[|s| - 1]];
    }
  }

  lemma {:induction false} BeforeIsFront(s: bytes, mark: byte) returns (rest: bytes)
    ensures s == Before(s, mark) + rest && (rest != [] ==> rest[0] == mark)
  {
    rest := s;
    if s != [] && s[0] != mark { rest := BeforeIsFront(s[1..], mark); }
  }

  /** And nothing else is: every size line is its size between blanks, and an extension. */
  lemma SizeLineIsSpelled(line: bytes) returns (front: bytes, blanks: bytes, extension: bytes)
    ensures line == front + SizeText(line) + blanks + extension
    ensures Spaces(front) && Spaces(blanks) && (extension != [] ==> extension[0] == SEMICOLON)
  {
    var text := Before(line, SEMICOLON);
    extension := BeforeIsFront(line, SEMICOLON);
    front := StripLeftSplits(text);
    blanks := StripRightSplits(StripLeft(text));
    assert front + (SizeText(line) + blanks) == front + SizeText(line) + blanks;
  }

  /** Leading zeros do not change a size, nor does the case of its letters. */
  lemma {:induction false} SpellingOfSize(size: bytes)
    requires IsSize(size)
    ensures IsSize([48] + size) && SizeValue([48] + size) == SizeValue(size)
    ensures forall lower | |lower| == |size|
        && (forall k | 0 <= k < |size| :: lower[k] == if 65 <= size[k] <= 70 then size[k] + 32 else size[k]) ::
              IsSize(lower) && SizeValue(lower) == SizeValue(size)
  {
    var n := |size| - 1;
    assert ([48] + size)[..n + 1] == [48] + size[..n];
    forall lower: bytes | |lower| == |size|
        && (forall k | 0 <= k < |size| :: lower[k] == if 65 <= size[k] <= 70 then size[k] + 32 else size[k])
      ensures IsSize(lower) && SizeValue(lower) == SizeValue(size)
    {
      if n > 0 { SpellingOfSize(size[..n]); assert |lower[..n]| == n; }
    }
    if n > 0 { SpellingOfSize(size[..n]); }
  }

  // ------------------------------------------------------- what a size means

  const DIGITS: string := "0123456789abcdef"

  function DigitByte(d: nat): byte
    requires d < 16
  {
    DIGITS[d] as int
  }

  // `n` written in base sixteen.
  function Hex(n: nat): bytes {
    (if n < 16 then [] else Hex(n / 16)) + [DigitByte(n % 16)]
  }

  function Zeros(n: nat): bytes {
    seq(n, (k: nat) => 48)
  }

  function Lower(text: bytes): bytes {
    seq(|text|, (k: nat) requires k < |text| => if 65 <= text[k] <= 90 then text[k] + 32 else text[k])
  }

  lemma DigitValue(d: nat)
    requires d < 16
    ensures HexDigit(DigitByte(d)) && HexValue(DigitByte(d)) == d
  {
  }

  lemma DigitOf(b: byte)
    requires HexDigit(b)
    ensures Lower([b]) == [DigitByte(HexValue(b))] && HexValue(b) < 16
  {
  }

  /** Every number written in base sixteen is a size of that value. */
  lemma {:induction false} HexIsItsSize(n: nat)
    ensures IsSize(Hex(n)) && SizeValue(Hex(n)) == n
  {
    DigitValue(n % 16);
    var last: bytes := [DigitByte(n % 16)];
    assert Hex(n)[..|Hex(n)| - 1] == if n < 16 then [] else Hex(n / 16);
    if n >= 16 { HexIsItsSize(n / 16); }
  }

  /** And every size is its value written in base sixteen, but for leading zeros and the case
      of its letters. */
  lemma {:induction false} SizeIsItsHex(text: bytes) returns (zeros: nat)
    requires IsSize(text)
    ensures Lower(text) == Zeros(zeros) + Hex(SizeValue(text))
  {
    hide Zeros, Lower, Hex, DigitByte;
    var front, last := text[..|text| - 1], text[|text| - 1];
    var v, d := SizeValue(front), HexValue(last);
    DigitOf(last);
    HexGrows(v, d);
    SplitLast(text);
    if front == [] {
      zeros := 0;
      NoZeros(Hex(d));
    } else {
      var before := SizeIsItsHex(front);
      hide SizeValue, HexValue, HexDigit;
      zeros := OneMoreDigit(Lower(front), before, v, d);
    }
  }

  lemma SplitLast(text: bytes)
    requires IsSize(text)
    ensures var front, last := text[..|text| - 1], text[|text| - 1];
            && Lower(text) == Lower(front) + Lower([last])
            && (front == [] ==> Lower(text) == Lower([last]))
            && SizeValue(text) == 16 * SizeValue(front) + HexValue(last)
  {
  }

  lemma NoZeros(text: bytes)
    ensures Zeros(0) + text == text
  {
  }

  lemma OneMoreDigit(front: bytes, before: nat, v: nat, d: nat) returns (zeros: nat)
    requires d < 16 && front == Zeros(before) + Hex(v)
    ensures front + [DigitByte(d)] == Zeros(zeros) + Hex(16 * v + d)
  {
    HexGrows(v, d);
    hide Hex, DigitByte;
    zeros := if v == 0 then before + 1 else before;
    assert Zeros(before) + [48] == Zeros(before + 1);
  }

  lemma HexStep(n: nat)
    ensures Hex(n) == (if n < 16 then [] else Hex(n / 16)) + [DigitByte(n % 16)]
  {
  }

  lemma HexGrows(v: nat, d: nat)
    requires d < 16
    ensures Hex(0) == [48] && Hex(d) == [DigitByte(d)]
    ensures v > 0 ==> Hex(16 * v + d) == Hex(v) + [DigitByte(d)]
  {
    assert DigitByte(0) == 48;
    hide Hex, DigitByte;
    HexStep(0);
    HexStep(d);
    HexStep(16 * v + d);
    assert (16 * v + d) / 16 == v && (16 * v + d) % 16 == d;
    assert [] + [DigitByte(d)] == [DigitByte(d)];
  }

  lemma LowerSplit(front: bytes, last: bytes)
    ensures Lower(front + last) == Lower(front) + Lower(last)
  {
  }

  function Power(k: nat): nat {
    if k == 0 then 1 else 16 * Power(k - 1)
  }

  lemma {:induction false} HexIsShort(n: nat, k: nat)
    requires n < Power(k) && 0 < k
    ensures |Hex(n)| <= k
  {
    if n >= 16 { HexIsShort(n / 16, k - 1); }
  }

  // Chunks as a plain sender writes them.
  function Plain(parts: seq<bytes>): bytes {
    if parts == [] then [] else Hex(|parts[0]|) + CRLF + parts[0] + CRLF + Plain(parts[1..])
  }

  lemma {:induction false} PlainChunks(parts: seq<bytes>) returns (chunks: seq<Chunk>)
    requires forall k | 0 <= k < |parts| :: parts[k] != []
    requires |Join(parts)| <= POST_BODY_LIMIT
    ensures LegalChunks(chunks) && RenderChunks(chunks) == Plain(parts) && Payload(chunks) == Join(parts)
  {
    if parts == [] {
      chunks := [];
    } else {
      var rest := PlainChunks(parts[1..]);
      var c := Chunk(Hex(|parts[0]|) + CRLF, parts[0]);
      PlainSizeLine(|parts[0]|);
      hide SizeLine, Hex;
      chunks := [c] + rest;
    }
  }

  lemma PlainSizeLine(n: nat)
    requires n <= POST_BODY_LIMIT
    ensures SizeLine(Hex(n) + CRLF, n)
  {
    HexIsItsSize(n);
    assert Power(6) == 16777216;
    HexIsShort(n, 6);
    ExtensionsAreIgnored([], Hex(n), [], [], CRLF);
    assert [] + Hex(n) + [] + [] + CRLF == Hex(n) + CRLF;
    hide Hex, SizeValue, SizeText;
  }

  /** Chunks written with their lengths in base sixteen are read as their concatenation, and
      exactly they are consumed, whatever follows. */
  lemma PlainBodyIsRead(parts: seq<bytes>, rest: bytes)
    requires forall k | 0 <= k < |parts| :: parts[k] != []
    requires |Join(parts)| <= POST_BODY_LIMIT
    ensures var sent := Plain(parts) + [48, 13, 10] + [13, 10];
            ParseChunks(sent + rest, 0) == Body(Join(parts), |sent|)
  {
    var chunks := PlainChunks(parts);
    var e := Encoding(chunks, [48, 13, 10], [], [13, 10]);
    assert Hex(0) + CRLF == [48, 13, 10] by { assert Hex(0) == [48]; }
    PlainSizeLine(0);
    assert Render(e) == Plain(parts) + [48, 13, 10] + [13, 10];
    hide ParseChunks, SizeLine, Plain, RenderChunks, LegalChunks;
    LegalIsAccepted(e, rest);
  }

  predicate Tokens(name: bytes) {
    name != [] && forall k | 0 <= k < |name| :: TokenByte(name[k])
  }

  /** A trailer field is a name of token characters, a colon, and anything. */
  lemma FieldLineMeans(line: bytes)
    ensures FieldLine(line) <==> exists name: bytes, rest: bytes :: line == name + [58] + rest && Tokens(name)
  {
    assert !TokenByte(COLON);
    hide TokenByte;
    if FieldLine(line) {
      var name := Before(line, COLON);
      BeforeSplits(line, COLON);
      var rest := line[|name| + 1..];
      assert line == name + [58] + rest && Tokens(name);
    }
    if name: bytes, rest: bytes :| line == name + [58] + rest && Tokens(name) {
      assert COLON !in name;
      BeforeStops(name, COLON, rest);
      assert line[|name|] == COLON;
    }
  }

  lemma {:induction false} BeforeSplits(s: bytes, mark: byte)
    requires mark in s
    ensures |Before(s, mark)| < |s| && s == Before(s, mark) + [mark] + s[|Before(s, mark)| + 1..]
  {
    if s[0] != mark { BeforeSplits(s[1..], mark); }
  }
}
