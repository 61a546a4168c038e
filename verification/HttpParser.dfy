/** The restartable HTTP response parser: `HttpResponseBuilder` working on a
    `Buffer`, proved against the functional description `Parse`. */
module HttpParser {
  import opened Options
  import opened ByteBuffer
  import opened HttpText

  datatype Version = Unknown | Http10 | Http11

  /** `ErrorCode`, and three ways to leave the parser without a code: an exception
      of `std::stoi` or `std::stoul`, a line built from a null line end, and
      `std::length_error`: a length so large that its sum with the offset wraps passes
      the guard, and then no string can hold so many bytes. */
  datatype Code = NoError | Status | Messages | Body | WaitForData | Thrown | NullLine | TooLong

  /** `size_t` and `unsigned long` have 64 bits. */
  const SIZE_LIMIT: nat := ULONG_LIMIT

  /** No container of bytes is longer. */
  const MAX_STRING: nat := 0x7FFF_FFFF_FFFF_FFFF

  type HeaderMap = map<string, string>

  datatype Reply = Reply(version: Version, status: int, headers: HeaderMap, body: string)

  datatype Outcome = Parsed(reply: Reply, consumed: nat) | Failed(code: Code)

  // ---------- lines ----------

  /** The text before the first space, and what `substr(i + 1)` leaves: with no
      space `i + 1` wraps to 0 and the line stays whole. */
  function Field(line: string): (string, string) {
    match Find(line, ' ')
    case Some(i) => (line[..i], line[i + 1..])
    case None => (line, line)
  }

  function VersionFromString(ver: string): Version {
    if "HTTP/1." <= ver && |ver| == 8 then
      if ver[7] == '0' then Http10 else if ver[7] == '1' then Http11 else Unknown
    else Unknown
  }

  function StatusLine(line: string): Option<(Version, int)> {
    var (ver, rest) := Field(line);
    match Stoi(Field(rest).0)
    case None => None
    case Some(status) => Some((VersionFromString(ver), status))
  }

  /** Name and value of a header line; one leading space of the value goes.
      Without a colon both are the whole line. */
  function HeaderLine(line: string): (string, string) {
    var (name, value) := match Find(line, ':')
      case Some(i) => (line[..i], line[i + 1..])
      case None => (line, line);
    (name, if value != [] && value[0] == ' ' then value[1..] else value)
  }

  /** `emplace`: the first header of a name stays. */
  function AddHeader(headers: HeaderMap, line: string): HeaderMap {
    var (name, value) := HeaderLine(line);
    if name in headers then headers else headers[name := value]
  }

  // ---------- the message ----------

  datatype Head = HeadAt(version: Version, status: int, headers: HeaderMap, end: nat) | HeadFailed(code: Code)

  /** The header lines after the line end `crlf`, up to the empty line. */
  function HeaderLines(b: string, crlf: nat, headers: HeaderMap): (r: Option<(HeaderMap, nat)>)
    requires crlf + 2 <= |b|
    ensures r.Some? ==> crlf + 2 <= r.value.1 && r.value.1 + 2 <= |b|
    decreases |b| - crlf
  {
    var data := crlf + 2;
    match FindCRLF(b, data)
    case None => None
    case Some(end) =>
      if end == data then Some((headers, data))
      else HeaderLines(b, end, AddHeader(headers, b[data..end]))
  }

  /** The status line and the headers; `end` is where the empty line starts. */
  function ParseHead(b: string): (h: Head)
    ensures h.HeadAt? ==> h.end + 2 <= |b|
    ensures h.HeadFailed? ==> h.code == NullLine || h.code == Thrown
  {
    match FindCRLF(b, 0)
    case None => HeadFailed(NullLine)
    case Some(crlf) =>
      match StatusLine(b[..crlf])
      case None => HeadFailed(Thrown)
      case Some((version, status)) =>
        match HeaderLines(b, crlf, map[])
        case None => HeadFailed(NullLine)
        case Some((headers, end)) => HeadAt(version, status, headers, end)
  }

  datatype BodyResult = BodyDone(body: string, consumed: nat) | BodyFailed(code: Code)

  datatype Chunk = Size(len: nat, data: nat, next: nat) | Failure(code: Code)

  /** Two lines after the line end `crlf`: the size line, and where the data
      starts together with the first line end found from there. */
  function SizeLine(b: string, crlf: nat): (r: Chunk)
    requires crlf + 2 <= |b|
    ensures r.Size? ==> crlf + 4 <= r.data <= r.next && r.next + 2 <= |b|
    ensures r.Failure? ==> r.code == WaitForData || r.code == Thrown
  {
    match FindCRLF(b, crlf + 2)
    case None => Failure(WaitForData)
    case Some(lineEnd) =>
      match FindCRLF(b, lineEnd + 2)
      case None => Failure(WaitForData)
      case Some(next) =>
        match Stoul(b[crlf + 2..lineEnd], 16)
        case None => Failure(Thrown)
        case Some(len) => Size(len, lineEnd + 2, next)
  }

  /** The chunk loop, entered with the line end found last. The next round goes
      on from the first line end in the chunk, wherever its declared length ends. */
  function Chunks(b: string, crlf: nat, body: string): (r: BodyResult)
    requires crlf + 2 <= |b|
    ensures r.BodyDone? ==> r.consumed <= |b| && body <= r.body
    ensures r.BodyFailed? ==> r.code == WaitForData || r.code == Thrown || r.code == TooLong
    decreases |b| - crlf
  {
    match SizeLine(b, crlf)
    case Failure(code) => BodyFailed(code)
    case Size(len, data, next) =>
      if len == 0 then
        if FindCRLF(b, next + 2).None? then BodyFailed(WaitForData) else BodyDone(body, next + 2)
      else if data + len + 2 >= SIZE_LIMIT then BodyFailed(TooLong)
      else if |b| < data + len + 2 then BodyFailed(WaitForData)
      else Chunks(b, next, body + b[data..data + len])
  }

  function FixedBody(b: string, end: nat, len: nat): (r: BodyResult)
    ensures r.BodyDone? ==> r.consumed <= |b|
  {
    if end + len + 2 >= SIZE_LIMIT then BodyFailed(TooLong)
    else if |b| < end + len + 2 then BodyFailed(WaitForData)
    else BodyDone(b[end + 2..end + 2 + len], end + 2 + len)
  }

  predicate IsChunked(headers: HeaderMap) {
    "Transfer-Encoding" in headers && headers["Transfer-Encoding"] == "chunked"
  }

  function ParseBody(b: string, headers: HeaderMap, end: nat): (r: BodyResult)
    requires end + 2 <= |b|
    ensures r.BodyDone? ==> r.consumed <= |b|
    ensures r.BodyFailed? ==> r.code == WaitForData || r.code == Thrown || r.code == TooLong || r.code == Body
  {
    if IsChunked(headers) then Chunks(b, end, [])
    else if "Content-Length" in headers then
      match Stoul(headers["Content-Length"], 10)
      case None => BodyFailed(Thrown)
      case Some(len) => FixedBody(b, end, len)
    else BodyFailed(Body)
  }

  function Parse(b: string): (r: Outcome)
    ensures r.Parsed? ==> r.consumed <= |b|
    ensures r.Failed? ==> r.code != NoError
  {
    match ParseHead(b)
    case HeadFailed(code) => Failed(code)
    case HeadAt(version, status, headers, end) =>
      match ParseBody(b, headers, end)
      case BodyFailed(code) => Failed(code)
      case BodyDone(body, consumed) => Parsed(Reply(version, status, headers, body), consumed)
  }

  /** What a body of declared length leaves when it fails: a length beyond every
      string fails only after the head was taken off. */
  function LeftOf(b: string, end: nat, r: BodyResult): string
    requires end + 2 <= |b|
  {
    if r == BodyFailed(TooLong) then b[end + 2..] else b
  }

  function BodyLeft(b: string, headers: HeaderMap, end: nat): string
    requires end + 2 <= |b|
  {
    if IsChunked(headers) then b else LeftOf(b, end, ParseBody(b, headers, end))
  }

  /** What the buffer holds after a parse. */
  function Remaining(b: string): string {
    match Parse(b)
    case Parsed(_, n) => b[n..]
    case Failed(_) =>
      match ParseHead(b)
      case HeadFailed(_) => b
      case HeadAt(_, _, headers, end) => BodyLeft(b, headers, end)
  }

  /** A parse that fails leaves the buffer as it was, unless a body was announced
      whose length wraps. */
  lemma UntouchedExactly(b: string)
    requires Parse(b).Failed?
    ensures Remaining(b) == b <==> !Wraps(ParseHead(b))
  {
    hide ParseHead, Chunks, Stoul;
  }

  predicate Wraps(h: Head) {
    && h.HeadAt? && !IsChunked(h.headers) && "Content-Length" in h.headers
    && var len := Stoul(h.headers["Content-Length"], 10); len.Some? && h.end + len.value + 2 >= SIZE_LIMIT
  }

  // ---------- the builder ----------

  /** `at + len + 2` in `size_t`. */
  function Wrapped(at: nat, len: nat): nat { (at + len + 2) % SIZE_LIMIT }

  /** The 64-bit guard: with no wrap it is the comparison meant; after a wrap it
      always lets pass, and then the length is beyond every string. */
  lemma Guard(readable: nat, at: nat, len: nat)
    requires at + 2 <= readable <= MAX_STRING && len < SIZE_LIMIT
    ensures readable < Wrapped(at, len) <==> at + len + 2 < SIZE_LIMIT && readable < at + len + 2
    ensures readable >= Wrapped(at, len) ==> (len > MAX_STRING <==> at + len + 2 >= SIZE_LIMIT)
  {
    if at + len + 2 >= SIZE_LIMIT {
      assert (at + len + 2) % SIZE_LIMIT == at + len + 2 - SIZE_LIMIT;
    }
  }

  lemma FixedBodyMeans(b: string, end: nat, len: nat)
    requires end + 2 <= |b| <= MAX_STRING && len < SIZE_LIMIT
    ensures FixedBody(b, end, len) ==
      if |b| < Wrapped(end, len) then BodyFailed(WaitForData)
      else if len > MAX_STRING then BodyFailed(TooLong)
      else BodyDone(b[end + 2..][..len], end + 2 + len)
    ensures |b| >= Wrapped(end, len) && len <= MAX_STRING ==>
      end + 2 + len <= |b| && b[end + 2..][len..] == b[end + 2 + len..]
  {
    Guard(|b|, end, len);
    hide Wrapped;
    if len <= |b| - end - 2 {
      assert b[end + 2..end + 2 + len] == b[end + 2..][..len];
    }
  }

  /** One round of the chunk loop that is the last. */
  lemma ChunksEnd(b: string, crlf: nat, body: string)
    requires crlf + 2 <= |b|
    ensures SizeLine(b, crlf).Failure? ==> Chunks(b, crlf, body) == BodyFailed(SizeLine(b, crlf).code)
    ensures var size := SizeLine(b, crlf); size.Size? && size.len == 0 ==>
      Chunks(b, crlf, body)
      == if FindCRLF(b, size.next + 2).None? then BodyFailed(WaitForData) else BodyDone(body, size.next + 2)
  {
    hide SizeLine;
  }

  /** One round of the chunk loop that takes data. */
  lemma ChunksMean(b: string, crlf: nat, body: string, len: nat, data: nat, next: nat)
    requires crlf + 2 <= |b| <= MAX_STRING && 0 < len < SIZE_LIMIT && SizeLine(b, crlf) == Size(len, data, next)
    ensures |b| >= Wrapped(data, len) && len <= MAX_STRING ==> data + len <= |b|
    ensures Chunks(b, crlf, body) ==
      if |b| < Wrapped(data, len) then BodyFailed(WaitForData)
      else if len > MAX_STRING then BodyFailed(TooLong)
      else Chunks(b, next, body + b[data..data + len])
  {
    ChunksGoOn(b, crlf, body, len, data, next);
    Guard(|b|, data, len);
    hide Wrapped, Chunks;
  }

  lemma ChunksGoOn(b: string, crlf: nat, body: string, len: nat, data: nat, next: nat)
    requires crlf + 2 <= |b| && len > 0 && SizeLine(b, crlf) == Size(len, data, next)
    ensures Chunks(b, crlf, body) ==
      if data + len + 2 >= SIZE_LIMIT then BodyFailed(TooLong)
      else if |b| < data + len + 2 then BodyFailed(WaitForData)
      else Chunks(b, next, body + b[data..data + len])
  {
    hide SizeLine, IsCRLF, FindCRLF, Stoul;
  }

  ghost predicate Holds(buf: BufferEndian<char>, s: string)
    reads buf, buf.buffer
  {
    buf.Valid() && buf.Contents() == s
  }

  class HttpResponseBuilder {
    const buf: BufferEndian<char>
    ghost const text: string  // what the buffer holds until a message is taken off it
    var readNumber: int
    var data: int
    var crlf: Option<nat>
    var line: string
    var headers: HeaderMap
    var body: string
    var version: Version
    var status: int
    var statusMessage: string
    var code: Code

    constructor (buf: BufferEndian<char>)
      requires buf.Valid()
      ensures this.buf == buf && text == buf.Contents()
      ensures readNumber == 0 && headers == map[] && body == [] && code == NoError
    {
      this.buf := buf;
      text := buf.Contents();
      readNumber, data, crlf, line := 0, 0, None, [];
      headers, body, version, status, statusMessage, code := map[], [], Unknown, 0, [], NoError;
    }

    /** The cursor: the running count is the offset of the current line, and the
        line end was found in the text. */
    ghost predicate AtLine()
      reads this
    {
      readNumber == data && 0 <= data <= |text| && crlf.Some? && crlf.value + 2 <= |text|
    }

    method NextLine()
      requires Holds(buf, text) && AtLine()
      modifies this`readNumber, this`data, this`crlf
      ensures Holds(buf, text) && data == readNumber == old(crlf).value + 2
      ensures crlf == FindCRLF(text, old(crlf).value + 2)
      ensures crlf.Some? ==> AtLine()
    {
      readNumber := readNumber + (crlf.value - data + 2);
      data := crlf.value + 2;
      crlf := FindCRLFInBuffer(buf, data);
    }

    method SetLine()
      requires Holds(buf, text) && AtLine() && data <= crlf.value
      modifies this`line
      ensures Holds(buf, text) && line == text[data..crlf.value]
    {
      line := buf.View(data, crlf.value);
    }

    method StatusLineStep()
      requires Holds(buf, text) && AtLine() && data == 0
      modifies this`code, this`line, this`version, this`status, this`statusMessage
      ensures Holds(buf, text)
      ensures code == if StatusLine(text[..crlf.value]) == None then Thrown else NoError
      ensures code == NoError ==> StatusLine(text[..crlf.value]) == Some((version, status))
    {
      hide Stoi, VersionFromString, Field,
        BufferEndian.Contents, BufferEndian.Valid, BufferEndian.Shape;
      code := Status;
      SetLine();
      var (ver, afterVersion) := Field(line);
      version := VersionFromString(ver);
      var (number, afterNumber) := Field(afterVersion);
      line := afterNumber;
      var n := Stoi(number);
      if n == None {
        code := Thrown;
        return;
      }
      status := n.value;
      var (message, afterMessage) := Field(line);
      statusMessage, line := message, afterMessage;
      code := NoError;
    }

    method MessageLines()
      requires Holds(buf, text) && AtLine() && headers == map[]
      modifies this`readNumber, this`data, this`crlf, this`line, this`headers, this`code
      ensures Holds(buf, text)
      ensures code == if HeaderLines(text, old(crlf).value, map[]) == None then NullLine else NoError
      ensures code == NoError ==> HeaderLines(text, old(crlf).value, map[]) == Some((headers, data))
      ensures code == NoError ==> AtLine() && crlf == Some(data)
    {
      hide AddHeader, Field, FindCRLF, IsCRLF, NoCRLF,
        BufferEndian.Contents, BufferEndian.Valid, BufferEndian.Shape;
      code := Messages;
      ghost var goal := HeaderLines(text, crlf.value, map[]);
      while true
        invariant Holds(buf, text) && AtLine()
        invariant HeaderLines(text, crlf.value, headers) == goal
        decreases |text| - crlf.value
      {
        ghost var before := crlf.value;
        NextLine();
        assert crlf == FindCRLF(text, before + 2);
        if crlf == None {
          code := NullLine;
          return;
        }
        SetLine();
        if line == [] {
          break;
        }
        assert HeaderLines(text, crlf.value, AddHeader(headers, line)) == goal;
        headers := AddHeader(headers, line);
      }
      code := NoError;
    }

    /** What a body step leaves: on success the buffer is past the message, on
        any other outcome it holds what is said to be left. */
    ghost predicate BodyStep(r: BodyResult, left: string)
      reads this, buf, buf.buffer
    {
      match r
      case BodyDone(s, n) => code == NoError && body == s && n <= |text| && Holds(buf, text[n..])
      case BodyFailed(c) => code == c && Holds(buf, left)
    }

    /** One round of the chunk loop up to the length: two line ends. */
    method ChunkSize() returns (len: nat)
      requires Holds(buf, text) && AtLine() && code == WaitForData
      modifies this`readNumber, this`data, this`crlf, this`line, this`code
      ensures Holds(buf, text) && 0 <= data
      ensures SizeLine(text, old(crlf).value) ==
        if code == WaitForData && crlf.Some? then Size(len, data, crlf.value) else Failure(code)
      ensures code == WaitForData && crlf.Some? ==> AtLine() && len < SIZE_LIMIT
    {
      hide Stoul,
        BufferEndian.Contents, BufferEndian.Valid, BufferEndian.Shape;
      len := 0;
      NextLine();
      if crlf == None {
        return;
      }
      SetLine();
      NextLine();
      if crlf == None {
        return;
      }
      var number := Stoul(line, 16);
      if number == None {
        code := Thrown;
        return;
      }
      len := number.value;
    }

    method TransferEncoding()
      requires Holds(buf, text) && AtLine() && body == [] && |text| <= MAX_STRING
      modifies this`readNumber, this`data, this`crlf, this`line, this`body, this`code
      modifies buf`readerIndex, buf`writerIndex
      ensures BodyStep(Chunks(text, old(crlf).value, []), text)
    {
      hide SizeLine, Chunks, Wrapped, IsCRLF, FindCRLF, NoCRLF,
        BufferEndian.Contents, BufferEndian.Valid, BufferEndian.Shape;
      code := WaitForData;
      ghost var goal := Chunks(text, crlf.value, []);
      while true
        invariant Holds(buf, text) && AtLine() && code == WaitForData
        invariant Chunks(text, crlf.value, body) == goal
        decreases |text| - crlf.value
      {
        ghost var size, before := SizeLine(text, crlf.value), crlf.value;
        var len := ChunkSize();
        ChunksEnd(text, before, body);
        if code != WaitForData || crlf == None {
          return;
        }
        assert size == Size(len, data, crlf.value);
        if len == 0 {
          NextLine();
          if crlf == None {
            return;
          }
          buf.Retrieve(readNumber);
          break;
        }
        var readable := buf.ReadableBytes();
        ChunksMean(text, before, body, len, data, crlf.value);
        if readable < Wrapped(readNumber, len) {
          return;
        }
        if len > MAX_STRING {
          code := TooLong;
          return;
        }
        var piece := buf.View(readNumber, readNumber + len);
        body := body + piece;
        readNumber := readNumber + len;
        data := readNumber;
      }
      code := NoError;
    }

    method ContentLength(len: nat)
      requires Holds(buf, text) && AtLine() && crlf == Some(data) && |text| <= MAX_STRING && len < SIZE_LIMIT
      modifies this`body, this`code, buf`readerIndex, buf`writerIndex
      ensures BodyStep(FixedBody(text, data, len), LeftOf(text, data, FixedBody(text, data, len)))
    {
      hide BufferEndian.Contents, BufferEndian.Valid, BufferEndian.Shape, Layout.Retrieve,
        IsCRLF, FindCRLF, NoCRLF, SizeLine, Chunks, FixedBody, Wrapped;
      FixedBodyMeans(text, data, len);
      code := WaitForData;
      var readable := buf.ReadableBytes();
      if readable < Wrapped(readNumber, len) {
        return;
      }
      buf.Retrieve(readNumber + 2);
      if len > MAX_STRING {
        code := TooLong;
        return;
      }
      body := buf.RetrieveAsString(len);
      code := NoError;
    }

    method BodyLine()
      requires Holds(buf, text) && AtLine() && crlf == Some(data) && body == [] && |text| <= MAX_STRING
      modifies this, buf`readerIndex, buf`writerIndex
      ensures BodyStep(ParseBody(text, old(headers), old(data)), BodyLeft(text, old(headers), old(data)))
      ensures headers == old(headers) && version == old(version) && status == old(status)
    {
      code := Body;
      if "Transfer-Encoding" in headers && headers["Transfer-Encoding"] == "chunked" {
        TransferEncoding();
        return;
      }
      if "Content-Length" in headers {
        var len := Stoul(headers["Content-Length"], 10);
        if len == None {
          code := Thrown;
          return;
        }
        ContentLength(len.value);
      }
    }

    method Run()
      requires Holds(buf, text) && readNumber == 0 && headers == map[] && body == [] && |text| <= MAX_STRING
      modifies this, buf`readerIndex, buf`writerIndex
      ensures match Parse(text)
        case Failed(c) => code == c && c != NoError
        case Parsed(reply, _) => code == NoError && Reply(version, status, headers, body) == reply
      ensures Holds(buf, Remaining(text))
    {
      hide StatusLine, Field, Chunks, HeaderLines,
        BufferEndian.Contents, BufferEndian.Valid, BufferEndian.Shape;
      data := 0;
      crlf := FindCRLFInBuffer(buf, 0);
      if crlf == None {
        code := NullLine;
        return;
      }
      StatusLineStep();
      if code != NoError {
        return;
      }
      MessageLines();
      if code != NoError {
        return;
      }
      assert ParseHead(text) == HeadAt(version, status, headers, data);
      BodyLine();
    }
  }

  /** `buildFromBuffer`: the reply or the code, and what stays in the buffer. */
  method BuildFromBuffer(buf: BufferEndian<char>) returns (reply: Option<Reply>, condition: Code)
    requires buf.Valid() && |buf.Contents()| <= MAX_STRING
    modifies buf`readerIndex, buf`writerIndex
    ensures buf.Valid()
    ensures buf.Contents() == Remaining(old(buf.Contents()))
    ensures match Parse(old(buf.Contents()))
      case Failed(c) => reply == None && condition == c
      case Parsed(r, _) => reply == Some(r) && condition == NoError
  {
    var builder := new HttpResponseBuilder(buf);
    builder.Run();
    condition := builder.code;
    reply := if condition == NoError
             then Some(Reply(builder.version, builder.status, builder.headers, builder.body)) else None;
  }
}
