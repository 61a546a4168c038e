/** What the response parser guarantees: restarting after more data, and round
    trips for messages with a declared length and with the chunked coding. */
module HttpTheorems {
  import opened Options
  import opened HttpText
  import opened HttpParser

  // ---------- more data ----------

  lemma {:induction false} HeaderLinesExtend(b: string, m: string, crlf: nat, headers: HeaderMap)
    requires crlf + 2 <= |b| && HeaderLines(b, crlf, headers).Some?
    ensures HeaderLines(b + m, crlf, headers) == HeaderLines(b, crlf, headers)
    decreases |b| - crlf
  {
    FindCRLFExtends(b, m, crlf + 2);
    var end := FindCRLF(b, crlf + 2).value;
    if end != crlf + 2 {
      assert (b + m)[crlf + 2..end] == b[crlf + 2..end];
      HeaderLinesExtend(b, m, end, AddHeader(headers, b[crlf + 2..end]));
    }
  }

  lemma HeadExtends(b: string, m: string)
    requires ParseHead(b).HeadAt?
    ensures ParseHead(b + m) == ParseHead(b)
  {
    hide StatusLine, HeaderLines;
    FindCRLFExtends(b, m, 0);
    var crlf := FindCRLF(b, 0).value;
    assert (b + m)[..crlf] == b[..crlf];
    HeaderLinesExtend(b, m, crlf, map[]);
  }

  lemma SizeLineExtends(b: string, m: string, crlf: nat)
    requires crlf + 2 <= |b| && SizeLine(b, crlf) != Failure(WaitForData)
    ensures SizeLine(b + m, crlf) == SizeLine(b, crlf)
  {
    hide Stoul;
    FindCRLFExtends(b, m, crlf + 2);
    var end := FindCRLF(b, crlf + 2).value;
    FindCRLFExtends(b, m, end + 2);
    assert (b + m)[crlf + 2..end] == b[crlf + 2..end];
  }

  lemma {:induction false} ChunksExtend(b: string, m: string, crlf: nat, body: string)
    requires crlf + 2 <= |b| && Chunks(b, crlf, body) != BodyFailed(WaitForData)
    ensures Chunks(b + m, crlf, body) == Chunks(b, crlf, body)
    decreases |b| - crlf
  {
    hide SizeLine;
    SizeLineExtends(b, m, crlf);
    var size := SizeLine(b, crlf);
    if size.Size? && size.len == 0 {
      FindCRLFExtends(b, m, size.next + 2);
    } else if size.Size? && size.data + size.len + 2 < SIZE_LIMIT {
      assert (b + m)[size.data..size.data + size.len] == b[size.data..size.data + size.len];
      ChunksExtend(b, m, size.next, body + b[size.data..size.data + size.len]);
    }
  }

  /** Once the header section is there, every outcome but "wait" is final: more
      bytes change neither the reply nor the error. */
  lemma SettledOutcome(b: string, m: string)
    requires ParseHead(b).HeadAt? && Parse(b) != Failed(WaitForData)
    ensures Parse(b + m) == Parse(b)
  {
    hide ParseHead, Chunks, Stoul;
    HeadExtends(b, m);
    var h := ParseHead(b);
    if IsChunked(h.headers) {
      ChunksExtend(b, m, h.end, []);
    } else if "Content-Length" in h.headers && Stoul(h.headers["Content-Length"], 10).Some? {
      var len := Stoul(h.headers["Content-Length"], 10).value;
      if h.end + len + 2 < SIZE_LIMIT {
        assert (b + m)[h.end + 2..h.end + 2 + len] == b[h.end + 2..h.end + 2 + len];
      }
    }
  }

  /** A message that parses goes on to parse the same, and what follows it stays. */
  lemma PrefixStable(b: string, m: string)
    requires Parse(b).Parsed?
    ensures Parse(b + m) == Parse(b)
    ensures (b + m)[Parse(b).consumed..] == b[Parse(b).consumed..] + m
  {
    hide ParseHead, ParseBody;
    SettledOutcome(b, m);
  }

  /** A parse that succeeds takes the message off the buffer and nothing else:
      whatever came after it stays, to be parsed next. */
  lemma LeavesRest(b: string, m: string)
    requires Parse(b).Parsed?
    ensures Remaining(b + m) == b[Parse(b).consumed..] + m
  {
    PrefixStable(b, m);
    hide Parse;
  }

  function Concat(parts: seq<string>): string {
    if parts == [] then [] else parts[0] + Concat(parts[1..])
  }

  /** The receiver's loop: parse after every delivery as long as the parser asks
      for more; gives the last outcome, what the buffer holds, and what was not delivered. */
  function Feed(b: string, parts: seq<string>): (Outcome, string, seq<string>)
    decreases |parts|
  {
    var r := Parse(b);
    if r.Parsed? then (r, Remaining(b), parts)
    else if r == Failed(WaitForData) && parts != [] then Feed(b + parts[0], parts[1..])
    else (r, Remaining(b), parts)
  }

  /** Parsing piece by piece gives the same reply as parsing everything at once,
      and the same bytes remain, however the stream was cut. */
  lemma {:induction false} FeedEqualsWhole(b: string, parts: seq<string>)
    requires Feed(b, parts).0.Parsed?
    ensures Parse(b + Concat(parts)) == Feed(b, parts).0
    ensures var (r, left, rest) := Feed(b, parts);
      (b + Concat(parts))[r.consumed..] == left + Concat(rest)
    decreases |parts|
  {
    hide Parse;
    if Parse(b).Parsed? {
      PrefixStable(b, Concat(parts));
    } else {
      FeedEqualsWhole(b + parts[0], parts[1..]);
      assert b + Concat(parts) == (b + parts[0]) + Concat(parts[1..]);
    }
  }

  /** Arriving in pieces, a stream is parsed if and only if it parses as a whole
      and the first piece holds the header section. */
  lemma FeedExactly(b: string, parts: seq<string>)
    ensures Feed(b, parts).0.Parsed? <==> ParseHead(b).HeadAt? && Parse(b + Concat(parts)).Parsed?
  {
    if Feed(b, parts).0.Parsed? {
      FeedEqualsWhole(b, parts);
    } else if ParseHead(b).HeadAt? && Parse(b + Concat(parts)).Parsed? {
      FeedCompletes(b, parts);
    }
  }

  lemma {:induction false} FeedCompletes(b: string, parts: seq<string>)
    requires ParseHead(b).HeadAt? && Parse(b + Concat(parts)).Parsed?
    ensures Feed(b, parts).0.Parsed?
    decreases |parts|
  {
    hide Parse, ParseHead;
    if parts == [] {
      assert b + Concat(parts) == b;
    } else if Parse(b) != Failed(WaitForData) {
      SettledOutcome(b, Concat(parts));
    } else {
      HeadExtends(b, parts[0]);
      assert b + Concat(parts) == (b + parts[0]) + Concat(parts[1..]);
      FeedCompletes(b + parts[0], parts[1..]);
    }
  }

  // ---------- when the header section is usable ----------

  ghost predicate EmptyLineAt(b: string, i: int) { IsCRLF(b, i) && IsCRLF(b, i + 2) }

  lemma {:induction false} HeaderLinesDefined(b: string, crlf: nat, headers: HeaderMap)
    requires IsCRLF(b, crlf)
    ensures HeaderLines(b, crlf, headers).Some? <==> exists i :: crlf <= i && EmptyLineAt(b, i)
    decreases |b| - crlf
  {
    var found := FindCRLF(b, crlf + 2);
    if found.Some? {
      var end := found.value;
      if end == crlf + 2 {
        assert EmptyLineAt(b, crlf);
      } else {
        HeaderLinesDefined(b, end, AddHeader(headers, b[crlf + 2..end]));
        forall i | crlf <= i && EmptyLineAt(b, i)
          ensures end <= i
        {
        }
      }
    }
  }

  /** The parser builds a line from a null pointer exactly when the status line
      is cut off, or is fine but no empty line has arrived yet. */
  lemma NullLineExactly(b: string)
    ensures Parse(b) == Failed(NullLine) <==>
      (FindCRLF(b, 0) == None
       || (StatusLine(b[..FindCRLF(b, 0).value]).Some? && forall i :: 0 <= i < |b| ==> !EmptyLineAt(b, i)))
  {
    hide StatusLine, HeaderLines, ParseBody;
    var first := FindCRLF(b, 0);
    if first.Some? {
      HeaderLinesDefined(b, first.value, map[]);
      forall i | 0 <= i < |b| && EmptyLineAt(b, i)
        ensures first.value <= i
      {
      }
    }
  }

  // ---------- printing a message ----------

  datatype Header = Header(name: string, value: string) {
    ghost predicate Ok() { ':' !in name && NoCRLF(Line()) }

    function Line(): string { name + [':'] + [' '] + value }
  }

  function PrintHeaders(hs: seq<Header>): string {
    if hs == [] then [] else hs[0].Line() + CRLF + PrintHeaders(hs[1..])
  }

  function Emplace(headers: HeaderMap, h: Header): HeaderMap {
    if h.name in headers then headers else headers[h.name := h.value]
  }

  function EmplaceAll(headers: HeaderMap, hs: seq<Header>): HeaderMap
    decreases |hs|
  {
    if hs == [] then headers else EmplaceAll(Emplace(headers, hs[0]), hs[1..])
  }

  function PrintHead(status: string, hs: seq<Header>): string {
    status + CRLF + PrintHeaders(hs) + CRLF
  }

  /** The first header of a name. */
  ghost predicate First(hs: seq<Header>, i: int, name: string) {
    0 <= i < |hs| && hs[i].name == name && forall j :: 0 <= j < i ==> hs[j].name != name
  }

  /** Of several headers of a name the first counts, and no other name appears. */
  lemma {:induction false} EmplacedMean(headers: HeaderMap, hs: seq<Header>, name: string)
    ensures name in EmplaceAll(headers, hs) <==> name in headers || exists h :: h in hs && h.name == name
    ensures name in headers ==> EmplaceAll(headers, hs)[name] == headers[name]
    ensures name !in headers ==> forall i :: First(hs, i, name) ==> EmplaceAll(headers, hs)[name] == hs[i].value
    decreases |hs|
  {
    if hs != [] {
      var tail := hs[1..];
      EmplacedMean(Emplace(headers, hs[0]), tail, name);
      assert hs == [hs[0]] + tail;
      forall i | First(hs, i, name) && name !in headers
        ensures EmplaceAll(headers, hs)[name] == hs[i].value
      {
        if i > 0 {
          assert hs[0].name != name && forall j :: 0 <= j < i ==> tail[j] == hs[j + 1];
          assert First(tail, i - 1, name);
        }
      }
    }
  }

  lemma HeadersMean(hs: seq<Header>, name: string)
    ensures name in EmplaceAll(map[], hs) <==> exists h :: h in hs && h.name == name
    ensures forall i :: First(hs, i, name) ==> EmplaceAll(map[], hs)[name] == hs[i].value
  {
    EmplacedMean(map[], hs, name);
  }

  /** The chunked coding applies exactly when the first header of that name says so,
      in these letters. */
  lemma ChunkedMeans(hs: seq<Header>)
    ensures IsChunked(EmplaceAll(map[], hs)) <==>
      exists i :: First(hs, i, "Transfer-Encoding") && hs[i].value == "chunked"
  {
    var name := "Transfer-Encoding";
    HeadersMean(hs, name);
    if h :| h in hs && h.name == name {
      var i := FirstNamed(hs, name);
      assert EmplaceAll(map[], hs)[name] == hs[i].value;
      hide EmplaceAll;
    }
  }

  lemma {:induction false} FirstNamed(hs: seq<Header>, name: string) returns (i: nat)
    requires exists h :: h in hs && h.name == name
    ensures First(hs, i, name)
    decreases |hs|
  {
    if hs[0].name == name {
      i := 0;
    } else {
      assert hs == [hs[0]] + hs[1..];
      i := FirstNamed(hs[1..], name);
      assert forall j :: 0 < j <= i + 1 ==> hs[j] == hs[1..][j - 1];
      i := i + 1;
    }
  }

  /** A header line without a space after the colon, and one without a colon. */
  lemma UnusualHeaders(headers: HeaderMap, name: string, value: string, line: string)
    requires ':' !in name && (value == [] || value[0] != ' ') && ':' !in line && (line == [] || line[0] != ' ')
    ensures AddHeader(headers, name + [':'] + value) == Emplace(headers, Header(name, value))
    ensures AddHeader(headers, line) == Emplace(headers, Header(line, line))
  {
    NoSpaceAfterColon(name, value);
    NoColon(line);
    hide HeaderLine;
  }

  lemma NoSpaceAfterColon(name: string, value: string)
    requires ':' !in name && (value == [] || value[0] != ' ')
    ensures HeaderLine(name + [':'] + value) == (name, value)
  {
    FindAfter(name, ':', value);
    hide Find;
    var l := name + [':'] + value;
    assert l[..|name|] == name && l[|name| + 1..] == value;
  }

  lemma NoColon(line: string)
    requires ':' !in line && (line == [] || line[0] != ' ')
    ensures HeaderLine(line) == (line, line)
  {
    hide Find;
  }

  lemma HeaderRead(headers: HeaderMap, h: Header)
    requires h.Ok()
    ensures AddHeader(headers, h.Line()) == Emplace(headers, h)
  {
    assert h.Line() == h.name + [':'] + ([' '] + h.value);
    FindAfter(h.name, ':', [' '] + h.value);
    assert h.Line()[..|h.name|] == h.name && h.Line()[|h.name| + 1..] == [' '] + h.value;
    assert ([' '] + h.value)[1..] == h.value;
  }

  lemma EmptyLineRead(pre: string, rest: string, headers: HeaderMap)
    requires |pre| >= 2
    ensures HeaderLines(pre + [] + CRLF + rest, |pre| - 2, headers) == Some((headers, |pre|))
  {
    LineFound(pre, [], rest);
  }

  lemma HeaderLineRead(pre: string, h: Header, rest: string, headers: HeaderMap)
    requires |pre| >= 2 && h.Ok()
    ensures HeaderLines(pre + h.Line() + CRLF + rest, |pre| - 2, headers)
         == HeaderLines(pre + h.Line() + CRLF + rest, |pre + h.Line()|, Emplace(headers, h))
  {
    hide AddHeader, Emplace, NoCRLF;
    var b := pre + h.Line() + CRLF + rest;
    LineFound(pre, h.Line(), rest);
    assert b[|pre|..|pre| + |h.Line()|] == h.Line();
    HeaderRead(headers, h);
  }

  lemma {:induction false} HeaderLinesRead(pre: string, hs: seq<Header>, rest: string, headers: HeaderMap)
    requires |pre| >= 2 && forall h :: h in hs ==> h.Ok()
    ensures HeaderLines(pre + PrintHeaders(hs) + CRLF + rest, |pre| - 2, headers)
         == Some((EmplaceAll(headers, hs), |pre| + |PrintHeaders(hs)|))
    decreases |hs|
  {
    hide HeaderLines, Emplace, Header.Ok, Header.Line;
    var b := pre + PrintHeaders(hs) + CRLF + rest;
    if hs == [] {
      assert b == pre + [] + CRLF + rest;
      EmptyLineRead(pre, rest, headers);
    } else {
      var line, tail := hs[0].Line(), PrintHeaders(hs[1..]) + CRLF + rest;
      assert b == pre + line + CRLF + tail;
      HeaderLineRead(pre, hs[0], tail, headers);
      assert b == (pre + line + CRLF) + PrintHeaders(hs[1..]) + CRLF + rest;
      HeaderLinesRead(pre + line + CRLF, hs[1..], rest, Emplace(headers, hs[0]));
    }
  }

  /** Any status line the parser accepts and any headers are read back, and the
      cursor stops at the empty line. */
  lemma HeadRoundTrip(status: string, hs: seq<Header>, rest: string)
    requires NoCRLF(status) && StatusLine(status).Some? && forall h :: h in hs ==> h.Ok()
    ensures ParseHead(PrintHead(status, hs) + rest)
         == HeadAt(StatusLine(status).value.0, StatusLine(status).value.1,
                   EmplaceAll(map[], hs), |PrintHead(status, hs)| - 2)
  {
    hide StatusLine, HeaderLines, EmplaceAll;
    var b, pre := PrintHead(status, hs) + rest, status + CRLF;
    assert b == [] + status + CRLF + (PrintHeaders(hs) + CRLF + rest);
    LineFound([], status, PrintHeaders(hs) + CRLF + rest);
    assert b[..|status|] == status;
    assert b == pre + PrintHeaders(hs) + CRLF + rest;
    HeaderLinesRead(pre, hs, rest, map[]);
  }

  function PrintStatus(minor: char, code: nat, reason: string): string {
    "HTTP/1." + [minor] + " " + Numeral(code, 10) + " " + reason
  }

  lemma StatusRoundTrip(minor: char, code: nat, reason: string)
    requires minor == '0' || minor == '1'
    requires code < INT_LIMIT
    ensures StatusLine(PrintStatus(minor, code, reason))
         == Some((if minor == '0' then Http10 else Http11, code))
  {
    hide Magnitude, Stoi;
    var ver, num := "HTTP/1." + [minor], Numeral(code, 10);
    var rest := num + [' '] + reason;
    assert PrintStatus(minor, code, reason) == ver + [' '] + rest;
    FieldRead(ver, rest);
    assert ' ' !in num by {
      forall i | 0 <= i < |num| ensures num[i] != ' ' { assert !IsSpace(num[i]); }
    }
    FieldRead(num, reason);
    StoiReadsNumeral(code);
    assert "HTTP/1." <= ver;
  }

  lemma FieldRead(s: string, rest: string)
    requires ' ' !in s
    ensures Field(s + [' '] + rest) == (s, rest)
  {
    FindAfter(s, ' ', rest);
    assert (s + [' '] + rest)[..|s|] == s && (s + [' '] + rest)[|s| + 1..] == rest;
  }

  /** The two versions are known by their exact names. */
  lemma VersionMeans(ver: string)
    ensures VersionFromString(ver) == Http10 <==> ver == "HTTP/1.0"
    ensures VersionFromString(ver) == Http11 <==> ver == "HTTP/1.1"
  {
    if "HTTP/1." <= ver && |ver| == 8 {
      assert ver == "HTTP/1." + [ver[7]];
    }
  }

  /** A status line without a space is taken whole, as version and as number. */
  lemma NoSpaceInStatus(line: string)
    requires ' ' !in line
    ensures StatusLine(line) == match Stoi(line)
      case None => None
      case Some(n) => Some((VersionFromString(line), n))
  {
    hide Stoi, VersionFromString;
  }

  // ---------- what throws ----------

  lemma BadStatusThrows(status: string, rest: string)
    requires NoCRLF(status) && StatusLine(status) == None
    ensures Parse(status + CRLF + rest) == Failed(Thrown) && Remaining(status + CRLF + rest) == status + CRLF + rest
  {
    hide StatusLine, HeaderLines, Chunks;
    LineFound([], status, rest);
    assert [] + status + CRLF + rest == status + CRLF + rest && (status + CRLF + rest)[..|status|] == status;
  }

  lemma BadLengthThrows(status: string, hs: seq<Header>, rest: string)
    requires NoCRLF(status) && StatusLine(status).Some? && forall h :: h in hs ==> h.Ok()
    requires var headers := EmplaceAll(map[], hs);
      !IsChunked(headers) && "Content-Length" in headers && Stoul(headers["Content-Length"], 10) == None
    ensures var b := PrintHead(status, hs) + rest; Parse(b) == Failed(Thrown) && Remaining(b) == b
  {
    HeadRoundTrip(status, hs, rest);
    hide StatusLine, ParseHead, PrintHead, EmplaceAll, Stoul, Chunks, NoCRLF, Header.Ok, IsChunked;
  }

  /** A size line that is not a number throws as soon as the line after it is there. */
  lemma BadSizeThrows(status: string, hs: seq<Header>, size: string, line: string, rest: string)
    requires NoCRLF(status) && StatusLine(status).Some? && forall h :: h in hs ==> h.Ok()
    requires IsChunked(EmplaceAll(map[], hs)) && NoCRLF(size) && NoCRLF(line) && Stoul(size, 16) == None
    ensures var b := PrintHead(status, hs) + (size + CRLF + line + CRLF + rest);
      Parse(b) == Failed(Thrown) && Remaining(b) == b
  {
    hide StatusLine, ParseHead, PrintHead, EmplaceAll, Stoul, Chunks, NoCRLF, Header.Ok, IsChunked, FindCRLF, IsCRLF;
    var head, tail := PrintHead(status, hs), size + CRLF + line + CRLF + rest;
    var b := head + tail;
    HeadRoundTrip(status, hs, tail);
    assert b == head + size + CRLF + (line + CRLF + rest) == (head + size + CRLF) + line + CRLF + rest;
    LineFound(head, size, line + CRLF + rest);
    LineFound(head + size + CRLF, line, rest);
    assert b[|head|..|head| + |size|] == size;
    assert SizeLine(b, |head| - 2) == Failure(Thrown);
    ChunksEnd(b, |head| - 2, []);
  }

  // ---------- a body of declared length ----------

  function ReplyTo(status: string, hs: seq<Header>, body: string): Reply
    requires StatusLine(status).Some?
  {
    Reply(StatusLine(status).value.0, StatusLine(status).value.1, EmplaceAll(map[], hs), body)
  }

  /** Headers under which the parser reads `len` bytes after the empty line. */
  predicate Declares(headers: HeaderMap, len: nat) {
    !IsChunked(headers) && "Content-Length" in headers && Stoul(headers["Content-Length"], 10) == Some(len)
  }

  /** The body is returned, unless the message is longer than `size_t` can count. */
  lemma ContentLengthRoundTrip(status: string, hs: seq<Header>, body: string, rest: string)
    requires NoCRLF(status) && StatusLine(status).Some? && forall h :: h in hs ==> h.Ok()
    requires Declares(EmplaceAll(map[], hs), |body|)
    ensures Parse(PrintHead(status, hs) + body + rest)
         == if |PrintHead(status, hs)| + |body| < SIZE_LIMIT
            then Parsed(ReplyTo(status, hs, body), |PrintHead(status, hs)| + |body|)
            else Failed(TooLong)
  {
    hide StatusLine, ParseHead, PrintHead, EmplaceAll, Stoul, Chunks, NoCRLF, Header.Ok;
    var head := PrintHead(status, hs);
    HeadRoundTrip(status, hs, body + rest);
    Middle(head, body, rest);
  }

  /** What follows the body stays in the buffer. */
  lemma ContentLengthLeaves(status: string, hs: seq<Header>, body: string, rest: string)
    requires NoCRLF(status) && StatusLine(status).Some? && forall h :: h in hs ==> h.Ok()
    requires Declares(EmplaceAll(map[], hs), |body|) && |PrintHead(status, hs)| + |body| < SIZE_LIMIT
    ensures Remaining(PrintHead(status, hs) + body + rest) == rest
  {
    ContentLengthRoundTrip(status, hs, body, rest);
    hide Parse, PrintHead, StatusLine, EmplaceAll, Declares;
    assert (PrintHead(status, hs) + body + rest)[|PrintHead(status, hs)| + |body|..] == rest;
  }

  /** With a length that wraps the head is gone, and what followed it stays. */
  lemma WrappedLengthLeaves(status: string, hs: seq<Header>, len: nat, rest: string)
    requires NoCRLF(status) && StatusLine(status).Some? && forall h :: h in hs ==> h.Ok()
    requires Declares(EmplaceAll(map[], hs), len) && |PrintHead(status, hs)| + len >= SIZE_LIMIT
    ensures Parse(PrintHead(status, hs) + rest) == Failed(TooLong)
    ensures Remaining(PrintHead(status, hs) + rest) == rest
  {
    HeadRoundTrip(status, hs, rest);
    hide StatusLine, ParseHead, PrintHead, EmplaceAll, Stoul, Chunks, NoCRLF, Header.Ok;
    assert (PrintHead(status, hs) + rest)[|PrintHead(status, hs)|..] == rest;
  }

  /** Without a body coding there is no reply, and the buffer is left alone. */
  lemma NoCodingFails(status: string, hs: seq<Header>, rest: string)
    requires NoCRLF(status) && StatusLine(status).Some? && forall h :: h in hs ==> h.Ok()
    requires !IsChunked(EmplaceAll(map[], hs)) && forall h :: h in hs ==> h.name != "Content-Length"
    ensures Parse(PrintHead(status, hs) + rest) == Failed(Body)
    ensures Remaining(PrintHead(status, hs) + rest) == PrintHead(status, hs) + rest
  {
    HeadRoundTrip(status, hs, rest);
    HeadersMean(hs, "Content-Length");
    hide StatusLine, ParseHead, PrintHead, EmplaceAll, Stoul, Chunks, NoCRLF, Header.Ok, IsChunked;
  }

  lemma Middle(a: string, b: string, c: string)
    ensures a + b + c == a + (b + c) && (a + b + c)[|a|..|a| + |b|] == b
  {
  }

  /** With any proper prefix of the body the parser waits, given that the length
      announced does not wrap. */
  lemma ContentLengthWaits(status: string, hs: seq<Header>, part: string, len: nat)
    requires NoCRLF(status) && StatusLine(status).Some? && forall h :: h in hs ==> h.Ok()
    requires Declares(EmplaceAll(map[], hs), len)
    ensures Parse(PrintHead(status, hs) + part) == Failed(WaitForData)
      <==> |part| < len && |PrintHead(status, hs)| + len < SIZE_LIMIT
  {
    HeadRoundTrip(status, hs, part);
  }

  // ---------- the chunked coding ----------

  /** A chunk as sent: any size line that `stoul` reads as the length of the data. */
  datatype Piece = Piece(size: string, data: string) {
    ghost predicate Ok() {
      NoCRLF(size) && Stoul(size, 16) == Some(|data|) && data != []
    }

    function Print(): string { size + CRLF + data + CRLF }
  }

  function PrintPieces(ps: seq<Piece>): string {
    if ps == [] then [] else ps[0].Print() + PrintPieces(ps[1..])
  }

  function Payload(ps: seq<Piece>): string {
    if ps == [] then [] else ps[0].data + Payload(ps[1..])
  }

  ghost predicate AllPlain(ps: seq<Piece>) {
    forall p :: p in ps ==> p.Ok() && NoCRLF(p.data)
  }

  /** A size line and the CRLF-free line after it, written at the end of `pre`. */
  lemma SizeLineRead(pre: string, size: string, line: string, rest: string)
    requires |pre| >= 2 && NoCRLF(size) && NoCRLF(line) && Stoul(size, 16).Some?
    ensures SizeLine(pre + size + CRLF + line + CRLF + rest, |pre| - 2)
         == Size(Stoul(size, 16).value, |pre| + |size| + 2, |pre| + |size| + 2 + |line|)
  {
    hide Stoul, IsCRLF, FindCRLF, NoCRLF;
    var b := pre + size + CRLF + line + CRLF + rest;
    assert b == pre + size + CRLF + (line + CRLF + rest);
    LineFound(pre, size, line + CRLF + rest);
    LineFound(pre + size + CRLF, line, rest);
    assert b[|pre|..|pre| + |size|] == size;
  }

  lemma ChunkRead(pre: string, p: Piece, rest: string, body: string)
    requires |pre| >= 2 && p.Ok() && NoCRLF(p.data) && |pre + p.Print()| < SIZE_LIMIT
    ensures Chunks(pre + p.Print() + rest, |pre| - 2, body)
         == Chunks(pre + p.Print() + rest, |pre + p.Print()| - 2, body + p.data)
  {
    hide Stoul, SizeLine, NoCRLF, Chunks;
    var b, at := pre + p.Print() + rest, |pre| + |p.size| + 2;
    SizeLineRead(pre, p.size, p.data, rest);
    PieceText(pre, p, rest);
    ChunksGoOn(b, |pre| - 2, body, |p.data|, at, at + |p.data|);
  }

  lemma PieceText(pre: string, p: Piece, rest: string)
    ensures var b, at := pre + p.Print() + rest, |pre| + |p.size| + 2;
      b == pre + p.size + CRLF + p.data + CRLF + rest && b[at..at + |p.data|] == p.data
  {
  }

  lemma {:induction false} PiecesRead(pre: string, ps: seq<Piece>, rest: string, body: string)
    requires |pre| >= 2 && AllPlain(ps) && |pre + PrintPieces(ps)| < SIZE_LIMIT
    ensures Chunks(pre + PrintPieces(ps) + rest, |pre| - 2, body)
         == Chunks(pre + PrintPieces(ps) + rest, |pre + PrintPieces(ps)| - 2, body + Payload(ps))
    decreases |ps|
  {
    hide Chunks, Piece.Print, Piece.Ok, NoCRLF, Stoul;
    if ps == [] {
      assert pre + [] == pre && body + [] == body;
    } else {
      var p, tail, data := ps[0], PrintPieces(ps[1..]), Payload(ps[1..]);
      assert p in ps && PrintPieces(ps) == p.Print() + tail && Payload(ps) == p.data + data;
      hide PrintPieces, Payload;
      Regroup(pre, p.Print(), tail);
      Regroup(pre + p.Print(), tail, rest);
      Regroup(body, p.data, data);
      ChunkRead(pre, p, tail + rest, body);
      PiecesRead(pre + p.Print(), ps[1..], rest, body + p.data);
    }
  }

  /** The last chunk: a size line that reads as zero, and an empty line. Success
      takes one more line end, somewhere in the bytes that follow. */
  lemma LastChunkRead(pre: string, zero: string, rest: string, body: string)
    requires |pre| >= 2 && NoCRLF(zero) && Stoul(zero, 16) == Some(0)
    ensures Chunks(pre + zero + CRLF + CRLF + rest, |pre| - 2, body)
         == if FindCRLF(rest, 0).Some? then BodyDone(body, |pre| + |zero| + 4) else BodyFailed(WaitForData)
  {
    hide Stoul, SizeLine;
    var b := pre + zero + CRLF + CRLF + rest;
    assert b == pre + zero + CRLF + [] + CRLF + rest;
    SizeLineRead(pre, zero, [], rest);
    FindCRLFShifted(pre + zero + CRLF + CRLF, rest);
  }

  lemma FindCRLFShifted(pre: string, rest: string)
    ensures FindCRLF(pre + rest, |pre|).Some? <==> FindCRLF(rest, 0).Some?
  {
    var b := pre + rest;
    assert forall i :: 0 <= i < |rest| ==> b[|pre| + i] == rest[i];
    assert forall i :: 0 <= i < |rest| ==> (IsCRLF(b, |pre| + i) <==> IsCRLF(rest, i));
    if FindCRLF(b, |pre|).Some? {
      assert IsCRLF(rest, FindCRLF(b, |pre|).value - |pre|);
    }
  }

  function PrintChunked(status: string, hs: seq<Header>, ps: seq<Piece>, zero: string): string {
    PrintHead(status, hs) + PrintPieces(ps) + zero + CRLF + CRLF
  }

  ghost predicate ChunkedMessage(status: string, hs: seq<Header>, zero: string) {
    && NoCRLF(status) && StatusLine(status).Some? && (forall h :: h in hs ==> h.Ok())
    && IsChunked(EmplaceAll(map[], hs)) && NoCRLF(zero) && Stoul(zero, 16) == Some(0)
  }

  /** A chunked message whose chunks hold no line end is read back, its bytes are
      consumed and those that follow stay; but the parser waits until a line end
      has followed the message. */
  lemma ChunkedRoundTrip(status: string, hs: seq<Header>, ps: seq<Piece>, zero: string, rest: string)
    requires ChunkedMessage(status, hs, zero) && AllPlain(ps) && |PrintChunked(status, hs, ps, zero)| < SIZE_LIMIT
    ensures Parse(PrintChunked(status, hs, ps, zero) + rest)
         == if FindCRLF(rest, 0).Some?
            then Parsed(ReplyTo(status, hs, Payload(ps)), |PrintChunked(status, hs, ps, zero)|)
            else Failed(WaitForData)
  {
    hide StatusLine, ParseHead, EmplaceAll, Chunks, Stoul, PrintHead, PrintPieces, Payload, NoCRLF, Header.Ok,
      IsChunked, FindCRLF, AllPlain, Parse;
    var head, pieces, end := PrintHead(status, hs), PrintPieces(ps), zero + CRLF + CRLF + rest;
    ChunkedText(head, pieces, zero, rest);
    HeadRoundTrip(status, hs, pieces + end);
    PiecesRead(head, ps, end, []);
    assert [] + Payload(ps) == Payload(ps);
    LastChunkRead(head + pieces, zero, rest, Payload(ps));
    ParseChunks(head + (pieces + end));
  }

  /** What follows a chunked message stays in the buffer, and so does everything
      while the parser waits. */
  lemma ChunkedLeaves(status: string, hs: seq<Header>, ps: seq<Piece>, zero: string, rest: string)
    requires ChunkedMessage(status, hs, zero) && AllPlain(ps) && |PrintChunked(status, hs, ps, zero)| < SIZE_LIMIT
    ensures var msg := PrintChunked(status, hs, ps, zero);
      Remaining(msg + rest) == if FindCRLF(rest, 0).Some? then rest else msg + rest
  {
    ChunkedRoundTrip(status, hs, ps, zero, rest);
    UntouchedWaiting(PrintChunked(status, hs, ps, zero) + rest);
    hide Parse, PrintChunked, StatusLine, EmplaceAll, FindCRLF, ChunkedMessage;
    var msg := PrintChunked(status, hs, ps, zero);
    assert (msg + rest)[|msg|..] == rest;
  }

  lemma UntouchedWaiting(b: string)
    ensures Parse(b) == Failed(WaitForData) ==> Remaining(b) == b
  {
    hide ParseHead, Chunks, Stoul;
  }

  lemma ChunkedText(head: string, pieces: string, zero: string, rest: string)
    ensures var b := head + pieces + zero + CRLF + CRLF + rest;
      b == head + (pieces + (zero + CRLF + CRLF + rest)) == head + pieces + (zero + CRLF + CRLF + rest)
  {
    var end := zero + CRLF + CRLF + rest;
    assert head + pieces + zero + CRLF + CRLF + rest == head + pieces + end;
  }

  /** With a complete head that announces chunks the outcome is the chunk loop's. */
  lemma ParseChunks(b: string)
    requires ParseHead(b).HeadAt? && IsChunked(ParseHead(b).headers)
    ensures var h := ParseHead(b); Parse(b) == match Chunks(b, h.end, [])
      case BodyFailed(code) => Failed(code)
      case BodyDone(body, n) => Parsed(Reply(h.version, h.status, h.headers, body), n)
  {
    hide ParseHead, Chunks, IsChunked;
  }

  /** The sizes a sender prints in hexadecimal are read as meant. */
  lemma HexSizes(data: string)
    requires |data| < ULONG_LIMIT
    ensures NoCRLF(Numeral(|data|, 16)) && Stoul(Numeral(|data|, 16), 16) == Some(|data|)
  {
    StoulReadsNumeral(|data|, 16);
    var s := Numeral(|data|, 16);
    assert forall i :: 0 <= i < |s| ==> !IsSpace(s[i]);
  }

  // ---------- chunks that contain a line end ----------

  /** Each further non-empty chunk makes the body longer. */
  lemma DoneAtOnceOrLonger(b: string, crlf: nat, body: string)
    requires crlf + 2 <= |b| && Chunks(b, crlf, body).BodyDone?
    ensures var r, size := Chunks(b, crlf, body), SizeLine(b, crlf);
      |r.body| > |body| || (size.Size? && r.consumed == size.next + 2)
  {
    hide SizeLine;
  }

  lemma LineEndBound(b: string, start: nat, end: nat)
    requires start <= end && IsCRLF(b, end)
    ensures FindCRLF(b, start).Some? && FindCRLF(b, start).value <= end
  {
  }

  /** With two more line ends to come, a body that is complete now ends there. */
  lemma FinishesEarly(b: string, next: nat, body: string, e1: nat, e2: nat)
    requires next + 2 <= e1 && e1 + 2 <= e2 && IsCRLF(b, e1) && IsCRLF(b, e2)
    ensures var r := Chunks(b, next, body); r.BodyDone? && r.body == body ==> r.consumed <= e2 + 2
  {
    hide Stoul;
    if Chunks(b, next, body).BodyDone? {
      DoneAtOnceOrLonger(b, next, body);
      LineEndBound(b, next + 2, e1);
      LineEndBound(b, FindCRLF(b, next + 2).value + 2, e2);
    }
  }

  /** After a chunk with a line end inside, the loop restarts inside the chunk and
      can only finish early or with a longer body. */
  lemma TornChunk(pre: string, p: Piece, zero: string, rest: string, body: string)
    requires |pre| >= 2 && p.Ok() && !NoCRLF(p.data)
    ensures Chunks(pre + p.Print() + zero + CRLF + CRLF + rest, |pre| - 2, body)
         != BodyDone(body + p.data, |pre + p.Print()| + |zero| + 4)
  {
    hide Stoul, SizeLine, NoCRLF, IsCRLF, FindCRLF;
    var b, tail := pre + p.Print() + zero + CRLF + CRLF + rest, CRLF + zero + CRLF + CRLF + rest;
    AroundChunk(pre, p, zero, rest);
    TornSizeLine(pre, p, tail);
    var at := |pre| + |p.size| + 2;
    LineEndsAfter(pre + p.size + CRLF + p.data, zero, rest);
    FinishesEarly(b, SizeLine(b, |pre| - 2).next, body + p.data, at + |p.data|, at + |p.data| + 2 + |zero|);
  }

  /** Two more ways to see the text around a chunk. */
  lemma AroundChunk(pre: string, p: Piece, zero: string, rest: string)
    ensures var b, tail := pre + p.Print() + zero + CRLF + CRLF + rest, CRLF + zero + CRLF + CRLF + rest;
      var at := |pre| + |p.size| + 2;
      && b == pre + p.size + CRLF + (p.data + tail) == (pre + p.size + CRLF + p.data) + tail
      && b[at..at + |p.data|] == p.data
  {
    var b, tail := pre + p.Print() + zero + CRLF + CRLF + rest, CRLF + zero + CRLF + CRLF + rest;
    assert b == pre + p.size + CRLF + (p.data + tail);
    assert b == (pre + p.size + CRLF + p.data) + tail;
  }

  /** Where the loop goes on after a chunk with a line end inside: the bytes of the
      chunk are taken whole, and the next size line is the line that follows the
      first line end in them. */
  lemma TornGoesOn(pre: string, p: Piece, first: string, second: string, rest: string, body: string)
    requires |pre| >= 2 && p.Ok() && NoCRLF(first) && p.data == first + CRLF + second
    requires |pre + p.Print()| < SIZE_LIMIT
    ensures Chunks(pre + p.Print() + rest, |pre| - 2, body)
         == Chunks(pre + p.Print() + rest, |pre| + |p.size| + 2 + |first|, body + p.data)
  {
    hide Stoul, SizeLine, NoCRLF, Chunks;
    var b, at := pre + p.Print() + rest, |pre| + |p.size| + 2;
    assert b == pre + p.size + CRLF + first + CRLF + (second + CRLF + rest);
    SizeLineRead(pre, p.size, first, second + CRLF + rest);
    PieceText(pre, p, rest);
    ChunksGoOn(b, |pre| - 2, body, |p.data|, at, at + |first|);
  }

  lemma LineEndsAfter(pre: string, zero: string, rest: string)
    ensures var b := pre + (CRLF + zero + CRLF + CRLF + rest);
      IsCRLF(b, |pre|) && IsCRLF(b, |pre| + 2 + |zero|)
  {
  }

  lemma TornSizeLine(pre: string, p: Piece, tail: string)
    requires |pre| >= 2 && p.Ok() && !NoCRLF(p.data)
    ensures var size := SizeLine(pre + p.size + CRLF + (p.data + tail), |pre| - 2);
      size.Size? && size.len == |p.data| && size.data == |pre| + |p.size| + 2 && size.next + 2 <= size.data + |p.data|
  {
    hide Stoul, FindCRLF;
    var b, at := pre + p.size + CRLF + (p.data + tail), |pre| + |p.size| + 2;
    var i :| 0 <= i < |p.data| && IsCRLF(p.data, i);
    LineEndInside(pre + p.size + CRLF, p.data, tail, i);
    hide IsCRLF, NoCRLF;
    LineFound(pre, p.size, p.data + tail);
    assert b[|pre|..|pre| + |p.size|] == p.size;
    LineEndBound(b, at, at + i);
  }

  lemma LineEndInside(pre: string, data: string, tail: string, i: nat)
    requires IsCRLF(data, i)
    ensures IsCRLF(pre + (data + tail), |pre| + i)
  {
    var b := pre + (data + tail);
    assert b[|pre| + i] == data[i] && b[|pre| + i + 1] == data[i + 1];
  }

  /** Exactly when the last chunk comes through: given that the chunks before it
      hold no line end and a line end follows the message, the reply is the
      payload and the message is consumed if and only if the last chunk holds no
      line end either. */
  lemma ChunkedExactly(status: string, hs: seq<Header>, ps: seq<Piece>, p: Piece, zero: string, rest: string)
    requires ChunkedMessage(status, hs, zero) && AllPlain(ps) && p.Ok() && FindCRLF(rest, 0).Some?
    requires |PrintChunked(status, hs, ps + [p], zero)| < SIZE_LIMIT
    ensures Parse(PrintChunked(status, hs, ps + [p], zero) + rest)
         == Parsed(ReplyTo(status, hs, Payload(ps) + p.data), |PrintChunked(status, hs, ps + [p], zero)|)
       <==> NoCRLF(p.data)
  {
    hide StatusLine, EmplaceAll, Stoul, PrintChunked, Parse, NoCRLF, Header.Ok, IsChunked, Payload;
    if NoCRLF(p.data) {
      AppendPiece(ps, p);
      ChunkedRoundTrip(status, hs, ps + [p], zero, rest);
    } else {
      ChunkedTorn(status, hs, ps, p, zero, rest);
    }
  }

  const EXAMPLE_STATUS := "HTTP/1.1" + [' '] + "0"
  const EXAMPLE_HEADER := Header("Transfer-Encoding", "chunked")
  const EXAMPLE_PIECE := Piece("2", "\r\n")

  /** A chunk that is a line end and nothing else does not come through. */
  lemma TornExample()
    ensures ChunkedMessage(EXAMPLE_STATUS, [EXAMPLE_HEADER], "0")
    ensures !Delivered(EXAMPLE_STATUS, [EXAMPLE_HEADER], [EXAMPLE_PIECE], "0", CRLF)
  {
    hide *;
    ExampleMessage();
    ExampleShort();
    ExamplePiece();
    assert [] + [EXAMPLE_PIECE] == [EXAMPLE_PIECE];
    OneMoreDelivered(EXAMPLE_STATUS, [EXAMPLE_HEADER], [], EXAMPLE_PIECE, "0", CRLF);
  }

  lemma ExamplePiece()
    ensures EXAMPLE_PIECE.Ok() && !NoCRLF(EXAMPLE_PIECE.data) && AllPlain([]) && FindCRLF(CRLF, 0).Some?
  {
    ExampleSizes();
    hide Stoul;
    var p := EXAMPLE_PIECE;
    assert IsCRLF(p.data, 0) && IsCRLF(CRLF, 0);
  }

  lemma ExampleMessage()
    ensures ChunkedMessage(EXAMPLE_STATUS, [EXAMPLE_HEADER], "0")
  {
    ExampleStatus();
    ExampleHeader();
    ExampleSizes();
    hide StatusLine, Stoul, EmplaceAll, IsChunked, NoCRLF, Header.Ok;
  }

  lemma ExampleStatus()
    ensures NoCRLF(EXAMPLE_STATUS) && StatusLine(EXAMPLE_STATUS).Some?
  {
    FieldRead("HTTP/1.1", "0");
    StoiReadsNumeral(0);
    hide Magnitude, Stoi, VersionFromString;
    assert Field("0").0 == "0" == Numeral(0, 10);
  }

  lemma ExampleShort()
    ensures |PrintChunked(EXAMPLE_STATUS, [EXAMPLE_HEADER], [] + [EXAMPLE_PIECE], "0")| < SIZE_LIMIT
  {
    var h, p := EXAMPLE_HEADER, EXAMPLE_PIECE;
    assert [] + [p] == [p];
    OnePiece(p);
    OneHeader(h);
    hide PrintPieces, PrintHeaders;
    assert |PrintHead(EXAMPLE_STATUS, [h])| < 100 && |p.Print()| < 100;
  }

  lemma OnePiece(p: Piece)
    ensures PrintPieces([p]) == p.Print()
  {
    assert [p][1..] == [];
    assert PrintPieces([p][1..]) == [];
  }

  lemma OneHeader(h: Header)
    ensures PrintHeaders([h]) == h.Line() + CRLF
  {
    assert [h][1..] == [];
    assert PrintHeaders([h][1..]) == [];
  }

  lemma ExampleHeader()
    ensures EXAMPLE_HEADER.Ok() && IsChunked(EmplaceAll(map[], [EXAMPLE_HEADER]))
  {
    var h := EXAMPLE_HEADER;
    assert forall i :: 0 <= i < |h.Line()| ==> h.Line()[i] != '\r';
    assert [h][1..] == [];
    var e := Emplace(map[], h);
    assert EmplaceAll(e, []) == e;
    assert e == map["Transfer-Encoding" := "chunked"];
  }

  lemma ExampleSizes()
    ensures Stoul("0", 16) == Some(0) && Stoul("2", 16) == Some(2) && NoCRLF("0") && NoCRLF("2")
  {
    StoulReadsNumeral(0, 16);
    StoulReadsNumeral(2, 16);
  }

  lemma ChunkedTorn(status: string, hs: seq<Header>, ps: seq<Piece>, p: Piece, zero: string, rest: string)
    requires ChunkedMessage(status, hs, zero) && AllPlain(ps) && p.Ok() && !NoCRLF(p.data)
    requires |PrintChunked(status, hs, ps + [p], zero)| < SIZE_LIMIT
    ensures Parse(PrintChunked(status, hs, ps + [p], zero) + rest)
         != Parsed(ReplyTo(status, hs, Payload(ps) + p.data), |PrintChunked(status, hs, ps + [p], zero)|)
  {
    hide StatusLine, ParseHead, EmplaceAll, Chunks, Stoul, PrintHead, PrintPieces, Payload, NoCRLF, Header.Ok,
      IsChunked, AllPlain, Piece.Ok, Piece.Print, Parse;
    AppendPiece(ps, p);
    var head, pieces, chunk, tail := PrintHead(status, hs), PrintPieces(ps), p.Print(), zero + CRLF + CRLF + rest;
    TornText(head, pieces, chunk, zero, rest);
    HeadRoundTrip(status, hs, pieces + (chunk + tail));
    PiecesRead(head, ps, chunk + tail, []);
    assert [] + Payload(ps) == Payload(ps);
    TornChunk(head + pieces, p, zero, rest, Payload(ps));
    ParseChunks(head + (pieces + (chunk + tail)));
  }

  lemma TornText(head: string, pieces: string, chunk: string, zero: string, rest: string)
    ensures var b, tail := head + (pieces + chunk) + zero + CRLF + CRLF + rest, zero + CRLF + CRLF + rest;
      b == head + (pieces + (chunk + tail)) == head + pieces + (chunk + tail)
        == head + pieces + chunk + zero + CRLF + CRLF + rest
  {
    var tail := zero + CRLF + CRLF + rest;
    assert head + (pieces + chunk) + zero + CRLF + CRLF + rest == head + (pieces + chunk) + tail;
    assert head + (pieces + chunk) + tail == head + pieces + (chunk + tail);
  }

  /** A message of these chunks, followed by `rest`, comes through. */
  ghost predicate Delivered(status: string, hs: seq<Header>, ps: seq<Piece>, zero: string, rest: string)
    requires StatusLine(status).Some?
  {
    Parse(PrintChunked(status, hs, ps, zero) + rest)
      == Parsed(ReplyTo(status, hs, Payload(ps)), |PrintChunked(status, hs, ps, zero)|)
  }

  /** A sender's messages come through however far it gets in its list of chunks
      if and only if no chunk holds a line end. */
  lemma {:induction false} StreamExactly(status: string, hs: seq<Header>, ps: seq<Piece>, zero: string, rest: string)
    requires ChunkedMessage(status, hs, zero) && FindCRLF(rest, 0).Some? && forall p :: p in ps ==> p.Ok()
    requires |PrintChunked(status, hs, ps, zero)| < SIZE_LIMIT
    ensures (forall k :: 0 <= k <= |ps| ==> Delivered(status, hs, ps[..k], zero, rest))
       <==> forall p :: p in ps ==> NoCRLF(p.data)
    decreases |ps|
  {
    hide StatusLine, EmplaceAll, IsChunked, Stoul, NoCRLF, FindCRLF, Payload, Piece.Ok, Delivered, Header.Ok;
    if ps == [] {
      NoneDelivered(status, hs, zero, rest);
      assert ps[..0] == [];
    } else {
      var init, p := ps[..|ps| - 1], ps[|ps| - 1];
      assert ps == init + [p];
      ShorterPrint(status, hs, init, p, zero);
      StreamExactly(status, hs, init, zero, rest);
      assert forall k :: 0 <= k < |ps| ==> init[..k] == ps[..k];
      assert ps[..|ps|] == init + [p];
      if forall q :: q in init ==> NoCRLF(q.data) {
        assert AllPlain(init);
        OneMoreDelivered(status, hs, init, p, zero, rest);
      }
    }
  }

  lemma ShorterPrint(status: string, hs: seq<Header>, ps: seq<Piece>, p: Piece, zero: string)
    ensures |PrintChunked(status, hs, ps + [p], zero)| == |PrintChunked(status, hs, ps, zero)| + |p.Print()|
  {
    hide PrintHead, PrintPieces, Piece.Print;
    AppendPiece(ps, p);
  }

  lemma NoneDelivered(status: string, hs: seq<Header>, zero: string, rest: string)
    requires ChunkedMessage(status, hs, zero) && FindCRLF(rest, 0).Some?
      && |PrintChunked(status, hs, [], zero)| < SIZE_LIMIT
    ensures Delivered(status, hs, [], zero, rest)
  {
    hide StatusLine, EmplaceAll, IsChunked, Stoul, NoCRLF, FindCRLF, Payload, Header.Ok, Parse, PrintChunked;
    ChunkedRoundTrip(status, hs, [], zero, rest);
  }

  lemma OneMoreDelivered(status: string, hs: seq<Header>, ps: seq<Piece>, p: Piece, zero: string, rest: string)
    requires ChunkedMessage(status, hs, zero) && AllPlain(ps) && p.Ok() && FindCRLF(rest, 0).Some?
    requires |PrintChunked(status, hs, ps + [p], zero)| < SIZE_LIMIT
    ensures Delivered(status, hs, ps + [p], zero, rest) <==> NoCRLF(p.data)
  {
    hide StatusLine, EmplaceAll, IsChunked, Stoul, NoCRLF, FindCRLF, Payload, Header.Ok, Parse, PrintChunked;
    ChunkedExactly(status, hs, ps, p, zero, rest);
    AppendPiece(ps, p);
  }

  lemma AppendPiece(ps: seq<Piece>, p: Piece)
    ensures PrintPieces(ps + [p]) == PrintPieces(ps) + p.Print()
    ensures Payload(ps + [p]) == Payload(ps) + p.data
  {
    PrintAppend(ps, p);
    PayloadAppend(ps, p);
  }

  lemma {:induction false} PrintAppend(ps: seq<Piece>, p: Piece)
    ensures PrintPieces(ps + [p]) == PrintPieces(ps) + p.Print()
    decreases |ps|
  {
    hide Piece.Print;
    if ps == [] {
      assert ps + [p] == [p] && [p][1..] == [];
      assert PrintPieces([p]) == p.Print() + [];
    } else {
      PrintAppend(ps[1..], p);
      assert (ps + [p])[1..] == ps[1..] + [p] && (ps + [p])[0] == ps[0];
      Regroup(ps[0].Print(), PrintPieces(ps[1..]), p.Print());
    }
  }

  lemma {:induction false} PayloadAppend(ps: seq<Piece>, p: Piece)
    ensures Payload(ps + [p]) == Payload(ps) + p.data
    decreases |ps|
  {
    if ps == [] {
      assert ps + [p] == [p] && [p][1..] == [];
      assert Payload([p]) == p.data + [];
    } else {
      PayloadAppend(ps[1..], p);
      assert (ps + [p])[1..] == ps[1..] + [p] && (ps + [p])[0] == ps[0];
      Regroup(ps[0].data, Payload(ps[1..]), p.data);
    }
  }

  lemma Regroup(a: string, b: string, c: string)
    ensures a + (b + c) == (a + b) + c
  {
  }
}
