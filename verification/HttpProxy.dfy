/** The HTTP proxy front end (crates/keli-net-core/src/http_proxy.rs): absolute form in, origin form out. */
module HttpProxy {
  import opened Wrappers
  import opened Bytes
  import opened Text
  import opened Net
  import opened HttpHeader

  datatype ProxyError =
    | IoError
    | TooLarge
    | InvalidUtf8
    | MissingRequestLine
    | InvalidRequestLine
    | UnsupportedScheme(scheme: bytes)
    | MissingHost
    | EmptyHost
    | InvalidPort(text: bytes)

  datatype ProxyRequest = ProxyRequest(
    verb: bytes, host: bytes, port: u16, pathAndQuery: bytes, version: bytes, rewritten: bytes)

  datatype Authority = Authority(host: bytes, port: u16)

  const HTTP_SCHEME: bytes := [104, 116, 116, 112, 58, 47, 47]
  const SEPARATOR: bytes := [58, 47, 47]
  const HOST: bytes := [104, 111, 115, 116]

  // ---------------------------------------------------------------------
  // Ports and hosts
  // ---------------------------------------------------------------------

  function Decimal(digits: bytes): Option<nat> {
    if digits == [] then Some(0)
    else
      var front, last := Decimal(digits[..|digits| - 1]), digits[|digits| - 1];
      if front.None? || last < 48 || last > 57 then None else Some(front.value * 10 + (last - 48))
  }

  /** `str::parse::<u16>`: an optional plus sign, at least one digit, at most 65535. */
  function ParseU16(s: bytes): Option<u16> {
    var digits := if s != [] && s[0] == 43 then s[1..] else s;
    var value := Decimal(digits);
    if digits == [] || value.None? || value.value > 65535 then None else Some(value.value)
  }

  /** `parse_port`. */
  function ParsePort(s: bytes, default_: u16): Result<u16, ProxyError> {
    if s == [] then Ok(default_)
    else match ParseU16(s)
      case None => Err(InvalidPort(s))
      case Some(port) => Ok(port)
  }

  /** The index of the last octet `b`. */
  function LastIndexOf(s: bytes, b: byte): (i: Option<nat>)
    ensures i.Some? ==> i.value < |s| && s[i.value] == b
  {
    if s == [] then None
    else if s[|s| - 1] == b then Some(|s| - 1)
    else LastIndexOf(s[..|s| - 1], b)
  }

  /** The host text and port of an authority, before the check for an empty host. */
  function SplitHostPort(value: bytes, default_: u16): Result<Authority, ProxyError>
    requires value != []
  {
    if value[0] == 91 then
      var rest := value[1..];
      var close := IndexOf(rest, 93);
      if close == |rest| then Err(MissingHost)
      else
        var tail := rest[close + 1..];
        var port := if tail != [] && tail[0] == 58 then tail[1..] else [];
        match ParsePort(port, default_)
        case Err(e) => Err(e)
        case Ok(p) => Ok(Authority(rest[..close], p))
    else match LastIndexOf(value, 58)
      case None => Ok(Authority(value, default_))
      case Some(i) =>
        if 58 in value[..i] then Ok(Authority(value, default_))
        else match ParsePort(value[i + 1..], default_)
          case Err(e) => Err(e)
          case Ok(p) => Ok(Authority(value[..i], p))
  }

  /** `parse_host_port`. */
  function ParseHostPort(text: bytes, default_: u16): Result<Authority, ProxyError> {
    var value := Trim(text);
    if value == [] then Err(EmptyHost)
    else match SplitHostPort(value, default_)
      case Err(e) => Err(e)
      case Ok(a) => if Trim(a.host) == [] then Err(EmptyHost) else Ok(a)
  }

  /** `find_host_header`, over the lines after the first. */
  function FindHostIn(lines: seq<bytes>): Option<bytes> {
    if lines == [] then None
    else
      var colon := IndexOf(lines[0], 58);
      if colon < |lines[0]| && EqIgnoreCase(lines[0][..colon], HOST) then Some(Trim(lines[0][colon + 1..]))
      else FindHostIn(lines[1..])
  }

  function HeaderLines(text: bytes): seq<bytes> {
    var lines := Lines(text);
    if lines == [] then [] else lines[1..]
  }

  function FindHost(text: bytes): Option<bytes> { FindHostIn(HeaderLines(text)) }

  /** The host and port named by the Host header, or the error they give. */
  function HostFromHeader(text: bytes): Result<Authority, ProxyError> {
    match FindHost(text)
    case None => Err(MissingHost)
    case Some(host) => ParseHostPort(host, 80)
  }

  // ---------------------------------------------------------------------
  // Targets
  // ---------------------------------------------------------------------

  /** `normalize_origin_path`. */
  function NormalizePath(path: bytes): bytes {
    if path == [] then [47] else if path[0] == 47 then path else [47] + path
  }

  /** The index of the first "://". */
  function SeparatorIndex(s: bytes): (i: Option<nat>)
    ensures i.Some? <==> Contains(s, SEPARATOR)
    ensures i.Some? ==> i.value <= |s|
  {
    if OccursAt(s, SEPARATOR, 0) then Some(0)
    else if s == [] then None
    else
      var j := SeparatorIndex(s[1..]);
      ContainsCons(s, SEPARATOR);
      if j.None? then None else Some(j.value + 1)
  }

  lemma ContainsCons(s: bytes, needle: bytes)
    requires s != [] && needle != []
    ensures Contains(s, needle) <==> OccursAt(s, needle, 0) || Contains(s[1..], needle)
  {
    if Contains(s[1..], needle) {
      var i :| 0 <= i <= |s[1..]| && OccursAt(s[1..], needle, i);
      assert s[i + 1..i + 1 + |needle|] == s[1..][i..i + |needle|];
      assert OccursAt(s, needle, i + 1);
    }
    if Contains(s, needle) {
      var i :| 0 <= i <= |s| && OccursAt(s, needle, i);
      if i > 0 {
        assert s[1..][i - 1..i - 1 + |needle|] == s[i..i + |needle|];
        assert OccursAt(s[1..], needle, i - 1);
      }
    }
  }

  /** Authority and path of what follows "http://". */
  function SplitAbsolute(rest: bytes): (bytes, bytes) {
    var i := IndexOf(rest, 47);
    if i < |rest| then (rest[..i], rest[i..]) else (rest, [47])
  }

  datatype Routed = Routed(host: bytes, port: u16, path: bytes)

  /** Host, port and origin-form path of a request target. */
  function RouteTarget(text: bytes, target: bytes): Result<Routed, ProxyError> {
    if HTTP_SCHEME <= target then
      var (authority, path) := SplitAbsolute(target[|HTTP_SCHEME|..]);
      match ParseHostPort(authority, 80)
      case Err(e) => Err(e)
      case Ok(a) => Ok(Routed(a.host, a.port, NormalizePath(path)))
    else
      var separator := SeparatorIndex(target);
      if separator.Some? then Err(UnsupportedScheme(target[..separator.value]))
      else match HostFromHeader(text)
        case Err(e) => Err(e)
        case Ok(a) => Ok(Routed(a.host, a.port, NormalizePath(target)))
  }

  // ---------------------------------------------------------------------
  // Rewriting
  // ---------------------------------------------------------------------

  function RequestLine(verb: bytes, path: bytes, version: bytes): bytes {
    verb + [32] + path + [32] + version
  }

  /** What `rewrite_header` writes. */
  function Rewrite(text: bytes, verb: bytes, path: bytes, version: bytes): bytes {
    RequestLine(verb, path, version) + CRLF + EmitLines(SplitCrlf(text)[1..])
  }

  /** `rewrite_header`: the loop over the lines, which stops after the first empty one. */
  method RewriteHeader(text: bytes, verb: bytes, path: bytes, version: bytes) returns (rewritten: bytes)
    ensures rewritten == Rewrite(text, verb, path, version)
  {
    hide SplitCrlf, RequestLine;
    SplitNonEmpty(text);
    var lines := SplitCrlf(text)[1..];
    rewritten := RequestLine(verb, path, version) + CRLF;
    var i := 0;
    assert lines[0..] == lines;
    while i < |lines|
      invariant 0 <= i <= |lines|
      invariant rewritten + EmitLines(lines[i..]) == Rewrite(text, verb, path, version)
    {
      if lines[i] == [] {
        rewritten := rewritten + CRLF;
        return;
      }
      assert lines[i..][1..] == lines[i + 1..];
      ConcatAssoc(rewritten, lines[i] + CRLF, EmitLines(lines[i + 1..]));
      rewritten := rewritten + (lines[i] + CRLF);
      i := i + 1;
    }
  }

  lemma SplitNonEmpty(text: bytes)
    ensures SplitCrlf(text) != []
  {
  }

  // ---------------------------------------------------------------------
  // Requests
  // ---------------------------------------------------------------------

  /** `parse_http_proxy_request`, once the head is text. */
  function ParseText(text: bytes): Result<ProxyRequest, ProxyError> {
    SplitNonEmpty(text);
    var lines := Lines(text);
    if lines == [] then Err(MissingRequestLine)
    else
      var words := Words(lines[0]);
      if |words| != 3 then Err(InvalidRequestLine)
      else match RouteTarget(text, words[1])
        case Err(e) => Err(e)
        case Ok(route) =>
          Ok(ProxyRequest(words[0], route.host, route.port, route.path, words[2],
                          Rewrite(text, words[0], route.path, words[2])))
  }

  function ParseRequest(stream: bytes): Result<ProxyRequest, ProxyError> {
    match ReadHeader(stream).result
    case Err(Io) => Err(IoError)
    case Err(HeaderTooLarge) => Err(TooLarge)
    case Ok(header) => if IsUtf8(header) then ParseText(header) else Err(InvalidUtf8)
  }

  /** `parse_http_proxy_request`. */
  method ParseHttpProxyRequest(reader: Reader) returns (result: Result<ProxyRequest, ProxyError>)
    requires reader.Valid()
    modifies reader
    ensures reader.Valid()
    ensures var ahead := reader.data[old(reader.position)..];
            && result == ParseRequest(ahead)
            && reader.position == old(reader.position) + ReadHeader(ahead).consumed
  {
    hide ReadHeader, IsUtf8, Lines, Words, RouteTarget, Rewrite;
    var header := ReadHeaderFrom(reader);
    if header.Err? { return Err(if header.error == Io then IoError else TooLarge); }
    var text := header.value;
    if !IsUtf8(text) { return Err(InvalidUtf8); }
    var lines := Lines(text);
    if lines == [] { return Err(MissingRequestLine); }
    var words := Words(lines[0]);
    if |words| != 3 { return Err(InvalidRequestLine); }
    var route := RouteTarget(text, words[1]);
    if route.Err? { return Err(route.error); }
    var rewritten := RewriteHeader(text, words[0], route.value.path, words[2]);
    result := Ok(ProxyRequest(words[0], route.value.host, route.value.port, route.value.path, words[2], rewritten));
  }

  // ---------------------------------------------------------------------
  // What the rewrite keeps
  // ---------------------------------------------------------------------

  lemma FirstCrlf(h: bytes)
    requires IsHeader(h)
    ensures IndexCrlf(h).Some? && IndexCrlf(h).value + 4 <= |h|
  {
    assert CrlfAt(h, |h| - 4);
  }

  /** The rewritten head is the new request line followed by the original octets after the first CR LF. */
  lemma RewriteKeepsTail(h: bytes, verb: bytes, path: bytes, version: bytes)
    requires IsHeader(h)
    ensures IndexCrlf(h).Some?
    ensures var tail := h[IndexCrlf(h).value + 2..];
            IsTail(tail) && Rewrite(h, verb, path, version) == RequestLine(verb, path, version) + CRLF + tail
  {
    FirstCrlf(h);
    var i := IndexCrlf(h).value;
    TailOfHeader(h, i);
    EmitTail(h[i + 2..]);
    assert SplitCrlf(h)[1..] == SplitCrlf(h[i + 2..]);
    hide IsTail, EmitLines, RequestLine;
  }

  /** No line break inside. */
  predicate NoBreak(s: bytes) { forall k :: 0 <= k < |s| ==> s[k] != 10 && s[k] != 13 }

  lemma RequestLineFacts(verb: bytes, path: bytes, version: bytes)
    requires verb != [] && path != [] && version != [] && NoWhite(verb) && NoWhite(path) && NoWhite(version)
    ensures NoBreak(RequestLine(verb, path, version))
    ensures Words(RequestLine(verb, path, version)) == [verb, path, version]
  {
    NoWhiteNoBreak(verb);
    NoWhiteNoBreak(path);
    NoWhiteNoBreak(version);
    ThreeWords(verb, path, version);
  }

  lemma IndexOfAt(s: bytes, b: byte, i: nat)
    requires i < |s| && s[i] == b && forall k :: 0 <= k < i ==> s[k] != b
    ensures IndexOf(s, b) == i
  {
  }

  /** A line without breaks, put in front of CR LF, is the first line, and that CR LF the first one. */
  lemma LineInFront(line: bytes, tail: bytes)
    requires NoBreak(line)
    ensures var s := line + CRLF + tail;
            && Lines(s) == [line] + Lines(tail)
            && IndexCrlf(s) == Some(|line|)
            && s[|line| + 2..] == tail
  {
    var s := line + CRLF + tail;
    IndexOfAt(s, 10, |line| + 1);
    assert s[..|line| + 1] == line + [13];
    assert s[|line| + 2..] == tail;
    assert StripCr(line + [13]) == line;
    IndexCrlfIs(s, |line|);
  }

  lemma HeaderOfLine(line: bytes, tail: bytes)
    requires NoBreak(line) && IsTail(tail)
    ensures IsHeader(line + CRLF + tail)
  {
    var p := line + CRLF;
    assert forall k :: 0 <= k < |line| ==> p[k] != 13;
    HeaderOfTail(p, tail);
  }

  lemma FirstLineFeed(front: bytes, tail: bytes)
    ensures var i := IndexOf(front + CRLF + tail, 10);
            if 10 in front then i < |front| else i == |front| + 1
  {
    var s := front + CRLF + tail;
    var i := IndexOf(s, 10);
    assert s[|front|] == 13 && s[|front| + 1] == 10;
    if 10 in front {
      var k :| 0 <= k < |front| && front[k] == 10;
      assert s[k] == 10;
    } else {
      forall k | 0 <= k < |front|
        ensures s[k] != 10
      {
        assert s[k] == front[k];
      }
      IndexOfAt(s, 10, |front| + 1);
    }
  }

  lemma DropLine(front: bytes, tail: bytes, n: nat)
    requires n <= |front|
    ensures (front + CRLF + tail)[n..] == front[n..] + CRLF + tail
    ensures (front + CRLF + tail)[|front| + 2..] == tail
  {
  }

  lemma LinesStep(s: bytes)
    requires IndexOf(s, 10) < |s|
    ensures HeaderLines(s) == Lines(s[IndexOf(s, 10) + 1..]) && |Lines(s)| == |HeaderLines(s)| + 1
  {
    hide IndexOf, StripCr;
    var i := IndexOf(s, 10);
    assert Lines(s) == [StripCr(s[..i])] + Lines(s[i + 1..]);
    hide Lines;
    DropHead(StripCr(s[..i]), Lines(s[i + 1..]));
  }

  lemma DropHead(line: bytes, lines: seq<bytes>)
    ensures ([line] + lines)[1..] == lines
  {
  }

  lemma {:induction false} LinesGrow(front: bytes, tail: bytes)
    ensures |Lines(front + CRLF + tail)| >= |Lines(tail)| + 1
    decreases |front|
  {
    hide Lines, IndexOf, HeaderLines;
    var s := front + CRLF + tail;
    var i := IndexOf(s, 10);
    FirstLineFeed(front, tail);
    LinesStep(s);
    if 10 in front {
      DropLine(front, tail, i + 1);
      LinesGrow(front[i + 1..], tail);
    } else {
      DropLine(front, tail, |front|);
    }
  }

  /** No line feed before the first CR LF. */
  predicate CleanFirstLine(h: bytes) {
    var i := IndexCrlf(h);
    i.Some? && 10 !in h[..i.value]
  }

  /** The lines after the first are those behind the first CR LF, or more if a line feed came earlier. */
  lemma LinesBehind(front: bytes, tail: bytes)
    ensures var fields := HeaderLines(front + CRLF + tail);
            if 10 in front then |fields| > |Lines(tail)| else fields == Lines(tail)
  {
    hide Lines, IndexOf, HeaderLines;
    var s := front + CRLF + tail;
    var i := IndexOf(s, 10);
    FirstLineFeed(front, tail);
    LinesStep(s);
    if 10 in front {
      DropLine(front, tail, i + 1);
      LinesGrow(front[i + 1..], tail);
    } else {
      DropLine(front, tail, |front|);
    }
  }

  /**
   * The header fields after the request line survive the rewrite unchanged exactly when no bare
   * line feed stands before the first CR LF: what precedes that CR LF is dropped, and a line feed
   * in it has already ended the request line.
   */
  lemma FieldsKeptIff(h: bytes, verb: bytes, path: bytes, version: bytes)
    requires IsHeader(h)
    requires verb != [] && path != [] && version != [] && NoWhite(verb) && NoWhite(path) && NoWhite(version)
    ensures HeaderLines(Rewrite(h, verb, path, version)) == HeaderLines(h) <==> CleanFirstLine(h)
  {
    hide Rewrite, RequestLine, IsHeader, NoWhite, IsTail, HeaderLines, NoBreak;
    RewriteKeepsTail(h, verb, path, version);
    var i := IndexCrlf(h).value;
    var line := RequestLine(verb, path, version);
    RequestLineFacts(verb, path, version);
    AtCrlf(h, i);
    LinesBehind(h[..i], h[i + 2..]);
    NoBreakNoFeed(line);
    LinesBehind(line, h[i + 2..]);
  }

  lemma NoBreakNoFeed(s: bytes)
    requires NoBreak(s)
    ensures 10 !in s
  {
  }

  // ---------------------------------------------------------------------
  // Parsing the rewritten head again
  // ---------------------------------------------------------------------

  /** How the path comes out of the target. */
  predicate PathFrom(target: bytes, path: bytes) {
    || path == [47]
    || path == [47] + target
    || exists k :: 0 <= k < |target| && target[k] == 47 && path == target[k..]
  }

  lemma RoutedPath(text: bytes, target: bytes)
    requires target != [] && RouteTarget(text, target).Ok?
    ensures var path := RouteTarget(text, target).value.path;
            path != [] && path[0] == 47 && PathFrom(target, path)
  {
    hide ParseHostPort, HostFromHeader, SeparatorIndex;
    if HTTP_SCHEME <= target {
      var rest := target[|HTTP_SCHEME|..];
      var i := IndexOf(rest, 47);
      if i < |rest| {
        DropTwice(target, |HTTP_SCHEME|, i);
        assert target[|HTTP_SCHEME| + i] == 47;
      }
    } else if target[0] == 47 {
      assert target[0..] == target;
    }
  }

  lemma PathIsWord(target: bytes, path: bytes)
    requires NoWhite(target) && PathFrom(target, path)
    ensures NoWhite(path)
  {
    if path == [47] + target {
      assert path[0..] == path;
      forall k | 0 <= k < |path|
        ensures WhiteLen(path[k..]) == 0
      {
        if k > 0 { assert path[k..] == target[k - 1..]; }
      }
    } else if path == [47] {
      assert path[0..] == path;
    } else {
      var k :| 0 <= k < |target| && target[k] == 47 && path == target[k..];
      NoWhiteDrop(target, k);
    }
  }

  lemma PathIsUtf8(target: bytes, path: bytes)
    requires IsUtf8(target) && PathFrom(target, path)
    ensures IsUtf8(path)
  {
    Utf8Ascii(47);
    if path == [47] + target {
      Utf8Append([47], target);
    } else if path != [47] {
      var k :| 0 <= k < |target| && target[k] == 47 && path == target[k..];
      Utf8Cut(target, k);
    }
  }

  lemma WhiteIsChar(s: bytes)
    requires WhiteLen(s) > 0
    ensures CharLen(s) == WhiteLen(s)
  {
  }

  /** The words of well-formed text are well-formed. */
  lemma {:induction false} WordsUtf8(s: bytes)
    requires IsUtf8(s)
    ensures forall i :: 0 <= i < |Words(s)| ==> IsUtf8(Words(s)[i])
    decreases |s|
  {
    hide WhiteLen, CharLen;
    if s != [] {
      if WhiteLen(s) > 0 {
        WhiteIsChar(s);
        WordsUtf8(s[WhiteLen(s)..]);
      } else {
        var n := WordLen(s);
        WordLenNoWhite(s);
        if n < |s| { WhiteLenLead(s[n..]); assert s[n..][0] == s[n]; }
        Utf8Cut(s, n);
        WordsUtf8(s[n..]);
      }
    }
  }

  lemma FirstLineUtf8(s: bytes)
    requires IsUtf8(s) && Lines(s) != []
    ensures IsUtf8(Lines(s)[0])
  {
    var i := IndexOf(s, 10);
    Utf8Cut(s, i);
    var line := s[..i];
    if i < |s| && line != [] && line[i - 1] == 13 { Utf8Cut(line, i - 1); }
    assert i == |s| ==> s[..i] == s;
  }

  lemma RequestLineUtf8(verb: bytes, path: bytes, version: bytes)
    requires IsUtf8(verb) && IsUtf8(path) && IsUtf8(version)
    ensures IsUtf8(RequestLine(verb, path, version))
  {
    hide IsUtf8;
    Utf8Ascii(32);
    Utf8Append(verb, [32]);
    Utf8Append(verb + [32], path);
    Utf8Append(verb + [32] + path, [32]);
    Utf8Append(verb + [32] + path + [32], version);
  }

  lemma TailUtf8(h: bytes, i: nat)
    requires IsUtf8(h) && CrlfAt(h, i)
    ensures IsUtf8(CRLF + h[i + 2..])
  {
    Utf8Cut(h, i);
    assert h[i..] == CRLF + h[i + 2..];
  }

  /** Everything known about a request that was parsed from a complete head. */
  lemma ParsedParts(h: bytes)
    requires IsHeader(h) && IsUtf8(h) && ParseText(h).Ok?
    ensures var q := ParseText(h).value;
            && q.verb != [] && q.pathAndQuery != [] && q.version != [] && q.pathAndQuery[0] == 47
            && NoWhite(q.verb) && NoWhite(q.pathAndQuery) && NoWhite(q.version)
            && IsUtf8(q.verb) && IsUtf8(q.pathAndQuery) && IsUtf8(q.version)
            && q.rewritten == Rewrite(h, q.verb, q.pathAndQuery, q.version)
  {
    hide IsHeader, IsUtf8, Lines, Words, RouteTarget, Rewrite, NoWhite, PathFrom;
    var line := Lines(h)[0];
    var words := Words(line);
    FirstLineUtf8(h);
    WordsUtf8(line);
    WordsAreWords(line);
    RoutedPath(h, words[1]);
    var path := RouteTarget(h, words[1]).value.path;
    PathIsWord(words[1], path);
    PathIsUtf8(words[1], path);
  }

  /** The rewritten head is itself a complete, well-formed head with the new request line in front. */
  lemma RewrittenHead(h: bytes, verb: bytes, path: bytes, version: bytes)
    requires IsHeader(h) && IsUtf8(h)
    requires verb != [] && path != [] && version != [] && NoWhite(verb) && NoWhite(path) && NoWhite(version)
    requires IsUtf8(verb) && IsUtf8(path) && IsUtf8(version)
    ensures var r := Rewrite(h, verb, path, version);
            var line := RequestLine(verb, path, version);
            && IsHeader(r) && IsUtf8(r)
            && Lines(r) != [] && Lines(r)[0] == line && Words(line) == [verb, path, version]
            && Rewrite(r, verb, path, version) == r
  {
    hide *;
    RewriteKeepsTail(h, verb, path, version);
    var i := IndexCrlf(h).value;
    var line, tail := RequestLine(verb, path, version), h[i + 2..];
    var r := Rewrite(h, verb, path, version);
    RequestLineFacts(verb, path, version);
    LineInFront(line, tail);
    HeaderOfLine(line, tail);
    RewriteKeepsTail(r, verb, path, version);
    TailUtf8(h, i);
    RequestLineUtf8(verb, path, version);
    Utf8Append(line, CRLF + tail);
    ConcatAssoc(line, CRLF, tail);
  }

  lemma OriginTarget(text: bytes, path: bytes)
    requires path != [] && path[0] == 47
    ensures var host := HostFromHeader(text);
            RouteTarget(text, path)
            == if Contains(path, SEPARATOR) then Err(UnsupportedScheme(path[..SeparatorIndex(path).value]))
               else if host.Err? then Err(host.error)
               else Ok(Routed(host.value.host, host.value.port, path))
  {
    hide HostFromHeader, SeparatorIndex;
  }

  /** Parsing a text whose request line has an origin-form path. */
  lemma ParseOrigin(r: bytes, verb: bytes, path: bytes, version: bytes)
    requires path != [] && path[0] == 47
    requires Lines(r) != [] && Words(Lines(r)[0]) == [verb, path, version]
    ensures var host := HostFromHeader(r);
            if Contains(path, SEPARATOR) || host.Err? then ParseText(r).Err?
            else ParseText(r) == Ok(ProxyRequest(verb, host.value.host, host.value.port, path, version,
                                                 Rewrite(r, verb, path, version)))
  {
    hide Lines, Words, RouteTarget, Rewrite, HostFromHeader, Contains;
    OriginTarget(r, path);
  }

  /** Parsing the rewritten text: the same words, with host and port from the Host header. */
  lemma ReparseText(h: bytes)
    requires IsHeader(h) && IsUtf8(h) && ParseText(h).Ok?
    ensures var q := ParseText(h).value;
            var host := HostFromHeader(q.rewritten);
            && IsHeader(q.rewritten) && IsUtf8(q.rewritten)
            && (ParseText(q.rewritten).Ok? <==> !Contains(q.pathAndQuery, SEPARATOR) && host.Ok?)
            && (ParseText(q.rewritten).Ok? ==>
                  ParseText(q.rewritten).value == q.(host := host.value.host, port := host.value.port))
  {
    hide IsHeader, IsUtf8, ParseText, Rewrite, NoWhite, HostFromHeader, Contains, RequestLine;
    ParsedParts(h);
    var q := ParseText(h).value;
    RewrittenHead(h, q.verb, q.pathAndQuery, q.version);
    ParseOrigin(q.rewritten, q.verb, q.pathAndQuery, q.version);
  }

  /**
   * Sending the rewritten head through the parser again, with anything behind it, succeeds if and
   * only if it keeps the size cap, its path holds no "://" and its Host header parses; the result
   * then has the same verb, path, version and rewritten head.
   */
  lemma ReparseIff(stream: bytes, after: bytes)
    requires ParseRequest(stream).Ok?
    ensures var q := ParseRequest(stream).value;
            var again := ParseRequest(q.rewritten + after);
            var host := HostFromHeader(q.rewritten);
            && (again.Ok? <==>
                  |q.rewritten| <= 16384 && !Contains(q.pathAndQuery, SEPARATOR) && host.Ok?)
            && (again.Ok? ==> again.value == q.(host := host.value.host, port := host.value.port))
  {
    hide ReadHeader, IsUtf8, ParseText, HostFromHeader, Contains, IsHeader;
    var h := ReadHeader(stream).result.value;
    ReadHeaderIff(stream, h);
    ReparseText(h);
    ParseOfHead(ParseText(h).value.rewritten, after);
  }

  /** The first word after the request line's verb, as the parser sees it. */
  function TargetOf(h: bytes): bytes {
    if Lines(h) != [] && |Words(Lines(h)[0])| == 3 then Words(Lines(h)[0])[1] else []
  }

  lemma OriginPathHasNoSeparator(target: bytes)
    requires target != [] && !Contains(target, SEPARATOR)
    ensures !Contains(NormalizePath(target), SEPARATOR)
  {
    if target[0] != 47 {
      var path := [47] + target;
      assert path[1..] == target;
      ContainsCons(path, SEPARATOR);
      NotInFront(path, SEPARATOR);
    }
  }

  lemma NotInFront(s: bytes, needle: bytes)
    requires s != [] && needle != [] && s[0] != needle[0]
    ensures !OccursAt(s, needle, 0)
  {
    if |needle| <= |s| { assert s[0..|needle|][0] == s[0]; }
  }

  lemma HostKept(h: bytes)
    requires IsHeader(h) && IsUtf8(h) && ParseText(h).Ok? && CleanFirstLine(h)
    ensures HostFromHeader(ParseText(h).value.rewritten) == HostFromHeader(h)
  {
    ParsedParts(h);
    var q := ParseText(h).value;
    FieldsKeptIff(h, q.verb, q.pathAndQuery, q.version);
    hide *;
    SameFieldsSameHost(q.rewritten, h);
  }

  lemma SameFieldsSameHost(a: bytes, b: bytes)
    requires HeaderLines(a) == HeaderLines(b)
    ensures HostFromHeader(a) == HostFromHeader(b)
  {
  }

  lemma OriginParse(h: bytes)
    requires ParseText(h).Ok? && TargetOf(h) != [] && !(HTTP_SCHEME <= TargetOf(h))
    ensures var q := ParseText(h).value;
            && !Contains(q.pathAndQuery, SEPARATOR)
            && HostFromHeader(h) == Ok(Authority(q.host, q.port))
  {
    hide Lines, Words, Rewrite, HostFromHeader, Contains;
    OriginPathHasNoSeparator(TargetOf(h));
  }

  lemma TargetIsWord(h: bytes)
    requires ParseText(h).Ok?
    ensures TargetOf(h) != []
  {
    hide Lines, Words, Rewrite, RouteTarget;
    WordsAreWords(Lines(h)[0]);
  }

  /**
   * An origin-form request without a bare line feed in its first line is a fixed point: parsing
   * its rewritten head gives the very same request, exactly when the cap holds.
   */
  lemma OriginFormIsStable(h: bytes, after: bytes)
    requires IsHeader(h) && IsUtf8(h) && ParseText(h).Ok? && !(HTTP_SCHEME <= TargetOf(h)) && CleanFirstLine(h)
    ensures var q := ParseText(h).value;
            ParseRequest(q.rewritten + after) == Ok(q) <==> |q.rewritten| <= 16384
  {
    hide ReadHeader, IsUtf8, IsHeader, ParseText, HostFromHeader, Contains, TargetOf, CleanFirstLine;
    TargetIsWord(h);
    HostKept(h);
    OriginParse(h);
    ReparseText(h);
    ParseOfHead(ParseText(h).value.rewritten, after);
  }

  /** A request line closed by a bare line feed, one field, and the end of the head. */
  function LineFeedHead(line: bytes, field: bytes): bytes {
    line + [10] + field + CRLF + CRLF
  }

  lemma LineFeedIsHead(line: bytes, field: bytes)
    requires NoBreak(line) && NoBreak(field)
    ensures var h := LineFeedHead(line, field);
            && IsHeader(h)
            && IndexCrlf(h) == Some(|line| + 1 + |field|)
            && h[|line| + 1 + |field| + 2..] == CRLF
  {
    var front := line + [10] + field;
    assert forall k :: 0 <= k < |front| ==> front[k] != 13;
    IndexCrlfIs(CRLF, 0);
    HeaderOfTail(front + CRLF, CRLF);
    IndexCrlfIs(LineFeedHead(line, field), |front|);
  }

  lemma EmptyLineOnly()
    ensures Lines(CRLF) == [[]]
  {
    IndexOfAt(CRLF, 10, 1);
    assert CRLF[2..] == [];
  }

  lemma NoHostInEmptyLine(lines: seq<bytes>)
    requires lines == [[]]
    ensures FindHostIn(lines) == None
  {
    assert lines[1..] == [];
  }

  lemma LineFeedLines(line: bytes, field: bytes)
    requires NoBreak(line) && NoBreak(field)
    ensures Lines(LineFeedHead(line, field)) == [line, field, []]
  {
    hide Lines, IndexCrlf, NoBreak;
    LineFeedFirst(line, field + CRLF + CRLF);
    LineInFront(field, CRLF);
    EmptyLineOnly();
    assert LineFeedHead(line, field) == line + [10] + (field + CRLF + CRLF);
  }

  lemma LineFeedFirst(line: bytes, t: bytes)
    requires NoBreak(line)
    ensures Lines(line + [10] + t) == [line] + Lines(t)
  {
    var h := line + [10] + t;
    IndexOfAt(h, 10, |line|);
    assert h[..|line|] == line && h[|line| + 1..] == t;
    assert StripCr(line) == line;
    hide IndexOf, StripCr;
  }

  /**
   * What the rewrite does to such a head: the parser sees the field, the rewritten head has lost
   * it. So a Host field written there is honoured once and missing afterwards.
   */
  lemma LineFeedLosesField(verb: bytes, path: bytes, version: bytes, field: bytes)
    requires verb != [] && path != [] && version != [] && NoWhite(verb) && NoWhite(path) && NoWhite(version)
    requires NoBreak(field)
    ensures var h := LineFeedHead(RequestLine(verb, path, version), field);
            var r := Rewrite(h, verb, path, version);
            && IsHeader(h) && Lines(h) == [RequestLine(verb, path, version), field, []]
            && Lines(r) == [RequestLine(verb, path, version), []]
            && HostFromHeader(r) == Err(MissingHost)
  {
    hide IsHeader, NoWhite, NoBreak, Rewrite, RequestLine, LineFeedHead, Lines;
    var line := RequestLine(verb, path, version);
    var h := LineFeedHead(line, field);
    RequestLineFacts(verb, path, version);
    LineFeedIsHead(line, field);
    LineFeedLines(line, field);
    RewriteKeepsTail(h, verb, path, version);
    LineInFront(line, CRLF);
    EmptyLineOnly();
    DropHead(line, [[]]);
    NoHostInEmptyLine([[]]);
  }

  // ---------------------------------------------------------------------
  // Writing a host and port down
  // ---------------------------------------------------------------------

  function Digits(n: nat): (d: bytes)
    ensures d != [] && forall k :: 0 <= k < |d| ==> 48 <= d[k] <= 57
  {
    if n < 10 then [48 + n] else Digits(n / 10) + [48 + n % 10]
  }

  lemma {:induction false} DigitsDecimal(n: nat)
    ensures Decimal(Digits(n)) == Some(n)
  {
    var d := Digits(n);
    if n < 10 {
      assert d[..0] == [];
    } else {
      assert d[..|d| - 1] == Digits(n / 10);
      DigitsDecimal(n / 10);
    }
  }

  lemma PortReads(port: u16)
    ensures ParseU16(Digits(port)) == Some(port)
  {
    DigitsDecimal(port);
  }

  /** The decimal digits of a number with any number of zeros in front. */
  predicate PaddedDigits(s: bytes, n: nat) {
    var d := Digits(n);
    EndsWith(s, d) && forall k :: 0 <= k < |s| - |d| ==> s[k] == 48
  }

  lemma {:induction false} DecimalOfPadded(s: bytes, n: nat)
    requires PaddedDigits(s, n)
    ensures Decimal(s) == Some(n)
    decreases |s|
  {
    var d, front := Digits(n), s[..|s| - 1];
    assert s[|s| - 1] == s[|s| - |d|..][|d| - 1];
    if n >= 10 {
      var m := Digits(n / 10);
      assert d == m + [48 + n % 10];
      assert front[|front| - |m|..] == s[|s| - |d|..][..|m|];
      hide Digits;
      DecimalOfPadded(front, n / 10);
    } else {
      DecimalOfZeros(front);
    }
  }

  lemma {:induction false} DecimalOfZeros(s: bytes)
    requires forall k :: 0 <= k < |s| ==> s[k] == 48
    ensures Decimal(s) == Some(0)
  {
    if s != [] { DecimalOfZeros(s[..|s| - 1]); }
  }

  lemma PaddedZero(front: bytes, digit: nat)
    requires digit < 10 && (front == [] || PaddedDigits(front, 0))
    ensures PaddedDigits(front + [48 + digit], digit)
  {
    var s := front + [48 + digit];
    assert Digits(digit) == [48 + digit] && Digits(0) == [48];
    assert s[|s| - 1..] == [48 + digit];
    hide Digits;
    if front != [] { assert front[|front| - 1..][0] == 48; }
  }

  lemma PaddedMore(front: bytes, n: nat, digit: nat)
    requires digit < 10 && n > 0 && PaddedDigits(front, n)
    ensures PaddedDigits(front + [48 + digit], n * 10 + digit)
  {
    var s, d := front + [48 + digit], Digits(n);
    assert Digits(n * 10 + digit) == d + [48 + digit];
    hide Digits;
    assert s[|s| - |d| - 1..] == front[|front| - |d|..] + [48 + digit];
  }

  lemma {:induction false} DecimalIsPadded(s: bytes)
    requires s != [] && Decimal(s).Some?
    ensures PaddedDigits(s, Decimal(s).value)
  {
    hide PaddedDigits;
    var front, digit: int := s[..|s| - 1], s[|s| - 1] - 48;
    assert s == front + [48 + digit];
    if front != [] { DecimalIsPadded(front); }
    var n := Decimal(front).value;
    if n == 0 { PaddedZero(front, digit); } else { PaddedMore(front, n, digit); }
  }

  /** A port is accepted exactly when it is written in decimal, with any zeros and at most one plus sign in front. */
  lemma ParseU16Iff(s: bytes, port: u16)
    ensures ParseU16(s) == Some(port) <==> PaddedDigits(s, port) || (s != [] && s[0] == 43 && PaddedDigits(s[1..], port))
  {
    var digits := if s != [] && s[0] == 43 then s[1..] else s;
    if PaddedDigits(digits, port) { DecimalOfPadded(digits, port); }
    if digits != [] && Decimal(digits).Some? { DecimalIsPadded(digits); }
    if s != [] && s[0] == 43 { NoPlus(s, port); }
    hide Digits, Decimal;
  }

  lemma NoPlus(s: bytes, port: u16)
    requires s != [] && s[0] == 43
    ensures !PaddedDigits(s, port)
  {
    var d := Digits(port);
    hide Digits;
    if |d| <= |s| { assert s[|s| - |d|..][0] == s[|s| - |d|]; }
  }

  /** `host:port`, with brackets around a host that holds a colon. */
  function FormatAuthority(host: bytes, port: u16): bytes {
    if 58 in host then [91] + (host + ([93] + ([58] + Digits(port)))) else host + ([58] + Digits(port))
  }

  /** The hosts that survive being written down: no closing bracket inside brackets, no opening one outside. */
  predicate Writable(host: bytes) {
    host != [] && if 58 in host then 93 !in host else host[0] != 91
  }

  lemma WritableNonEmpty(host: bytes)
    requires Writable(host)
    ensures host != []
  {
  }

  lemma IndexBehind(host: bytes, b: byte, after: bytes)
    requires b !in host
    ensures IndexOf(host + ([b] + after), b) == |host|
    ensures (host + ([b] + after))[..|host|] == host && (host + ([b] + after))[|host| + 1..] == after
  {
    var s := host + ([b] + after);
    assert s[|host|] == b;
    IndexOfAt(s, b, |host|);
  }

  lemma {:induction false} LastIndexOfAt(s: bytes, b: byte, i: nat)
    requires i < |s| && s[i] == b && forall k :: i < k < |s| ==> s[k] != b
    ensures LastIndexOf(s, b) == Some(i)
    decreases |s|
  {
    if i < |s| - 1 { LastIndexOfAt(s[..|s| - 1], b, i); }
  }

  lemma LastColon(host: bytes, port: u16)
    ensures var s := host + ([58] + Digits(port));
            && LastIndexOf(s, 58) == Some(|host|)
            && s[..|host|] == host && s[|host| + 1..] == Digits(port)
  {
    var s := host + ([58] + Digits(port));
    var d := Digits(port);
    hide Digits;
    assert s[|host|] == 58;
    forall k | |host| < k < |s|
      ensures s[k] != 58
    {
      assert s[k] == d[k - |host| - 1];
    }
    LastIndexOfAt(s, 58, |host|);
  }

  /** What stands between an opening bracket and the first closing one is not the whole host. */
  lemma BracketCutsShort(host: bytes, port: u16)
    requires host != [] && !Writable(host)
    ensures var s := FormatAuthority(host, port);
            var close := IndexOf(s[1..], 93);
            s != [] && s[0] == 91 && (close < |s[1..]| ==> s[1..][..close] != host)
  {
    var s := FormatAuthority(host, port);
    var d := Digits(port);
    hide Digits;
    var rest := s[1..];
    var close := IndexOf(rest, 93);
    if 58 in host {
      assert rest == host + ([93] + ([58] + d));
      var k :| 0 <= k < |host| && host[k] == 93;
      assert rest[k] == 93;
    } else {
      forall k | |host| <= k < |rest|
        ensures rest[k] != 93
      {
        assert rest[k] == d[k - |host|];
      }
    }
  }

  lemma SplitFormatted(host: bytes, port: u16, default_: u16)
    requires Writable(host)
    ensures FormatAuthority(host, port) != []
    ensures SplitHostPort(FormatAuthority(host, port), default_) == Ok(Authority(host, port))
  {
    PortReads(port);
    var d := Digits(port);
    hide Digits, ParseU16;
    if 58 in host { SplitBracketed(host, d, default_); } else { SplitPlain(host, port, default_); }
  }

  lemma SplitBracketed(host: bytes, d: bytes, default_: u16)
    requires 93 !in host && d != []
    ensures var r := SplitHostPort([91] + (host + ([93] + ([58] + d))), default_);
            var port := ParsePort(d, default_);
            r == if port.Err? then Err(port.error) else Ok(Authority(host, port.value))
  {
    hide ParsePort, LastIndexOf;
    var after := [58] + d;
    assert ([91] + (host + ([93] + after)))[1..] == host + ([93] + after);
    IndexBehind(host, 93, after);
    assert after[1..] == d;
    hide IndexOf;
  }

  lemma SplitPlain(host: bytes, port: u16, default_: u16)
    requires host != [] && host[0] != 91 && 58 !in host
    ensures var r := SplitHostPort(host + ([58] + Digits(port)), default_);
            var p := ParsePort(Digits(port), default_);
            r == if p.Err? then Err(p.error) else Ok(Authority(host, p.value))
  {
    hide ParsePort, Digits, IndexOf;
    LastColon(host, port);
    hide LastIndexOf;
    assert (host + ([58] + Digits(port)))[0] == host[0];
  }

  lemma SplitUnwritable(host: bytes, port: u16, default_: u16)
    requires !Writable(host)
    ensures FormatAuthority(host, port) != []
    ensures var r := SplitHostPort(FormatAuthority(host, port), default_);
            r.Ok? ==> r.value.host != host || host == []
  {
    assert FormatAuthority(host, port) != [];
    hide FormatAuthority, Writable, ParsePort;
    if host != [] {
      BracketCutsShort(host, port);
      if SplitHostPort(FormatAuthority(host, port), default_).Ok? {
        SplitBracket(FormatAuthority(host, port), default_);
      }
    }
  }

  lemma SplitBracket(value: bytes, default_: u16)
    requires value != [] && value[0] == 91 && SplitHostPort(value, default_).Ok?
    ensures var close := IndexOf(value[1..], 93);
            close < |value[1..]| && SplitHostPort(value, default_).value.host == value[1..][..close]
  {
  }

  lemma WhiteEndOfWord(s: bytes)
    requires NoWhite(s)
    ensures WhiteLen(s) == 0 && WhiteEnd(s) == 0
  {
    hide WhiteLen, NoWhite;
    if |s| >= 1 { NoWhiteAt(s, |s| - 1); NoWhiteAt(s, 0); }
    if |s| >= 2 { NoWhiteAt(s, |s| - 2); }
    if |s| >= 3 { NoWhiteAt(s, |s| - 3); }
    if s == [] { WhiteLenEmpty(s); } else { assert s[0..] == s; }
  }

  lemma WhiteLenEmpty(s: bytes)
    requires s == []
    ensures WhiteLen(s) == 0
  {
  }

  lemma TrimWord(s: bytes)
    requires NoWhite(s)
    ensures Trim(s) == s
  {
    hide WhiteLen, WhiteEnd, NoWhite;
    WhiteEndOfWord(s);
  }

  lemma NoWhiteAppend(a: bytes, b: bytes)
    requires NoWhite(a) && NoWhite(b) && (b == [] || !Continuation(b[0]))
    ensures NoWhite(a + b)
  {
    var s := a + b;
    forall k | 0 <= k < |s|
      ensures WhiteLen(s[k..]) == 0
    {
      if k < |a| {
        assert s[k..] == a[k..] + b;
        WhiteLenCut(a[k..], b);
      } else {
        assert s[k..] == b[k - |a|..];
      }
    }
  }

  lemma NoWhiteCons(c: byte, s: bytes)
    requires 32 < c < 128 && NoWhite(s)
    ensures NoWhite([c] + s)
  {
    var t := [c] + s;
    forall k | 0 <= k < |t|
      ensures WhiteLen(t[k..]) == 0
    {
      if k > 0 { assert t[k..] == s[k - 1..]; }
    }
  }

  lemma AsciiNoWhite(s: bytes)
    requires forall k :: 0 <= k < |s| ==> 32 < s[k] < 128
    ensures NoWhite(s)
  {
    forall k | 0 <= k < |s|
      ensures WhiteLen(s[k..]) == 0
    {
      assert s[k..][0] == s[k];
    }
  }

  lemma FormattedIsWord(host: bytes, port: u16)
    requires NoWhite(host)
    ensures NoWhite(FormatAuthority(host, port)) && FormatAuthority(host, port) != []
  {
    var d := Digits(port);
    AsciiNoWhite(d);
    hide Digits, NoWhite;
    NoWhiteCons(58, d);
    NoWhiteCons(93, [58] + d);
    NoWhiteAppend(host, [58] + d);
    NoWhiteAppend(host, [93] + ([58] + d));
    NoWhiteCons(91, host + ([93] + ([58] + d)));
  }

  // ---------------------------------------------------------------------
  // Which authorities mean which host and port
  // ---------------------------------------------------------------------

  /** `host` in brackets; behind them a port after a colon, or anything else, which is ignored. */
  predicate BracketForm(value: bytes, host: bytes, port: u16, default_: u16) {
    var front := [91] + (host + [93]);
    && 93 !in host
    && front <= value
    && var tail := value[|front|..];
       if tail != [] && tail[0] == 58 then ParsePort(tail[1..], default_) == Ok(port) else port == default_
  }

  function Colons(s: bytes): nat { multiset(s)[58] }

  /** A single colon parts host and port; without one, or with several, all of it is the host. */
  predicate PlainForm(value: bytes, host: bytes, port: u16, default_: u16) {
    if Colons(value) == 1 then host + [58] <= value && ParsePort(value[|host| + 1..], default_) == Ok(port)
    else host == value && port == default_
  }

  lemma BracketCut(value: bytes, close: nat)
    requires value != [] && value[0] == 91 && close < |value[1..]| && value[1..][close] == 93
    ensures value == [91] + (value[1..][..close] + [93]) + value[1..][close + 1..]
  {
  }

  lemma BracketJoin(value: bytes, host: bytes)
    requires [91] + (host + [93]) <= value
    ensures value[1..] == host + ([93] + value[|[91] + (host + [93])|..])
  {
    var front := [91] + (host + [93]);
    assert value == front + value[|front|..];
  }

  /** The text up to the first closing bracket is `host` exactly when the brackets enclose it. */
  lemma BracketsEnclose(value: bytes, host: bytes)
    requires value != [] && value[0] == 91
    ensures var rest := value[1..];
            var close := IndexOf(rest, 93);
            && (close < |rest| && rest[..close] == host <==> 93 !in host && [91] + (host + [93]) <= value)
            && (close < |rest| && rest[..close] == host ==> value[|[91] + (host + [93])|..] == rest[close + 1..])
  {
    hide IndexOf;
    var rest := value[1..];
    var close := IndexOf(rest, 93);
    if close < |rest| && rest[..close] == host {
      BracketCut(value, close);
      assert 93 !in host;
    } else if 93 !in host && [91] + (host + [93]) <= value {
      BracketJoin(value, host);
      IndexBehind(host, 93, value[|[91] + (host + [93])|..]);
    }
  }

  lemma SplitBracketIff(value: bytes, host: bytes, port: u16, default_: u16)
    requires value != [] && value[0] == 91
    ensures SplitHostPort(value, default_) == Ok(Authority(host, port)) <==> BracketForm(value, host, port, default_)
  {
    assert ParsePort([], default_) == Ok(default_);
    hide ParsePort, LastIndexOf, IndexOf;
    BracketsEnclose(value, host);
  }

  lemma {:induction false} LastIndexSplits(s: bytes, b: byte)
    ensures match LastIndexOf(s, b)
            case None => b !in s
            case Some(i) => i < |s| && s[i] == b && b !in s[i + 1..]
    decreases |s|
  {
    if s != [] {
      var n := |s| - 1;
      assert s == s[..n] + [s[n]];
      if s[n] != b {
        LastIndexSplits(s[..n], b);
        var last := LastIndexOf(s[..n], b);
        if last.Some? { assert s[last.value + 1..] == s[..n][last.value + 1..] + [s[n]]; }
      }
    }
  }

  /** With the last colon at `i`, the colon is the only one exactly when none comes before. */
  lemma ColonsAt(s: bytes, i: nat)
    requires i < |s| && s[i] == 58 && 58 !in s[i + 1..]
    ensures Colons(s) == 1 <==> 58 !in s[..i]
  {
    assert s == s[..i] + [58] + s[i + 1..];
    assert Colons(s) == Colons(s[..i]) + 1 + Colons(s[i + 1..]);
  }

  lemma NoColons(s: bytes)
    requires 58 !in s
    ensures Colons(s) == 0
  {
  }

  lemma SoleColon(value: bytes, i: nat, host: bytes)
    requires i < |value| && value[i] == 58 && 58 !in value[..i] && 58 !in value[i + 1..]
    ensures host + [58] <= value <==> host == value[..i]
  {
    var n := |host|;
    if n < i { assert value[..i][n] == value[n]; }
    if i < n < |value| { assert value[i + 1..][n - i - 1] == value[n]; }
    assert value[..i] + [58] <= value;
    if host + [58] <= value { assert (host + [58])[n] == value[n]; assert value[..n] == host; }
  }

  lemma SplitPlainIff(value: bytes, host: bytes, port: u16, default_: u16)
    requires value != [] && value[0] != 91
    ensures SplitHostPort(value, default_) == Ok(Authority(host, port)) <==> PlainForm(value, host, port, default_)
  {
    hide ParsePort, LastIndexOf, IndexOf, Colons;
    LastIndexSplits(value, 58);
    var last := LastIndexOf(value, 58);
    if last.None? {
      NoColons(value);
    } else {
      ColonsAt(value, last.value);
      if 58 !in value[..last.value] { SoleColon(value, last.value, host); }
    }
  }

  /** An authority is understood as a host and port exactly when it has the form for them and the host is not blank. */
  lemma ParseHostPortIff(text: bytes, default_: u16, host: bytes, port: u16)
    ensures ParseHostPort(text, default_) == Ok(Authority(host, port))
            <==> && Trim(text) != [] && Trim(host) != []
                 && if Trim(text)[0] == 91 then BracketForm(Trim(text), host, port, default_)
                    else PlainForm(Trim(text), host, port, default_)
  {
    hide Trim, SplitHostPort, BracketForm, PlainForm;
    var value := Trim(text);
    if value != [] {
      if value[0] == 91 { SplitBracketIff(value, host, port, default_); }
      else { SplitPlainIff(value, host, port, default_); }
    }
  }

  /** Why an authority is refused: blank, a bracket left open, or a text behind the colon that is no port. */
  lemma AuthorityErrors(text: bytes, host: bytes, port: bytes, default_: u16)
    ensures Trim(text) == [] ==> ParseHostPort(text, default_) == Err(EmptyHost)
    ensures Trim(text) != [] && Trim(text)[0] == 91 && 93 !in Trim(text) ==>
              ParseHostPort(text, default_) == Err(MissingHost)
    ensures && port != [] && ParseU16(port).None? && 93 !in host
            && Trim(text) == [91] + (host + ([93] + ([58] + port))) ==>
              ParseHostPort(text, default_) == Err(InvalidPort(port))
    ensures && port != [] && ParseU16(port).None? && 58 !in host && 58 !in port && (host == [] || host[0] != 91)
            && Trim(text) == host + ([58] + port) ==>
              ParseHostPort(text, default_) == Err(InvalidPort(port))
  {
    var value := Trim(text);
    hide Trim, ParseU16, Colons;
    if value != [] && value[0] == 91 && 93 !in value { NoClose(value, default_); }
    if 93 !in host && port != [] { SplitBracketed(host, port, default_); }
    hide SplitHostPort;
    if && port != [] && ParseU16(port).None? && 58 !in host && 58 !in port && (host == [] || host[0] != 91)
       && value == host + ([58] + port)
    {
      SplitAtColon(host, port, default_);
    }
  }

  lemma NoClose(value: bytes, default_: u16)
    requires value != [] && value[0] == 91 && 93 !in value
    ensures SplitHostPort(value, default_) == Err(MissingHost)
  {
    var rest := value[1..];
    assert 93 !in rest;
    assert IndexOf(rest, 93) == |rest|;
  }

  lemma ColonSplits(host: bytes, port: bytes)
    requires 58 !in host && 58 !in port
    ensures var s := host + ([58] + port);
            LastIndexOf(s, 58) == Some(|host|) && s[..|host|] == host && s[|host| + 1..] == port
  {
    var s := host + ([58] + port);
    assert s[|host|] == 58;
    forall k | |host| < k < |s|
      ensures s[k] != 58
    {
      assert s[k] == port[k - |host| - 1];
    }
    LastIndexOfAt(s, 58, |host|);
  }

  lemma SplitAtColon(host: bytes, port: bytes, default_: u16)
    requires 58 !in host && 58 !in port && (host == [] || host[0] != 91)
    ensures var p := ParsePort(port, default_);
            SplitHostPort(host + ([58] + port), default_) == if p.Err? then Err(p.error) else Ok(Authority(host, p.value))
  {
    ColonSplits(host, port);
    hide LastIndexOf, ParsePort, IndexOf;
  }

  lemma TrimEndVisible(s: bytes)
    requires s != [] && 32 < s[|s| - 1] < 128
    ensures TrimEnd(s) == s
  {
    hide WhiteEnd;
    WhiteEndVisible(s);
  }

  lemma WhiteEndVisible(s: bytes)
    requires s != [] && 32 < s[|s| - 1] < 128
    ensures WhiteEnd(s) == 0
  {
    hide WhiteLen;
    TailEndsVisible(s, 1);
    if |s| >= 2 { TailEndsVisible(s, 2); }
    if |s| >= 3 { TailEndsVisible(s, 3); }
  }

  lemma TailEndsVisible(s: bytes, n: nat)
    requires 1 <= n <= |s| && 32 < s[|s| - 1] < 128
    ensures WhiteLen(s[|s| - n..]) != n
  {
    assert s[|s| - n..][n - 1] == s[|s| - 1];
    EndsVisible(s[|s| - n..]);
    hide WhiteLen;
  }

  lemma EndsVisible(s: bytes)
    requires s != [] && 32 < s[|s| - 1] < 128
    ensures WhiteLen(s) != |s|
  {
  }

  /** Trimming the front stops at a colon, and trims nothing exactly when there is nothing to trim. */
  lemma {:induction false} TrimStartStops(host: bytes, rest: bytes) returns (k: nat)
    requires rest != [] && rest[0] == 58
    ensures k <= |host| && TrimStart(host + rest) == host[k..] + rest
    ensures k == 0 <==> WhiteLen(host) == 0
    decreases |host|
  {
    if host == [] {
      assert host + rest == rest;
      k := 0;
    } else {
      WhiteLenCut(host, rest);
      var w := WhiteLen(host);
      hide WhiteLen;
      k := 0;
      if w > 0 {
        DropAppend(host, rest, w);
        k := TrimStartStops(host[w..], rest);
        DropTwice(host, w, k);
        k := k + w;
      } else {
        assert host[0..] == host;
      }
    }
  }

  /** The hosts that survive being written down and trimmed: writable, not blank, no white space in front. */
  predicate Legible(host: bytes) {
    Writable(host) && Trim(host) != [] && (58 in host || WhiteLen(host) == 0)
  }

  lemma TrimFormatted(host: bytes, port: u16)
    requires 58 in host || WhiteLen(host) == 0
    ensures Trim(FormatAuthority(host, port)) == FormatAuthority(host, port)
  {
    var d := Digits(port);
    var s := FormatAuthority(host, port);
    assert s[|s| - 1] == d[|d| - 1];
    hide Digits;
    TrimEndVisible(s);
    if 58 !in host {
      var k := TrimStartStops(host, [58] + d);
      assert host[0..] == host;
    }
    hide TrimEnd;
  }

  /** With white space trimmed off its front, a host without a colon is not read back. */
  lemma TrimmedAway(host: bytes, port: u16, default_: u16)
    requires 58 !in host && WhiteLen(host) > 0
    ensures ParseHostPort(FormatAuthority(host, port), default_) != Ok(Authority(host, port))
  {
    var d := Digits(port);
    var s := FormatAuthority(host, port);
    var rest := [58] + d;
    hide Digits;
    var k := TrimStartStops(host, rest);
    var value := host[k..] + rest;
    assert value[|value| - 1] == d[|d| - 1];
    TrimEndVisible(value);
    assert Trim(s) == value;
    hide TrimStart, TrimEnd, WhiteLen, Trim;
    assert value[|host| - k] == 58;
    forall j | |host| - k < j < |value|
      ensures 48 <= value[j] <= 57
    {
      assert value[j] == d[j - (|host| - k) - 1];
    }
    ParseHostPortIff(s, default_, host, port);
    NotInTrimmed(value, host, k, port, default_);
    hide ParseHostPort, BracketForm, PlainForm;
  }

  lemma NotInTrimmed(value: bytes, host: bytes, k: nat, port: u16, default_: u16)
    requires 1 <= k <= |host| && |value| > |host| - k && value[|host| - k] == 58 && 58 !in host
    requires forall j :: |host| - k < j < |value| ==> 48 <= value[j] <= 57
    ensures !BracketForm(value, host, port, default_) && !PlainForm(value, host, port, default_)
  {
    var front := [91] + (host + [93]);
    assert front[|host| + 1] == 93;
    assert (host + [58])[|host|] == 58;
    hide ParsePort;
  }

  /** A written host and port are read back if and only if the host is legible. */
  lemma AuthorityRoundTrip(host: bytes, port: u16, default_: u16)
    ensures ParseHostPort(FormatAuthority(host, port), default_) == Ok(Authority(host, port)) <==> Legible(host)
  {
    hide FormatAuthority, Trim, Writable, SplitHostPort, WhiteLen;
    if 58 in host || WhiteLen(host) == 0 {
      TrimFormatted(host, port);
      if Writable(host) {
        WritableNonEmpty(host);
        SplitFormatted(host, port, default_);
      } else {
        SplitUnwritable(host, port, default_);
        TrimNothing();
      }
    } else {
      TrimmedAway(host, port, default_);
    }
  }

  lemma TrimNothing()
    ensures Trim([]) == []
  {
  }

  /** A host with an optional port, in brackets if a colon in the host could be taken for the one before a port. */
  function FormatHost(host: bytes, port: Option<u16>): bytes {
    match port
    case Some(p) => FormatAuthority(host, p)
    case None => if 58 in host then [91] + (host + [93]) else host
  }

  function PortOr(port: Option<u16>, default_: u16): u16 { if port.Some? then port.value else default_ }

  function PathOrRoot(path: bytes): bytes { if path == [] then [47] else path }

  /** Without a port behind it, a host without brackets must not end in white space either. */
  predicate LegibleWith(host: bytes, port: Option<u16>) {
    if port.Some? then Legible(host) else Writable(host) && Trim(host) != [] && (58 in host || Trim(host) == host)
  }

  lemma {:induction false} TrimEndShorter(s: bytes)
    ensures |TrimEnd(s)| <= |s|
    decreases |s|
  {
    hide WhiteEnd;
    if WhiteEnd(s) > 0 { TrimEndShorter(s[..|s| - WhiteEnd(s)]); }
  }

  lemma {:induction false} TrimStartShorter(s: bytes)
    ensures |TrimStart(s)| <= |s|
    decreases |s|
  {
    hide WhiteLen;
    if WhiteLen(s) > 0 { TrimStartShorter(s[WhiteLen(s)..]); }
  }

  lemma BracketedReads(host: bytes, default_: u16)
    requires 58 in host
    ensures ParseHostPort([91] + (host + [93]), default_) == Ok(Authority(host, default_))
            <==> Writable(host) && Trim(host) != []
  {
    var s := [91] + (host + [93]);
    assert s[|s| - 1] == 93;
    TrimEndVisible(s);
    assert TrimStart(s) == s;
    hide TrimStart, TrimEnd;
    assert Trim(s) == s;
    hide Trim, ParsePort;
    ParseHostPortIff(s, default_, host, default_);
    hide ParseHostPort;
  }

  lemma BareReads(host: bytes, default_: u16)
    requires 58 !in host
    ensures ParseHostPort(host, default_) == Ok(Authority(host, default_))
            <==> Writable(host) && Trim(host) != [] && Trim(host) == host
  {
    TrimStartKeeps(host);
    TrimEndKeeps(TrimStart(host));
    TrimStartShorter(host);
    TrimEndShorter(TrimStart(host));
    assert 58 !in Trim(host) && |Trim(host)| <= |host|;
    NoColons(Trim(host));
    hide Trim, ParsePort, Colons;
    ParseHostPortIff(host, default_, host, default_);
    hide ParseHostPort;
  }

  /** A written host is read back with its port, or with the default one, if and only if it is legible there. */
  lemma HostRoundTrip(host: bytes, port: Option<u16>, default_: u16)
    ensures ParseHostPort(FormatHost(host, port), default_)
            == Ok(Authority(host, PortOr(port, default_)))
            <==> LegibleWith(host, port)
  {
    hide FormatAuthority, Legible, Trim, Writable, ParseHostPort;
    if port.Some? {
      AuthorityRoundTrip(host, port.value, default_);
    } else if 58 in host {
      BracketedReads(host, default_);
    } else {
      BareReads(host, default_);
    }
  }

  lemma WordIsLegible(host: bytes, port: Option<u16>)
    requires NoWhite(host)
    ensures LegibleWith(host, port) <==> Writable(host)
  {
    TrimWord(host);
    WhiteEndOfWord(host);
    hide Trim, WhiteLen, NoWhite;
  }

  /** A field line named Host, in any case. */
  predicate NamesHost(line: bytes) {
    var colon := IndexOf(line, 58);
    colon < |line| && EqIgnoreCase(line[..colon], HOST)
  }

  /** The Host value is the trimmed value of the first field line with that name. */
  lemma {:induction false} FindHostIff(lines: seq<bytes>, host: bytes)
    ensures FindHostIn(lines) == Some(host)
            <==> exists i :: && 0 <= i < |lines| && NamesHost(lines[i])
                             && host == Trim(lines[i][IndexOf(lines[i], 58) + 1..])
                             && forall k :: 0 <= k < i ==> !NamesHost(lines[k])
  {
    hide Trim, EqIgnoreCase, IndexOf;
    if lines != [] && !NamesHost(lines[0]) {
      FindHostIff(lines[1..], host);
      hide NamesHost;
      if i :| && 0 <= i < |lines| && NamesHost(lines[i])
              && host == Trim(lines[i][IndexOf(lines[i], 58) + 1..])
              && forall k :: 0 <= k < i ==> !NamesHost(lines[k])
      {
        assert lines[1..][i - 1] == lines[i];
      }
    }
  }

  // ---------------------------------------------------------------------
  // Absolute form in, origin form out
  // ---------------------------------------------------------------------

  lemma {:induction false} AsciiUtf8(s: bytes)
    requires forall k :: 0 <= k < |s| ==> s[k] < 128
    ensures IsUtf8(s)
  {
    if s != [] { AsciiUtf8(s[1..]); }
  }

  lemma FormattedIsUtf8(host: bytes, port: u16)
    requires IsUtf8(host)
    ensures IsUtf8(FormatAuthority(host, port))
    ensures FormatAuthority(host, port) != [] && !Continuation(FormatAuthority(host, port)[0])
  {
    var d := Digits(port);
    AsciiUtf8([58] + d);
    AsciiUtf8([93] + ([58] + d));
    AsciiUtf8([91]);
    hide Digits;
    Utf8Append(host, [58] + d);
    Utf8Append(host, [93] + ([58] + d));
    Utf8Append([91], host + ([93] + ([58] + d)));
  }

  lemma HostIsWord(host: bytes, port: Option<u16>)
    requires NoWhite(host) && IsUtf8(host)
    ensures var s := FormatHost(host, port); NoWhite(s) && IsUtf8(s) && (s == [] || !Continuation(s[0]))
  {
    hide FormatAuthority;
    if port.Some? {
      hide IsUtf8, NoWhite;
      FormattedIsWord(host, port.value);
      FormattedIsUtf8(host, port.value);
    } else if 58 in host {
      AsciiUtf8([91]);
      AsciiUtf8([93]);
      AsciiNoWhite([93]);
      hide IsUtf8, NoWhite;
      NoWhiteAppend(host, [93]);
      NoWhiteCons(91, host + [93]);
      Utf8Append(host, [93]);
      Utf8Append([91], host + [93]);
    }
  }

  /** "http://", the host with an optional port, and the path. */
  function AbsoluteTarget(host: bytes, port: Option<u16>, path: bytes): bytes {
    [104, 116, 116, 112, 58, 47, 47] + (FormatHost(host, port) + path)
  }

  lemma AbsoluteIsWord(host: bytes, port: Option<u16>, path: bytes)
    requires NoWhite(host) && IsUtf8(host) && NoWhite(path) && IsUtf8(path) && (path == [] || path[0] == 47)
    ensures var target := AbsoluteTarget(host, port, path);
            target != [] && NoWhite(target) && IsUtf8(target)
  {
    hide IsUtf8, NoWhite, FormatHost;
    var authority := FormatHost(host, port);
    HostIsWord(host, port);
    NoWhiteAppend(authority, path);
    AsciiNoWhite(HTTP_SCHEME);
    var rest := authority + path;
    assert rest == [] || !Continuation(rest[0]);
    NoWhiteAppend(HTTP_SCHEME, rest);
    AsciiUtf8(HTTP_SCHEME);
    Utf8Append(authority, path);
    Utf8Append(HTTP_SCHEME, rest);
  }

  lemma {:induction false} TrimEndKeeps(s: bytes)
    ensures forall b :: b in TrimEnd(s) ==> b in s
    decreases |s|
  {
    hide WhiteEnd;
    if WhiteEnd(s) > 0 { TrimEndKeeps(s[..|s| - WhiteEnd(s)]); }
  }

  lemma {:induction false} TrimStartKeeps(s: bytes)
    ensures forall b :: b in TrimStart(s) ==> b in s
    decreases |s|
  {
    hide WhiteLen;
    if WhiteLen(s) > 0 { TrimStartKeeps(s[WhiteLen(s)..]); }
  }

  /** A parsed host is made of octets of the authority. */
  lemma HostWithin(authority: bytes, default_: u16)
    requires ParseHostPort(authority, default_).Ok?
    ensures forall b :: b in ParseHostPort(authority, default_).value.host ==> b in authority
  {
    TrimStartKeeps(authority);
    TrimEndKeeps(TrimStart(authority));
    hide TrimStart, TrimEnd, ParsePort;
  }

  lemma AuthorityHasSlashIff(host: bytes, port: Option<u16>)
    ensures 47 in FormatHost(host, port) <==> 47 in host
  {
    if port.Some? {
      var d := Digits(port.value);
      hide Digits;
      assert 47 !in [58] + d;
    }
  }

  /** Up to the first slash: all of an authority without one, and else something without one. */
  lemma SplitAt(authority: bytes, path: bytes)
    requires path == [] || path[0] == 47
    ensures var (a, p) := SplitAbsolute(authority + path);
            if 47 in authority then 47 !in a else a == authority && p == PathOrRoot(path)
  {
    var s := authority + path;
    if 47 in authority {
      var k :| 0 <= k < |authority| && authority[k] == 47;
      assert s[k] == 47;
    } else if path != [] {
      assert s[|authority|] == 47;
      IndexOfAt(s, 47, |authority|);
    }
  }

  /** An absolute target means its host, its port or 80, and its path or "/". */
  lemma RouteAbsolute(text: bytes, host: bytes, port: Option<u16>, path: bytes)
    requires NoWhite(host) && (path == [] || path[0] == 47)
    ensures RouteTarget(text, AbsoluteTarget(host, port, path))
            == Ok(Routed(host, PortOr(port, 80), PathOrRoot(path)))
            <==> Writable(host) && 47 !in host
  {
    hide FormatHost, NoWhite, ParseHostPort, Writable, LegibleWith, SplitAbsolute;
    var authority := FormatHost(host, port);
    var target := AbsoluteTarget(host, port, path);
    assert target[|HTTP_SCHEME|..] == authority + path;
    AuthorityHasSlashIff(host, port);
    SplitAt(authority, path);
    HostRoundTrip(host, port, 80);
    WordIsLegible(host, port);
    var cut := SplitAbsolute(authority + path).0;
    if ParseHostPort(cut, 80).Ok? { HostWithin(cut, 80); }
  }

  lemma HeadOfWords(verb: bytes, target: bytes, version: bytes, tail: bytes)
    requires verb != [] && target != [] && version != [] && NoWhite(verb) && NoWhite(target) && NoWhite(version)
    requires IsUtf8(verb) && IsUtf8(target) && IsUtf8(version) && IsTail(tail) && IsUtf8(tail)
    ensures var h := RequestLine(verb, target, version) + CRLF + tail;
            && IsHeader(h) && IsUtf8(h)
            && Lines(h) != [] && Words(Lines(h)[0]) == [verb, target, version]
            && IndexCrlf(h) == Some(|RequestLine(verb, target, version)|)
            && h[|RequestLine(verb, target, version)| + 2..] == tail
  {
    AsciiUtf8(CRLF);
    hide *;
    var line := RequestLine(verb, target, version);
    RequestLineFacts(verb, target, version);
    LineInFront(line, tail);
    HeaderOfLine(line, tail);
    RequestLineUtf8(verb, target, version);
    Utf8Append(CRLF, tail);
    Utf8Append(line, CRLF + tail);
    ConcatAssoc(line, CRLF, tail);
  }

  lemma ParseRouted(h: bytes, verb: bytes, target: bytes, version: bytes, route: Routed)
    requires Lines(h) != [] && Words(Lines(h)[0]) == [verb, target, version]
    ensures var q := ProxyRequest(verb, route.host, route.port, route.path, version,
                                  Rewrite(h, verb, route.path, version));
            ParseText(h) == Ok(q) <==> RouteTarget(h, target) == Ok(route)
  {
    hide Lines, Words, RouteTarget, Rewrite;
  }

  /** A complete head at the front of a stream decides the result, as long as it keeps the cap. */
  lemma ParseOfHead(h: bytes, after: bytes)
    requires IsHeader(h) && IsUtf8(h)
    ensures ParseRequest(h + after) == if |h| <= 16384 then ParseText(h) else Err(TooLarge)
  {
    hide ReadHeader, IsUtf8, IsHeader, ParseText;
    if |h| <= 16384 {
      assert h <= h + after;
      ReadHeaderIff(h + after, h);
    } else {
      LongHeaderRefused(h, after);
    }
  }

  /** Three words with a space between them, CR LF, and what follows. */
  function Head(verb: bytes, target: bytes, version: bytes, tail: bytes): bytes {
    verb + [32] + target + [32] + version + [13, 10] + tail
  }

  lemma Spelled(verb: bytes, target: bytes, version: bytes, tail: bytes)
    ensures RequestLine(verb, target, version) + CRLF + tail == Head(verb, target, version, tail)
  {
  }

  /** A head of three words and a tail is understood exactly when its target routes so and it keeps the cap. */
  lemma HeadRouted(verb: bytes, target: bytes, version: bytes, tail: bytes, after: bytes, route: Routed)
    requires verb != [] && target != [] && version != [] && NoWhite(verb) && NoWhite(target) && NoWhite(version)
    requires IsUtf8(verb) && IsUtf8(target) && IsUtf8(version) && IsTail(tail) && IsUtf8(tail)
    ensures var h := Head(verb, target, version, tail);
            ParseRequest(h + after)
            == Ok(ProxyRequest(verb, route.host, route.port, route.path, version, Head(verb, route.path, version, tail)))
            <==> RouteTarget(h, target) == Ok(route) && |h| <= 16384
  {
    hide *;
    var h := RequestLine(verb, target, version) + CRLF + tail;
    Spelled(verb, target, version, tail);
    Spelled(verb, route.path, version, tail);
    HeadOfWords(verb, target, version, tail);
    RewriteKeepsTail(h, verb, route.path, version);
    ParseRouted(h, verb, target, version, route);
    ParseOfHead(h, after);
  }

  /**
   * A request written in absolute form, with or without a port and a path, is understood and
   * rewritten to origin form with every header octet kept, if and only if its host is writable and
   * free of slashes and its head keeps the cap. The port is 80 and the path "/" unless given.
   */
  lemma AbsoluteFormIff(
    verb: bytes, host: bytes, port: Option<u16>, path: bytes, version: bytes, tail: bytes, after: bytes)
    requires verb != [] && version != [] && NoWhite(verb) && NoWhite(version) && IsUtf8(verb) && IsUtf8(version)
    requires NoWhite(host) && IsUtf8(host) && NoWhite(path) && IsUtf8(path) && (path == [] || path[0] == 47)
    requires IsTail(tail) && IsUtf8(tail)
    ensures var h := Head(verb, AbsoluteTarget(host, port, path), version, tail);
            var p, q := PortOr(port, 80), PathOrRoot(path);
            ParseRequest(h + after)
            == Ok(ProxyRequest(verb, host, p, q, version, Head(verb, q, version, tail)))
            <==> Writable(host) && 47 !in host && |h| <= 16384
  {
    var p, q := PortOr(port, 80), PathOrRoot(path);
    var target := AbsoluteTarget(host, port, path);
    hide *;
    AbsoluteIsWord(host, port, path);
    RouteAbsolute(Head(verb, target, version, tail), host, port, path);
    HeadRouted(verb, target, version, tail, after, Routed(host, p, q));
  }
}
