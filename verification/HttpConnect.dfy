/** The HTTP CONNECT front end (crates/keli-net-core/src/http_connect.rs). */
module HttpConnect {
  import opened Wrappers
  import opened Bytes
  import opened Text
  import opened Net
  import opened HttpHeader
  import Forms = OriginForm
  import Proxy = HttpProxy

  datatype ConnectError =
    | IoError
    | TooLarge
    | InvalidUtf8
    | MissingRequestLine
    | InvalidRequestLine
    | UnsupportedMethod(verb: bytes)
    | MissingTargetPort
    | InvalidPort(text: bytes)
    | EmptyHost

  datatype ConnectRequest = ConnectRequest(host: bytes, port: u16, version: bytes)

  const CONNECT: bytes := [67, 79, 78, 78, 69, 67, 84]

  datatype Halves = Halves(host: bytes, port: bytes)

  /** The host text and port text of a CONNECT target. */
  function SplitTarget(target: bytes): Result<Halves, ConnectError> {
    if target != [] && target[0] == 91 then
      var rest := target[1..];
      var close := IndexOf(rest, 93);
      if close == |rest| then Err(MissingTargetPort)
      else
        var tail := rest[close + 1..];
        if tail == [] || tail[0] != 58 then Err(MissingTargetPort) else Ok(Halves(rest[..close], tail[1..]))
    else
      var colon := Proxy.LastIndexOf(target, 58);
      if colon.None? then Err(MissingTargetPort)
      else Ok(Halves(target[..colon.value], target[colon.value + 1..]))
  }

  /** `parse_target`. */
  function ParseTarget(target: bytes): Result<Proxy.Authority, ConnectError> {
    var halves := SplitTarget(target);
    if halves.Err? then Err(halves.error)
    else if Trim(halves.value.host) == [] then Err(EmptyHost)
    else
      var port := Proxy.ParseU16(halves.value.port);
      if port.None? then Err(InvalidPort(halves.value.port))
      else Ok(Proxy.Authority(halves.value.host, port.value))
  }

  /** `parse_http_connect_request`, once the head is text. */
  function ParseText(text: bytes): Result<ConnectRequest, ConnectError> {
    var lines := Lines(text);
    if lines == [] then Err(MissingRequestLine)
    else
      var words := Words(lines[0]);
      if |words| != 3 then Err(InvalidRequestLine)
      else if !EqIgnoreCase(words[0], CONNECT) then Err(UnsupportedMethod(words[0]))
      else
        var target := ParseTarget(words[1]);
        if target.Err? then Err(target.error)
        else Ok(ConnectRequest(target.value.host, target.value.port, words[2]))
  }

  function ParseRequest(stream: bytes): Result<ConnectRequest, ConnectError> {
    match ReadHeader(stream).result
    case Err(Io) => Err(IoError)
    case Err(HeaderTooLarge) => Err(TooLarge)
    case Ok(header) => if IsUtf8(header) then ParseText(header) else Err(InvalidUtf8)
  }

  /** `parse_http_connect_request`. */
  method ParseHttpConnectRequest(reader: Reader) returns (result: Result<ConnectRequest, ConnectError>)
    requires reader.Valid()
    modifies reader
    ensures reader.Valid()
    ensures var ahead := reader.data[old(reader.position)..];
            && result == ParseRequest(ahead)
            && reader.position == old(reader.position) + ReadHeader(ahead).consumed
  {
    hide ReadHeader, IsUtf8, Lines, Words, ParseTarget;
    var header := ReadHeaderFrom(reader);
    if header.Err? { return Err(if header.error == Io then IoError else TooLarge); }
    if !IsUtf8(header.value) { return Err(InvalidUtf8); }
    result := ParseText(header.value);
  }

  // ---------------------------------------------------------------------
  // Targets
  // ---------------------------------------------------------------------

  /** The two ways a target may be put together. */
  predicate TargetForm(target: bytes, host: bytes, port: bytes) {
    || (93 !in host && target == [91] + (host + ([93] + ([58] + port))))
    || ((target == [] || target[0] != 91) && 58 !in port && target == host + ([58] + port))
  }

  lemma ConsTail(s: bytes)
    requires s != []
    ensures s == [s[0]] + s[1..]
  {
  }

  lemma SplitSound(target: bytes)
    requires SplitTarget(target).Ok?
    ensures var halves := SplitTarget(target).value;
            TargetForm(target, halves.host, halves.port)
  {
    if target != [] && target[0] == 91 { SplitBracket(target); } else { SplitPlain(target); }
  }

  lemma SplitBracket(target: bytes)
    requires SplitTarget(target).Ok? && target != [] && target[0] == 91
    ensures var halves := SplitTarget(target).value;
            TargetForm(target, halves.host, halves.port)
  {
    hide IndexOf, Proxy.LastIndexOf;
    var halves := SplitTarget(target).value;
    Proxy.BracketsEnclose(target, halves.host);
    var front := [91] + (halves.host + [93]);
    ConsTail(target[|front|..]);
    assert target == front + target[|front|..];
    Regroup(halves.host, halves.port);
  }

  lemma Regroup(host: bytes, port: bytes)
    ensures [91] + (host + [93]) + ([58] + port) == [91] + (host + ([93] + ([58] + port)))
  {
  }

  lemma SplitPlain(target: bytes)
    requires SplitTarget(target).Ok? && (target == [] || target[0] != 91)
    ensures var halves := SplitTarget(target).value;
            TargetForm(target, halves.host, halves.port)
  {
    Proxy.LastIndexSplits(target, 58);
    hide IndexOf, Proxy.LastIndexOf;
    var i := Proxy.LastIndexOf(target, 58).value;
    assert target == target[..i] + ([58] + target[i + 1..]);
  }

  lemma SplitComplete(target: bytes, host: bytes, port: bytes)
    requires TargetForm(target, host, port)
    ensures SplitTarget(target) == Ok(Halves(host, port))
  {
    if target != [] && target[0] == 91 {
      var after := [58] + port;
      assert target[1..] == host + ([93] + after);
      Proxy.IndexBehind(host, 93, after);
      assert after[1..] == port;
    } else {
      assert target[|host|] == 58;
      forall k | |host| < k < |target|
        ensures target[k] != 58
      {
        assert target[k] == port[k - |host| - 1];
      }
      Proxy.LastIndexOfAt(target, 58, |host|);
      assert target[..|host|] == host && target[|host| + 1..] == port;
    }
  }

  /** The targets accepted, and what they mean: exactly one of the two forms, a host that is not blank, a port. */
  lemma ParseTargetIff(target: bytes, host: bytes, port: u16)
    ensures ParseTarget(target) == Ok(Proxy.Authority(host, port))
            <==> Trim(host) != [] && exists text :: TargetForm(target, host, text) && Proxy.ParseU16(text) == Some(port)
  {
    hide SplitTarget, TargetForm, Trim;
    if ParseTarget(target) == Ok(Proxy.Authority(host, port)) { SplitSound(target); }
    if text :| TargetForm(target, host, text) && Proxy.ParseU16(text) == Some(port) {
      SplitComplete(target, host, text);
    }
  }

  /** Why a target is refused: neither form, a blank host, or a text that is no port, in this order. */
  lemma TargetErrors(target: bytes, host: bytes, text: bytes)
    ensures (forall h, t :: !TargetForm(target, h, t)) ==> ParseTarget(target) == Err(MissingTargetPort)
    ensures TargetForm(target, host, text) && Trim(host) == [] ==> ParseTarget(target) == Err(EmptyHost)
    ensures TargetForm(target, host, text) && Trim(host) != [] && Proxy.ParseU16(text).None? ==>
              ParseTarget(target) == Err(InvalidPort(text))
  {
    SplitError(target);
    hide SplitTarget, TargetForm, Trim, Proxy.ParseU16;
    if SplitTarget(target).Ok? { SplitSound(target); }
    if TargetForm(target, host, text) { SplitComplete(target, host, text); }
  }

  lemma SplitError(target: bytes)
    ensures SplitTarget(target).Err? ==> SplitTarget(target).error == MissingTargetPort
  {
  }

  /** A target written from any host and port is read back if and only if the host is not blank and writable. */
  lemma TargetRoundTrip(host: bytes, port: u16)
    ensures ParseTarget(Proxy.FormatAuthority(host, port)) == Ok(Proxy.Authority(host, port))
            <==> Trim(host) != [] && Proxy.Writable(host)
  {
    var target := Proxy.FormatAuthority(host, port);
    var digits := Proxy.Digits(port);
    Proxy.PortReads(port);
    if Proxy.Writable(host) {
      assert TargetForm(target, host, digits);
      SplitComplete(target, host, digits);
    } else if host != [] {
      Proxy.BracketCutsShort(host, port);
    }
    hide Proxy.FormatAuthority, Proxy.Digits, Trim, Proxy.ParseU16;
  }

  // ---------------------------------------------------------------------
  // Requests
  // ---------------------------------------------------------------------

  lemma ParseOfHead(h: bytes, after: bytes)
    requires IsHeader(h) && IsUtf8(h)
    ensures ParseRequest(h + after) == if |h| <= 16384 then ParseText(h) else Err(TooLarge)
  {
    hide ReadHeader, IsUtf8, IsHeader, ParseText;
    if |h| <= 16384 {
      assert h <= h + after;
      ReadHeaderIff(h + after, h);
    } else {
      LongHeaderRefused(h, after);
    }
  }

  /**
   * A CONNECT request for a host and port is understood, whatever fields and octets follow, if and
   * only if its verb is CONNECT in some case, its host is writable and its head keeps the cap.
   */
  lemma ConnectRoundTrip(
    verb: bytes, host: bytes, port: u16, version: bytes, tail: bytes, after: bytes)
    requires verb != [] && version != [] && NoWhite(verb) && NoWhite(version) && IsUtf8(verb) && IsUtf8(version)
    requires NoWhite(host) && IsUtf8(host) && IsTail(tail) && IsUtf8(tail)
    ensures var h := Proxy.Head(verb, Proxy.FormatAuthority(host, port), version, tail);
            ParseRequest(h + after) == Ok(ConnectRequest(host, port, version))
            <==> EqIgnoreCase(verb, [67, 79, 78, 78, 69, 67, 84]) && Proxy.Writable(host) && |h| <= 16384
  {
    hide IsHeader, IsUtf8, IsTail, NoWhite, Lines, Words, ParseTarget, Trim, ParseRequest, IndexCrlf, EqIgnoreCase;
    hide Proxy.RequestLine, Proxy.FormatAuthority, Proxy.Writable, Proxy.Head;
    var target := Proxy.FormatAuthority(host, port);
    var h := Proxy.Head(verb, target, version, tail);
    Proxy.Spelled(verb, target, version, tail);
    Proxy.FormattedIsWord(host, port);
    Proxy.FormattedIsUtf8(host, port);
    Proxy.HeadOfWords(verb, target, version, tail);
    Proxy.TrimWord(host);
    TargetRoundTrip(host, port);
    ParseOfHead(h, after);
    if Proxy.Writable(host) { Proxy.WritableNonEmpty(host); }
  }

  /** A complete head is refused for its verb first, then for its target. */
  lemma ConnectRefused(verb: bytes, target: bytes, version: bytes, tail: bytes, after: bytes)
    requires verb != [] && target != [] && version != [] && NoWhite(verb) && NoWhite(target) && NoWhite(version)
    requires IsUtf8(verb) && IsUtf8(target) && IsUtf8(version) && IsTail(tail) && IsUtf8(tail)
    requires |Proxy.Head(verb, target, version, tail)| <= 16384
    ensures var result := ParseRequest(Proxy.Head(verb, target, version, tail) + after);
            if !EqIgnoreCase(verb, [67, 79, 78, 78, 69, 67, 84]) then result == Err(UnsupportedMethod(verb))
            else ParseTarget(target).Err? ==> result == Err(ParseTarget(target).error)
  {
    hide IsHeader, IsUtf8, IsTail, NoWhite, Lines, Words, ParseTarget, ParseRequest, IndexCrlf, EqIgnoreCase;
    hide Proxy.RequestLine, Proxy.Head;
    Proxy.Spelled(verb, target, version, tail);
    Proxy.HeadOfWords(verb, target, version, tail);
    ParseOfHead(Proxy.Head(verb, target, version, tail), after);
  }

  /** A request line of more or fewer than three words is refused, whatever follows. */
  lemma WordCountRefused(words: seq<bytes>, tail: bytes, after: bytes)
    requires forall k :: 0 <= k < |words| ==> Forms.IsWord(words[k])
    requires |words| != 3 && IsTail(tail) && IsUtf8(tail)
    ensures var h := Forms.Sentence(words) + [13, 10] + tail;
            ParseRequest(h + after) == Err(if |h| <= 16384 then InvalidRequestLine else TooLarge)
  {
    var line := Forms.Sentence(words);
    Forms.SentenceReads(words);
    hide *;
    Forms.HeadOfLine(line, tail);
    BadLine(line + [13, 10] + tail);
    ParseOfHead(line + [13, 10] + tail, after);
  }

  lemma BadLine(h: bytes)
    requires Lines(h) != [] && |Words(Lines(h)[0])| != 3
    ensures ParseText(h) == Err(InvalidRequestLine)
  {
    hide Lines, Words;
  }

  /** Without a complete head within the cap the stream fails or is too large; a complete one must be UTF-8. */
  lemma StreamRefused(stream: bytes, h: bytes)
    ensures (forall n :: 0 <= n <= |stream| && n <= 16384 ==> !IsHeader(stream[..n])) ==>
              ParseRequest(stream) == Err(if |stream| < 16384 then IoError else TooLarge)
    ensures h <= stream && |h| <= 16384 && IsHeader(h) && !IsUtf8(h) ==> ParseRequest(stream) == Err(InvalidUtf8)
  {
    hide IsHeader, IsUtf8, ReadHeader, ParseText;
    if forall n :: 0 <= n <= |stream| && n <= 16384 ==> !IsHeader(stream[..n]) { NoHeaderRefused(stream); }
    ReadHeaderIff(stream, h);
  }
}
